/**
 * Associating a course with a class: a class without a course gets the
 * context's course, once, when the caller owns both the class and the
 * course.
 */
module AssociateCourseWithClassHandler {
  import opened Common
  import opened Json
  import opened Responses
  import opened ProcessorContext
  import opened Store
  import opened Messages
  import opened HandlerSupport
  import C = AJEntityClass
  import E = EventBuilderFactory
  import A = Authorizers

  /** The columns the association changes: the modifier and the course. */
  function AssociationChanges(userId: string, courseId: Option<string>, p: Parsers): C.ClassRow
  {
    map[C.MODIFIER_ID := C.UuidColumn(Some(userId), p), C.COURSE_ID := C.UuidColumn(courseId, p)]
  }

  /** A model loaded from a row that is then given a modifier and a course writes back exactly those two columns. */
  lemma AssociationSettersChange(row: C.ClassRow, userId: string, courseId: Option<string>, p: Parsers, m: C.ClassModel)
    requires m.attrs == row[C.MODIFIER_ID := C.UuidColumn(Some(userId), p)][C.COURSE_ID := C.UuidColumn(courseId, p)]
    requires m.dirty == {C.MODIFIER_ID, C.COURSE_ID}
    ensures m.Changes() == AssociationChanges(userId, courseId, p)
  {
    var changes := AssociationChanges(userId, courseId, p);
    assert m.Changes().Keys == changes.Keys;
  }

  /**
   * A course is associated at most once: after an association with a
   * convertible course id every row of the class carries that course, so
   * validating a second association of the same class is refused.
   */
  lemma AssociationIsFinal(db: Db, classId: string, userId: string, courseId: string, p: Parsers)
    requires p.pgConverts(courseId)
    ensures var after := db.(classes := UpdateClass(db.classes, classId, AssociationChanges(userId, Some(courseId), p)));
            && (forall k :: 0 <= k < |after.classes| && C.Id(after.classes[k]) == Some(classId) ==>
                  C.CourseId(after.classes[k]) == Some(courseId))
            && (FindById(after, Some(classId)).Some? ==> C.CourseId(FindById(after, Some(classId)).value).Some?)
  {
    var after := db.(classes := UpdateClass(db.classes, classId, AssociationChanges(userId, Some(courseId), p)));
    forall k | 0 <= k < |after.classes| && C.Id(after.classes[k]) == Some(classId)
      ensures C.CourseId(after.classes[k]) == Some(courseId)
    {
      var changes := AssociationChanges(userId, Some(courseId), p);
      assert C.ID !in changes;
      assert C.Id(db.classes[k]) == Some(classId);
      assert after.classes[k] == db.classes[k] + changes;
    }
    var found := FindById(after, Some(classId));
    if found.Some? {
      var k :| 0 <= k < |after.classes| && after.classes[k] == found.value;
    }
  }

  class AssociateCourseWithClassHandler {
    const context: Context
    const parsers: Parsers
    /** The class validateRequest loaded. */
    var entityClass: Option<C.ClassRow>

    constructor (context: Context, parsers: Parsers)
      ensures this.context == context && this.parsers == parsers && entityClass.None?
      ensures Valid()
    {
      this.context := context;
      this.parsers := parsers;
      entityClass := None;
    }

    /** A loaded class is the live class the context names. */
    ghost predicate Valid()
      reads this
    {
      entityClass.Some? ==> context.classId.Some? && LiveWithId(entityClass.value, context.classId.value)
    }

    predicate HandlerReadOnly()
    {
      false
    }

    /** checkSanity: class and course ids, a signed-in caller, and a present but empty payload. */
    method CheckSanity() returns (r: Outcome)
      ensures r.Returned?
      ensures NullOrEmpty(context.classId) || NullOrEmpty(context.courseId) ==> r.result == Fail(InvalidRequest, INVALID_CLASS_OR_COURSE)
      ensures !NullOrEmpty(context.classId) && !NullOrEmpty(context.courseId) && Anonymous(context.userId) ==>
                r.result == Fail(Forbidden, NOT_ALLOWED)
      ensures r.result.IsContinue() <==>
                !NullOrEmpty(context.classId) && !NullOrEmpty(context.courseId) && !Anonymous(context.userId)
                && context.request == Some(map[])
      ensures !r.result.IsContinue() ==> r.result.status == Failed
    {
      if NullOrEmpty(context.classId) || NullOrEmpty(context.courseId) {
        return Returned(Fail(InvalidRequest, INVALID_CLASS_OR_COURSE));
      }
      if Anonymous(context.userId) {
        return Returned(Fail(Forbidden, NOT_ALLOWED));
      }
      if context.request.None? || |context.request.value| != 0 {
        return Returned(Fail(InvalidRequest, INVALID_PAYLOAD));
      }
      return Returned(Continue());
    }

    /**
     * validateRequest: the live class must exist and have no course yet,
     * be of the current version and not archived, and the caller must own
     * the class and exactly one live course with the context's id.
     */
    method ValidateRequest(store: Database) returns (r: Outcome)
      requires Valid()
      modifies this
      ensures Valid()
      ensures store.Fails(FindClass) ==> r.Threw?
      ensures !store.Fails(FindClass) ==>
                match FindById(store.db, context.classId)
                case None => r == Returned(Fail(NotFound, NOT_FOUND))
                case Some(row) =>
                  && entityClass == Some(row)
                  && (C.CourseId(row).Some? ==> r == Returned(Fail(InvalidRequest, CLASS_ASSOCIATED_WITH_COURSE)))
                  && (C.CourseId(row).None? ==>
                        r == AndThen(VersionCheck(row), A.Authorize(A.ClassOwnerAndCourseOwner, context, row, store.db, store.faults)))
      ensures r == Returned(Continue()) <==>
                !store.Fails(FindClass) && FindById(store.db, context.classId).Some?
                && var row := FindById(store.db, context.classId).value;
                   && C.CourseId(row).None? && !C.IsArchived(row) && C.IsCurrentVersion(row) == Normal(true)
                   && A.IsOwner(row, context.userId)
                   && !store.Fails(CountCourse) && CourseCount(store.db, context.courseId, context.userId) == 1
    {
      if store.Fails(FindClass) {
        return Threw(DB_ERROR);
      }
      var classes := FindById(store.db, context.classId);
      if classes.None? {
        return Returned(Fail(NotFound, NOT_FOUND));
      }
      entityClass := classes;
      var row := classes.value;
      if C.CourseId(row).Some? {
        return Returned(Fail(InvalidRequest, CLASS_ASSOCIATED_WITH_COURSE));
      }
      var usable := VersionCheck(row);
      if usable != Returned(Continue()) {
        return usable;
      }
      r := A.Authorize(A.AuthorizerFor(A.AssociateCourseWithClass), context, row, store.db, store.faults);
      A.PassesMeaning(A.ClassOwnerAndCourseOwner, context, row, store.db, store.faults);
    }

    /**
     * executeRequest: the loaded class gets the caller as modifier and the
     * context's course; the response is "updated" with the class-update
     * event. A failed save escapes.
     */
    method ExecuteRequest(store: Database) returns (r: Outcome)
      requires Valid()
      modifies store
      ensures entityClass.None? || store.Fails(StoreOp.SaveClass) ==> r.Threw? && store.db == old(store.db)
      ensures entityClass.Some? && !store.Fails(StoreOp.SaveClass) ==>
                var classId := context.classId.value;
                && r == Returned(NoContentResponse(UPDATED, Some(E.UpdateClassEvent(classId))))
                && store.db == old(store.db).(classes := UpdateClass(old(store.db.classes), classId,
                                                                      AssociationChanges(context.userId, context.courseId, parsers)))
    {
      if entityClass.None? {
        return Threw(NULL_REFERENCE);
      }
      var m := new C.ClassModel.Load(entityClass.value);
      m.SetModifierId(Some(context.userId), parsers);
      m.SetCourseId(context.courseId, parsers);
      AssociationSettersChange(entityClass.value, context.userId, context.courseId, parsers, m);
      var saved := store.SaveClass(m, "");
      if saved.Thrown? {
        return Threw(saved.message);
      }
      // A save that wrote no row leaves no errors on the class model: the response is the same.
      return Returned(NoContentResponse(UPDATED, Some(E.UpdateClassEvent(context.classId.value))));
    }
  }
}

/**
 * Reading what content of its course a class can see. The class's
 * visibility setting decides the answer: everything, every collection plus
 * the assessments marked visible, or only the items marked visible.
 */
module VisibleContentHandler {
  import opened Common
  import opened Json
  import opened Responses
  import opened ProcessorContext
  import opened Store
  import opened Messages
  import opened HandlerSupport
  import C = AJEntityClass
  import I = AJEntityCollection
  import A = Authorizers
  import VCH = VisibleContentHelper

  // The class's content-visibility settings.
  const CONTENT_VISIBILITY_TYPE_VISIBLE_ALL: string := "visible_all"
  const CONTENT_VISIBILITY_TYPE_VISIBLE_COLLECTION: string := "visible_collection"
  const CONTENT_VISIBILITY_TYPE_VISIBLE_NONE: string := "visible_none"

  /** The visible assessments of the course: live, not collections, marked visible to the class. */
  function VisibleAssessmentIds(db: Db, classId: string, courseId: string): seq<Value>
  {
    StrValues(VCH.Ids(VisibleItems(db, courseId, classId, I.NotCollections)))
  }

  /**
   * The checks validation runs on the class it found: version and archive
   * state, then the course, then the caller's membership. It lets the
   * request through exactly when the class is current, not archived,
   * belongs to a course and the member check admits the caller.
   */
  function LoadedClassVerdict(ctx: Context, row: C.ClassRow, db: Db, faults: set<StoreOp>): (r: Outcome)
    ensures r == Returned(Continue()) <==>
              && !C.IsArchived(row) && C.IsCurrentVersion(row) == Normal(true)
              && C.CourseId(row).Some?
              && A.Passes(A.ClassMember, ctx, row, db, faults)
    ensures VersionCheck(row) == Returned(Continue()) && C.CourseId(row).None? ==>
              r == Returned(Fail(InvalidRequest, CLASS_WITHOUT_COURSE))
    ensures r.Threw? <==>
              C.IsCurrentVersion(row).Thrown?
              || (VersionCheck(row) == Returned(Continue()) && C.CourseId(row).Some?
                  && !A.IsOwner(row, ctx.userId) && !A.IsCollaborator(row, ctx.userId) && FindMembers in faults)
  {
    AndThen(VersionCheck(row),
            if C.CourseId(row).None? then Returned(Fail(InvalidRequest, CLASS_WITHOUT_COURSE))
            else A.Authorize(A.AuthorizerFor(A.VisibleContent), ctx, row, db, faults))
  }

  class VisibleContentHandler {
    const context: Context
    /** The class's content-visibility setting; reading it is not part of this model. */
    const contentVisibility: C.ClassRow -> Option<string>

    var entityClass: Option<C.ClassRow>
    var courseId: Option<string>

    constructor (context: Context, contentVisibility: C.ClassRow -> Option<string>)
      ensures this.context == context && this.contentVisibility == contentVisibility
      ensures entityClass.None? && courseId.None?
    {
      this.context := context;
      this.contentVisibility := contentVisibility;
      entityClass := None;
      courseId := None;
    }

    ghost predicate Valid()
      reads this
    {
      && (entityClass.Some? ==> context.classId.Some? && LiveWithId(entityClass.value, context.classId.value))
      && (courseId.Some? ==> entityClass.Some? && courseId == C.CourseId(entityClass.value))
    }

    /** The handler only reads. */
    predicate HandlerReadOnly()
    {
      true
    }

    /** checkSanity: a class id and a signed-in caller. */
    method CheckSanity() returns (r: Outcome)
      ensures r.Returned?
      ensures NullOrEmpty(context.classId) ==> r.result == Fail(InvalidRequest, MISSING_CLASS_ID)
      ensures !NullOrEmpty(context.classId) && Anonymous(context.userId) ==> r.result == Fail(Forbidden, NOT_ALLOWED)
      ensures r.result.IsContinue() <==> !NullOrEmpty(context.classId) && !Anonymous(context.userId)
    {
      if NullOrEmpty(context.classId) {
        return Returned(Fail(InvalidRequest, MISSING_CLASS_ID));
      }
      if Anonymous(context.userId) {
        return Returned(Fail(Forbidden, NOT_ALLOWED));
      }
      return Returned(Continue());
    }

    /**
     * validateRequest: the live class must exist, be of the current version
     * and not archived, and belong to a course (checked before the caller);
     * then the caller must own it, collaborate on it or be a member of it.
     */
    method ValidateRequest(store: Database) returns (r: Outcome)
      requires Valid()
      modifies this
      ensures Valid()
      ensures store.Fails(FindClass) ==> r.Threw?
      ensures !store.Fails(FindClass) ==>
                match FindById(store.db, context.classId)
                case None => r == Returned(Fail(NotFound, NOT_FOUND))
                case Some(row) => r == LoadedClassVerdict(context, row, store.db, store.faults)
      ensures r == Returned(Continue()) ==> entityClass.Some? && courseId.Some?
    {
      if store.Fails(FindClass) {
        return Threw(DB_ERROR);
      }
      var classes := FindById(store.db, context.classId);
      if classes.None? {
        return Returned(Fail(NotFound, NOT_FOUND));
      }
      entityClass := classes;
      var row := classes.value;
      courseId := C.CourseId(row);
      r := LoadedClassVerdict(context, row, store.db, store.faults);
    }

    /**
     * executeRequest: the body names the class's setting. "visible_all"
     * adds nothing else; "visible_collection" adds the visible assessments;
     * "visible_none" adds every visible item, split into assessments and
     * collections. Any other setting gives an empty body. A store error
     * escapes.
     */
    method ExecuteRequest(store: Database) returns (r: Outcome)
      requires Valid()
      ensures entityClass.None? || courseId.None? || contentVisibility(entityClass.value).None? ==> r.Threw?
      ensures entityClass.Some? && courseId.Some? && contentVisibility(entityClass.value).Some? ==>
                var setting := contentVisibility(entityClass.value).value;
                var classId := context.classId.value;
                && (EqualsIgnoreCase(setting, CONTENT_VISIBILITY_TYPE_VISIBLE_ALL) ==>
                      r == Returned(OkayResponse(map[C.CONTENT_VISIBILITY := Str(CONTENT_VISIBILITY_TYPE_VISIBLE_ALL)])))
                && (!EqualsIgnoreCase(setting, CONTENT_VISIBILITY_TYPE_VISIBLE_ALL)
                    && EqualsIgnoreCase(setting, CONTENT_VISIBILITY_TYPE_VISIBLE_COLLECTION) ==>
                      && (FindVisible in store.faults ==> r.Threw?)
                      && (FindVisible !in store.faults ==>
                            r == Returned(OkayResponse(map[C.CONTENT_VISIBILITY := Str(CONTENT_VISIBILITY_TYPE_VISIBLE_COLLECTION),
                                                           C.CV_ASSESSMENTS := Arr(VisibleAssessmentIds(store.db, classId, courseId.value))]))))
                && (!EqualsIgnoreCase(setting, CONTENT_VISIBILITY_TYPE_VISIBLE_ALL)
                    && !EqualsIgnoreCase(setting, CONTENT_VISIBILITY_TYPE_VISIBLE_COLLECTION)
                    && EqualsIgnoreCase(setting, CONTENT_VISIBILITY_TYPE_VISIBLE_NONE) ==>
                      var rows := VisibleItems(store.db, courseId.value, classId, I.AnyFormat);
                      && (FindVisible in store.faults ==> r.Threw?)
                      && (FindVisible !in store.faults ==>
                            r == Returned(OkayResponse(map[C.CONTENT_VISIBILITY := Str(CONTENT_VISIBILITY_TYPE_VISIBLE_NONE),
                                                           C.CV_ASSESSMENTS := Arr(StrValues(VCH.AssessmentBucket(rows))),
                                                           C.CV_COLLECTIONS := Arr(StrValues(VCH.CollectionBucket(rows)))]))))
                && (!EqualsIgnoreCase(setting, CONTENT_VISIBILITY_TYPE_VISIBLE_ALL)
                    && !EqualsIgnoreCase(setting, CONTENT_VISIBILITY_TYPE_VISIBLE_COLLECTION)
                    && !EqualsIgnoreCase(setting, CONTENT_VISIBILITY_TYPE_VISIBLE_NONE) ==>
                      r == Returned(OkayResponse(map[])))
    {
      if entityClass.None? || courseId.None? {
        return Threw(NULL_REFERENCE);
      }
      var setting := contentVisibility(entityClass.value);
      if setting.None? {
        return Threw(NULL_REFERENCE);
      }
      var classId := context.classId.value;
      var response := new JsonBox(map[]);
      if EqualsIgnoreCase(setting.value, CONTENT_VISIBILITY_TYPE_VISIBLE_ALL) {
        response.Put(C.CONTENT_VISIBILITY, Str(CONTENT_VISIBILITY_TYPE_VISIBLE_ALL));
      } else if EqualsIgnoreCase(setting.value, CONTENT_VISIBILITY_TYPE_VISIBLE_COLLECTION) {
        response.Put(C.CONTENT_VISIBILITY, Str(CONTENT_VISIBILITY_TYPE_VISIBLE_COLLECTION));
        var populated := VCH.PopulateVisibleAssessments(store, classId, courseId.value, response);
        if populated.Thrown? {
          return Threw(populated.message);
        }
      } else if EqualsIgnoreCase(setting.value, CONTENT_VISIBILITY_TYPE_VISIBLE_NONE) {
        response.Put(C.CONTENT_VISIBILITY, Str(CONTENT_VISIBILITY_TYPE_VISIBLE_NONE));
        var populated := VCH.PopulateVisibleItems(store, classId, courseId.value, response);
        if populated.Thrown? {
          return Threw(populated.message);
        }
      }
      return Returned(OkayResponse(response.fields));
    }
  }

  /**
   * The "visible_collection" answer lists exactly the live assessments of
   * the course that are marked visible to the class; the "visible_none"
   * answer splits the visible items by format, assessments of both kinds
   * on one side and collections on the other.
   */
  lemma VisibleListsMeaning(db: Db, classId: string, courseId: string, x: string)
    ensures Str(x) in VisibleAssessmentIds(db, classId, courseId) <==>
              exists i :: i in db.items && i.id == x && i.courseId == courseId && !i.isDeleted
                          && I.VisibleTo(i, classId) && i.format != I.FORMAT_TYPE_COLLECTION
    ensures var rows := VisibleItems(db, courseId, classId, I.AnyFormat);
            && (x in VCH.AssessmentBucket(rows) <==> exists k :: 0 <= k < |rows| && rows[k].id == x && VCH.AssessmentSide(rows[k]))
            && (x in VCH.CollectionBucket(rows) <==> exists k :: 0 <= k < |rows| && rows[k].id == x && I.IsCollection(rows[k]))
            && (forall k :: 0 <= k < |rows| ==> rows[k].courseId == courseId && !rows[k].isDeleted && I.VisibleTo(rows[k], classId))
  {
    VCH.VisibleAssessmentIdsMeaning(db, classId, courseId, x);
    var rows := VisibleItems(db, courseId, classId, I.AnyFormat);
    VCH.AssessmentBucketMeaning(rows, x);
    VCH.CollectionBucketMeaning(rows, x);
    forall k | 0 <= k < |rows| ensures rows[k].courseId == courseId && !rows[k].isDeleted && I.VisibleTo(rows[k], classId) {
      assert rows[k] in rows;
    }
  }
}

/**
 * Listing the classes of a course: the course's owner gets the fetch view
 * of every live class attached to the course.
 */
module FetchClassesForCourseHandler {
  import opened Common
  import opened Json
  import opened Responses
  import opened ProcessorContext
  import opened Store
  import opened Messages
  import opened HandlerSupport
  import C = AJEntityClass
  import A = Authorizers

  const RESPONSE_BUCKET_CLASSES: string := "classes"

  /** The classes FETCH_FOR_COURSE_QUERY_FILTER selects; a null course id matches none. */
  function CourseClasses(db: Db, courseId: Option<string>): seq<C.ClassRow>
  {
    if courseId.None? then [] else ClassesOfCourse(db, courseId.value)
  }

  /**
   * The list holds one view per live class of the course, and every
   * listed view is the view of such a class.
   */
  lemma ListIsTheCourseClasses(db: Db, courseId: string)
    ensures var listed := Views(CourseClasses(db, Some(courseId)));
            && (forall row :: row in db.classes && C.Live(row) && C.CourseId(row) == Some(courseId) ==>
                  Obj(C.FetchView(row)) in listed)
            && (forall v :: v in listed ==> exists row :: row in db.classes && C.Live(row)
                                                          && C.CourseId(row) == Some(courseId) && v == Obj(C.FetchView(row)))
  {
    var rows := CourseClasses(db, Some(courseId));
    var listed := Views(rows);
    forall row | row in db.classes && C.Live(row) && C.CourseId(row) == Some(courseId)
      ensures Obj(C.FetchView(row)) in listed
    {
      var k :| 0 <= k < |rows| && rows[k] == row;
      assert listed[k] == Obj(C.FetchView(row));
    }
    forall v | v in listed
      ensures exists row :: row in db.classes && C.Live(row) && C.CourseId(row) == Some(courseId) && v == Obj(C.FetchView(row))
    {
      var k :| 0 <= k < |listed| && listed[k] == v;
      assert rows[k] in rows;
    }
  }

  class FetchClassesForCourseHandler {
    const context: Context

    constructor (context: Context)
      ensures this.context == context
    {
      this.context := context;
    }

    predicate HandlerReadOnly()
    {
      true
    }

    /** checkSanity: a course id and a signed-in caller. */
    method CheckSanity() returns (r: Outcome)
      ensures r.Returned?
      ensures NullOrEmpty(context.courseId) ==> r.result == Fail(InvalidRequest, MISSING_COURSE)
      ensures !NullOrEmpty(context.courseId) && Anonymous(context.userId) ==> r.result == Fail(Forbidden, NOT_ALLOWED)
      ensures r.result.IsContinue() <==> !NullOrEmpty(context.courseId) && !Anonymous(context.userId)
    {
      if NullOrEmpty(context.courseId) {
        return Returned(Fail(InvalidRequest, MISSING_COURSE));
      }
      if Anonymous(context.userId) {
        return Returned(Fail(Forbidden, NOT_ALLOWED));
      }
      return Returned(Continue());
    }

    /** validateRequest: the caller must own exactly one live course with the context's id. */
    method ValidateRequest(store: Database) returns (r: Outcome)
      ensures r == Returned(A.CourseCheck(context, store.db, store.faults))
      ensures r == Returned(Continue()) <==> !store.Fails(CountCourse) && CourseCount(store.db, context.courseId, context.userId) == 1
    {
      // The course authorizer reads no class: it is given none.
      r := A.Authorize(A.AuthorizerFor(A.FetchClassesForCourse), context, map[], store.db, store.faults);
    }

    /** executeRequest: the views of the course's live classes under "classes"; a store error is an internal error. */
    method ExecuteRequest(store: Database) returns (r: Outcome)
      ensures store.Fails(ClassesForCourse) ==> r == Returned(Fail(InternalError, ERROR_FROM_STORE))
      ensures !store.Fails(ClassesForCourse) ==>
                r == Returned(OkayResponse(map[RESPONSE_BUCKET_CLASSES := Arr(Views(CourseClasses(store.db, context.courseId)))]))
    {
      if store.Fails(ClassesForCourse) {
        return Returned(Fail(InternalError, ERROR_FROM_STORE));
      }
      var classes := CourseClasses(store.db, context.courseId);
      return Returned(OkayResponse(map[RESPONSE_BUCKET_CLASSES := Arr(Views(classes))]));
    }
  }
}

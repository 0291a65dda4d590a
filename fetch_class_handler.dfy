/**
 * Fetching one class: any caller with a user id (anonymous included) gets
 * the fetch columns of the live class.
 */
module FetchClassHandler {
  import opened Common
  import opened Json
  import opened Responses
  import opened ProcessorContext
  import opened Store
  import opened Messages
  import opened HandlerSupport
  import C = AJEntityClass
  import A = Authorizers

  /**
   * The fetched object shows the class as stored, limited to the fetch
   * columns: the id, the owner, the code and the course it reports are the
   * row's own, and no other column leaks.
   */
  lemma FetchShowsTheRow(row: C.ClassRow)
    ensures var view := C.FetchView(row);
            && (forall k :: k in view ==> k in C.FETCH_QUERY_FIELD_LIST && view[k] == row[k])
            && (forall k :: k in row && k in C.FETCH_QUERY_FIELD_LIST ==> k in view)
            && C.Id(view) == C.Id(row) && C.CreatorId(view) == C.CreatorId(row)
            && C.Code(view) == C.Code(row) && C.CourseId(view) == C.CourseId(row)
            && C.MODIFIER_ID !in view && C.IS_DELETED !in view
  {
    var view := C.FetchView(row);
    assert C.ID in C.FETCH_QUERY_FIELD_LIST && C.CREATOR_ID in C.FETCH_QUERY_FIELD_LIST;
    assert C.CODE in C.FETCH_QUERY_FIELD_LIST && C.COURSE_ID in C.FETCH_QUERY_FIELD_LIST;
  }

  class FetchClassHandler {
    const context: Context
    /** The class validateRequest loaded. */
    var entityClass: Option<C.ClassRow>

    constructor (context: Context)
      ensures this.context == context && entityClass.None?
    {
      this.context := context;
      entityClass := None;
    }

    predicate HandlerReadOnly()
    {
      true
    }

    /** checkSanity: a class id and a non-empty user id; anonymous callers may fetch. */
    method CheckSanity() returns (r: Outcome)
      ensures r.Returned?
      ensures NullOrEmpty(context.classId) ==> r.result == Fail(InvalidRequest, MISSING_CLASS_ID)
      ensures !NullOrEmpty(context.classId) && |context.userId| == 0 ==> r.result == Fail(Forbidden, NOT_ALLOWED)
      ensures r.result.IsContinue() <==> !NullOrEmpty(context.classId) && |context.userId| != 0
    {
      if NullOrEmpty(context.classId) {
        return Returned(Fail(InvalidRequest, MISSING_CLASS_ID));
      }
      if |context.userId| == 0 {
        return Returned(Fail(Forbidden, NOT_ALLOWED));
      }
      return Returned(Continue());
    }

    /** validateRequest: the live class must exist; a store error is an internal error. */
    method ValidateRequest(store: Database) returns (r: Outcome)
      modifies this
      ensures store.Fails(FindClass) ==> r == Returned(Fail(InternalError, ERROR_FROM_STORE))
      ensures !store.Fails(FindClass) ==>
                entityClass == FindById(store.db, context.classId)
                && (entityClass.None? ==> r == Returned(Fail(NotFound, NOT_FOUND)))
                && (entityClass.Some? ==> r == Returned(Continue()))
    {
      if store.Fails(FindClass) {
        return Returned(Fail(InternalError, ERROR_FROM_STORE));
      }
      var classes := FindById(store.db, context.classId);
      if classes.None? {
        entityClass := None;
        return Returned(Fail(NotFound, NOT_FOUND));
      }
      entityClass := classes;
      r := A.Authorize(A.AuthorizerFor(A.FetchClass), context, classes.value, store.db, store.faults);
    }

    /** executeRequest: the loaded class's fetch view; nothing loaded is a null dereference. */
    method ExecuteRequest() returns (r: Outcome)
      ensures entityClass.None? ==> r.Threw?
      ensures entityClass.Some? ==> r == Returned(OkayResponse(C.FetchView(entityClass.value)))
    {
      if entityClass.None? {
        return Threw(NULL_REFERENCE);
      }
      return Returned(OkayResponse(C.FetchView(entityClass.value)));
    }
  }
}

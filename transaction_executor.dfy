/**
 * The three-phase request pipeline: checkSanity without the store, then
 * validateRequest and executeRequest inside one transaction, which is
 * committed only when executeRequest succeeds. The connection's life is
 * recorded as a log of actions; a rollback puts back the snapshot of the
 * store taken when the transaction began.
 */
module TransactionExecutor {
  import opened Common
  import opened Json
  import opened Responses
  import opened Store
  import AssociateCourseWithClassHandler
  import ContentVisibilityHandler
  import CreateClassHandler
  import DeleteClassHandler
  import FetchClassHandler
  import FetchClassMembersHandler
  import FetchClassesForCourseHandler
  import FetchClassesForUserHandler
  import InviteStudentToClassHandler
  import JoinClassByStudentHandler
  import RemoveStudentHandler
  import UpdateCollaboratorForClassHandler
  import VisibleContentHandler

  /** One handler of each kind; a fetch handler that reads an outside service carries that service's answers. */
  datatype Handler =
    | AssociateCourse(associate: AssociateCourseWithClassHandler.AssociateCourseWithClassHandler)
    | ContentVisibility(visibility: ContentVisibilityHandler.ContentVisibilityHandler)
    | CreateClass(create: CreateClassHandler.CreateClassHandler)
    | DeleteClass(delete: DeleteClassHandler.DeleteClassHandler)
    | FetchClass(fetch: FetchClassHandler.FetchClassHandler)
    | FetchClassMembers(members: FetchClassMembersHandler.FetchClassMembersHandler, summaries: string -> seq<Value>)
    | FetchClassesForCourse(forCourse: FetchClassesForCourseHandler.FetchClassesForCourseHandler)
    | FetchClassesForUser(forUser: FetchClassesForUserHandler.FetchClassesForUserHandler, teachers: string -> seq<Value>)
    | InviteStudents(invite: InviteStudentToClassHandler.InviteStudentToClassHandler)
    | JoinClass(join: JoinClassByStudentHandler.JoinClassByStudentHandler)
    | RemoveStudent(remove: RemoveStudentHandler.RemoveStudentHandler)
    | UpdateCollaborators(collaborators: UpdateCollaboratorForClassHandler.UpdateCollaboratorForClassHandler)
    | VisibleContent(visible: VisibleContentHandler.VisibleContentHandler)

  /** The handler object whose fields the phases may update. */
  function Object(h: Handler): object
  {
    match h
    case AssociateCourse(x) => x
    case ContentVisibility(x) => x
    case CreateClass(x) => x
    case DeleteClass(x) => x
    case FetchClass(x) => x
    case FetchClassMembers(x, _) => x
    case FetchClassesForCourse(x) => x
    case FetchClassesForUser(x, _) => x
    case InviteStudents(x) => x
    case JoinClass(x) => x
    case RemoveStudent(x) => x
    case UpdateCollaborators(x) => x
    case VisibleContent(x) => x
  }

  /** The handler's own consistency condition, for the kinds that keep a loaded class. */
  ghost predicate HandlerValid(h: Handler)
    reads Object(h)
  {
    match h
    case AssociateCourse(x) => x.Valid()
    case ContentVisibility(x) => x.Valid()
    case DeleteClass(x) => x.Valid()
    case FetchClassMembers(x, _) => x.Valid()
    case JoinClass(x) => x.Valid()
    case UpdateCollaborators(x) => x.Valid()
    case VisibleContent(x) => x.Valid()
    case _ => true
  }

  /** handlerReadOnly. */
  predicate ReadOnly(h: Handler)
  {
    match h
    case AssociateCourse(x) => x.HandlerReadOnly()
    case ContentVisibility(x) => x.HandlerReadOnly()
    case CreateClass(x) => x.HandlerReadOnly()
    case DeleteClass(x) => x.HandlerReadOnly()
    case FetchClass(x) => x.HandlerReadOnly()
    case FetchClassMembers(x, _) => x.HandlerReadOnly()
    case FetchClassesForCourse(x) => x.HandlerReadOnly()
    case FetchClassesForUser(x, _) => x.HandlerReadOnly()
    case InviteStudents(x) => x.HandlerReadOnly()
    case JoinClass(x) => x.HandlerReadOnly()
    case RemoveStudent(x) => x.HandlerReadOnly()
    case UpdateCollaborators(x) => x.HandlerReadOnly()
    case VisibleContent(x) => x.HandlerReadOnly()
  }

  /** The handlers that only read are the four fetch handlers and the visible-content handler. */
  lemma ReadOnlyHandlers(h: Handler)
    ensures ReadOnly(h) <==> h.FetchClass? || h.FetchClassMembers? || h.FetchClassesForCourse?
                             || h.FetchClassesForUser? || h.VisibleContent?
  {
  }

  // ---------------------------------------------------------------------------
  // The phases, dispatched on the handler kind

  method CheckSanity(h: Handler) returns (r: Outcome)
    requires HandlerValid(h)
    modifies Object(h)
    ensures HandlerValid(h)
  {
    match h
    case AssociateCourse(x) => r := x.CheckSanity();
    case ContentVisibility(x) => r := x.CheckSanity();
    case CreateClass(x) => r := x.CheckSanity();
    case DeleteClass(x) => r := x.CheckSanity();
    case FetchClass(x) => r := x.CheckSanity();
    case FetchClassMembers(x, _) => r := x.CheckSanity();
    case FetchClassesForCourse(x) => r := x.CheckSanity();
    case FetchClassesForUser(x, _) => r := x.CheckSanity();
    case InviteStudents(x) => r := x.CheckSanity();
    case JoinClass(x) => r := x.CheckSanity();
    case RemoveStudent(x) => r := x.CheckSanity();
    case UpdateCollaborators(x) => r := x.CheckSanity();
    case VisibleContent(x) => r := x.CheckSanity();
  }

  method ValidateRequest(h: Handler, store: Database) returns (r: Outcome)
    requires HandlerValid(h)
    modifies Object(h)
    ensures HandlerValid(h)
  {
    match h
    case AssociateCourse(x) => r := x.ValidateRequest(store);
    case ContentVisibility(x) => r := x.ValidateRequest(store);
    case CreateClass(x) => r := x.ValidateRequest(store);
    case DeleteClass(x) => r := x.ValidateRequest(store);
    case FetchClass(x) => r := x.ValidateRequest(store);
    case FetchClassMembers(x, _) => r := x.ValidateRequest(store);
    case FetchClassesForCourse(x) => r := x.ValidateRequest(store);
    case FetchClassesForUser(x, _) => r := x.ValidateRequest(store);
    case InviteStudents(x) => r := x.ValidateRequest(store);
    case JoinClass(x) => r := x.ValidateRequest(store);
    case RemoveStudent(x) => r := x.ValidateRequest(store);
    case UpdateCollaborators(x) => r := x.ValidateRequest(store);
    case VisibleContent(x) => r := x.ValidateRequest(store);
  }

  /** executeRequest; a read-only handler leaves the store as it was. */
  method ExecuteRequest(h: Handler, store: Database) returns (r: Outcome)
    requires HandlerValid(h)
    modifies Object(h), store
    ensures ReadOnly(h) ==> store.db == old(store.db)
  {
    match h
    case AssociateCourse(x) => r := x.ExecuteRequest(store);
    case ContentVisibility(x) => r := x.ExecuteRequest(store);
    case CreateClass(x) => r := x.ExecuteRequest(store);
    case DeleteClass(x) => r := x.ExecuteRequest(store);
    case FetchClass(x) => r := x.ExecuteRequest();
    case FetchClassMembers(x, summaries) => r := x.ExecuteRequest(store, summaries);
    case FetchClassesForCourse(x) => r := x.ExecuteRequest(store);
    case FetchClassesForUser(x, teachers) => r := x.ExecuteRequest(store, teachers);
    case InviteStudents(x) => r := x.ExecuteRequest(store);
    case JoinClass(x) => r := x.ExecuteRequest(store);
    case RemoveStudent(x) => r := x.ExecuteRequest(store);
    case UpdateCollaborators(x) => r := x.ExecuteRequest(store);
    case VisibleContent(x) => r := x.ExecuteRequest(store);
  }

  // ---------------------------------------------------------------------------
  // The connection

  /** What the executor does to its connection. */
  datatype ConnectionAction = Open | SetReadOnly(readOnly: bool) | BeginTransaction | Commit | Rollback | Close

  /**
   * The connection's life for one request: opened, made read-only for a
   * read-only handler, a transaction begun and then committed or rolled
   * back, read-write restored, and closed.
   */
  function ConnectionLog(readOnly: bool, committed: bool): (log: seq<ConnectionAction>)
  {
    [Open] + (if readOnly then [SetReadOnly(true)] else []) + [BeginTransaction]
    + [if committed then Commit else Rollback]
    + (if readOnly then [SetReadOnly(false)] else []) + [Close]
  }

  /**
   * Every request's connection is opened first and closed last; the
   * transaction ends exactly once, by a commit or a rollback, after it
   * began; and a connection made read-only is made read-write again before
   * it is closed.
   */
  lemma ConnectionLogShape(readOnly: bool, committed: bool)
    ensures var log := ConnectionLog(readOnly, committed);
            && log[0] == Open && log[|log| - 1] == Close
            && (Commit in log <==> committed) && (Rollback in log <==> !committed)
            && (forall i :: 0 < i < |log| - 1 ==> log[i] != Open && log[i] != Close)
            && (SetReadOnly(true) in log <==> readOnly) && (SetReadOnly(false) in log <==> readOnly)
            && (forall i, j :: 0 <= i < |log| && 0 <= j < |log| && log[i] == BeginTransaction && (log[j] == Commit || log[j] == Rollback) ==> i < j)
            && (forall i, j :: 0 <= i < |log| && 0 <= j < |log| && log[i] == SetReadOnly(true) && log[j] == SetReadOnly(false) ==> i < j)
  {
    var log := ConnectionLog(readOnly, committed);
    if readOnly {
      assert log == [Open, SetReadOnly(true), BeginTransaction, if committed then Commit else Rollback, SetReadOnly(false), Close];
    } else {
      assert log == [Open, BeginTransaction, if committed then Commit else Rollback, Close];
    }
  }

  /**
   * executeWithTransaction: validateRequest, then executeRequest when it
   * continued, inside one transaction. The answer is the last phase's
   * result, or an internal error carrying the message of an exception; the
   * transaction is committed only after a successful executeRequest and
   * otherwise rolled back to the snapshot.
   */
  method ExecuteWithTransaction(h: Handler, store: Database)
    returns (r: ExecutionResult, log: seq<ConnectionAction>, ghost validated: Outcome, ghost executed: Option<Outcome>)
    requires HandlerValid(h)
    modifies Object(h), store
    ensures validated.Threw? ==> executed.None? && r == Fail(InternalError, validated.message)
    ensures validated.Returned? && !validated.result.IsContinue() ==> executed.None? && r == validated.result
    ensures validated.Returned? && validated.result.IsContinue() ==>
              && executed.Some?
              && (executed.value.Threw? ==> r == Fail(InternalError, executed.value.message))
              && (executed.value.Returned? ==> r == executed.value.result)
    ensures var committed := executed.Some? && executed.value.Returned? && executed.value.result.IsSuccessful();
            && log == ConnectionLog(ReadOnly(h), committed)
            && (committed <==> r.IsSuccessful() && executed.Some?)
            && (!committed ==> store.db == old(store.db))
    ensures ReadOnly(h) ==> store.db == old(store.db)
  {
    var snapshot := store.db;
    var readOnly := ReadOnly(h);
    log := [Open];
    if readOnly {
      log := log + [SetReadOnly(true)];
    }
    log := log + [BeginTransaction];
    executed := None;
    var outcome := ValidateRequest(h, store);
    validated := outcome;
    var committed := false;
    if outcome.Threw? {
      r := Fail(InternalError, outcome.message);
    } else if outcome.result.IsContinue() {
      outcome := ExecuteRequest(h, store);
      executed := Some(outcome);
      if outcome.Threw? {
        r := Fail(InternalError, outcome.message);
      } else {
        r := outcome.result;
        committed := r.IsSuccessful();
      }
    } else {
      r := outcome.result;
    }
    if committed {
      log := log + [Commit];
    } else {
      store.db := snapshot;
      log := log + [Rollback];
    }
    if readOnly {
      log := log + [SetReadOnly(false)];
    }
    log := log + [Close];
  }

  /**
   * executeTransaction: checkSanity outside any transaction; only when it
   * continues is a connection opened. The response is that of the last
   * phase that ran. An exception in checkSanity escapes.
   */
  method ExecuteTransaction(h: Handler, store: Database)
    returns (r: Throws<Option<MessageResponse>>, log: seq<ConnectionAction>,
             ghost sanity: Outcome, ghost validated: Option<Outcome>, ghost executed: Option<Outcome>)
    requires HandlerValid(h)
    modifies Object(h), store
    ensures sanity.Threw? ==> r == Thrown(sanity.message) && log == [] && store.db == old(store.db)
    ensures sanity.Returned? && !sanity.result.IsContinue() ==>
              r == Normal(sanity.result.response) && log == [] && store.db == old(store.db)
    ensures validated.Some? <==> sanity.Returned? && sanity.result.IsContinue()
    ensures executed.Some? ==> validated.Some?
    ensures validated.Some? && validated.value.Threw? ==>
              executed.None? && r == Normal(Fail(InternalError, validated.value.message).response)
    ensures validated.Some? && validated.value.Returned? && !validated.value.result.IsContinue() ==>
              executed.None? && r == Normal(validated.value.result.response)
    ensures validated.Some? && validated.value.Returned? && validated.value.result.IsContinue() ==>
              && executed.Some?
              && (executed.value.Threw? ==> r == Normal(Fail(InternalError, executed.value.message).response))
              && (executed.value.Returned? ==> r == Normal(executed.value.result.response))
    ensures validated.Some? ==>
              var committed := executed.Some? && executed.value.Returned? && executed.value.result.IsSuccessful();
              && log == ConnectionLog(ReadOnly(h), committed)
              && (!committed ==> store.db == old(store.db))
    ensures ReadOnly(h) ==> store.db == old(store.db)
  {
    var checked := CheckSanity(h);
    sanity := checked;
    validated, executed := None, None;
    if checked.Threw? {
      return Thrown(checked.message), [], sanity, validated, executed;
    }
    if !checked.result.IsContinue() {
      return Normal(checked.result.response), [], sanity, validated, executed;
    }
    ghost var v, e;
    var result, actions;
    result, actions, v, e := ExecuteWithTransaction(h, store);
    return Normal(result.response), actions, sanity, Some(v), e;
  }
}

/**
 * Removing a student from a class: the owner or a collaborator deletes the
 * student's joined membership row; invitations and other classes are left
 * alone.
 */
module RemoveStudentHandler {
  import opened Common
  import opened Json
  import opened Responses
  import opened ProcessorContext
  import opened Store
  import opened Messages
  import opened HandlerSupport
  import C = AJEntityClass
  import M = AJClassMember
  import A = Authorizers

  /** The member table after REMOVE_STUDENT_QUERY_FILTER; a null id matches no row. */
  function Removed(members: seq<M.MemberRow>, classId: Option<string>, studentId: Option<string>): seq<M.MemberRow>
  {
    if classId.None? || studentId.None? then members else RemoveJoined(members, classId.value, studentId.value)
  }

  /**
   * After the removal the student has no joined row of the class, so the
   * class is not among the student's joined classes; every invitation and
   * every row of another class or another user is kept.
   */
  lemma RemovalIsExact(db: Db, classId: string, studentId: string)
    ensures var after := db.(members := Removed(db.members, Some(classId), Some(studentId)));
            && classId !in JoinedClassIds(after, studentId)
            && (forall m :: m in after.members ==> !M.RemoveStudentFilter(m, classId, studentId))
            && (forall m :: m in db.members && m.status == M.STATUS_INVITED ==> m in after.members)
            && (forall m :: m in db.members && (m.classId != classId || m.userId != Some(studentId)) ==> m in after.members)
  {
  }

  class RemoveStudentHandler {
    const context: Context
    /** The event the student-removal builder makes for this context; the builder is not part of this model. */
    const removalEvent: Event

    constructor (context: Context, removalEvent: Event)
      ensures this.context == context && this.removalEvent == removalEvent
    {
      this.context := context;
      this.removalEvent := removalEvent;
    }

    predicate HandlerReadOnly()
    {
      false
    }

    /** checkSanity: a class id and a signed-in caller. */
    method CheckSanity() returns (r: Outcome)
      ensures r.Returned?
      ensures NullOrEmpty(context.classId) ==> r.result == Fail(InvalidRequest, MISSING_CLASS_ID)
      ensures !NullOrEmpty(context.classId) && Anonymous(context.userId) ==> r.result == Fail(Forbidden, NOT_ALLOWED)
      ensures r.result.IsContinue() <==> !NullOrEmpty(context.classId) && !Anonymous(context.userId)
    {
      if NullOrEmpty(context.classId) {
        return Returned(Fail(InvalidRequest, MISSING_CLASS_ID));
      }
      if Anonymous(context.userId) {
        return Returned(Fail(Forbidden, NOT_ALLOWED));
      }
      return Returned(Continue());
    }

    /**
     * validateRequest: the live class must exist, be of the current version
     * and not archived, and the caller must own it or collaborate on it.
     */
    method ValidateRequest(store: Database) returns (r: Outcome)
      ensures store.Fails(FindClass) ==> r.Threw?
      ensures !store.Fails(FindClass) ==>
                match FindById(store.db, context.classId)
                case None => r == Returned(Fail(NotFound, NOT_FOUND))
                case Some(row) => r == AndThen(VersionCheck(row), A.Authorize(A.ClassOwnerOrCollaborator, context, row, store.db, store.faults))
      ensures r == Returned(Continue()) <==>
                !store.Fails(FindClass) && FindById(store.db, context.classId).Some?
                && var row := FindById(store.db, context.classId).value;
                   !C.IsArchived(row) && C.IsCurrentVersion(row) == Normal(true)
                   && (A.IsOwner(row, context.userId) || A.IsCollaborator(row, context.userId))
    {
      if store.Fails(FindClass) {
        return Threw(DB_ERROR);
      }
      var classes := FindById(store.db, context.classId);
      if classes.None? {
        return Returned(Fail(NotFound, NOT_FOUND));
      }
      var row := classes.value;
      var usable := VersionCheck(row);
      if usable != Returned(Continue()) {
        return usable;
      }
      r := A.Authorize(A.AuthorizerFor(A.RemoveStudent), context, row, store.db, store.faults);
      A.PassesMeaning(A.ClassOwnerOrCollaborator, context, row, store.db, store.faults);
    }

    /**
     * executeRequest: delete the student's joined row of the class; a store
     * error is an internal error, otherwise "student removed" with the
     * removal event.
     */
    method ExecuteRequest(store: Database) returns (r: Outcome)
      modifies store
      ensures store.Fails(StoreOp.RemoveStudent) ==>
                r == Returned(Fail(InternalError, ERROR_FROM_STORE)) && store.db == old(store.db)
      ensures !store.Fails(StoreOp.RemoveStudent) ==>
                r == Returned(NoContentResponse(STUDENT_REMOVED, Some(removalEvent)))
                && store.db == old(store.db).(members := Removed(old(store.db.members), context.classId, context.studentId))
    {
      var deleted := store.WriteMembers(StoreOp.RemoveStudent, Normal(Removed(store.db.members, context.classId, context.studentId)));
      if deleted.Thrown? {
        return Returned(Fail(InternalError, ERROR_FROM_STORE));
      }
      return Returned(NoContentResponse(STUDENT_REMOVED, Some(removalEvent)));
    }
  }
}

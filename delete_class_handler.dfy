/**
 * Deleting a class: the owner soft-deletes a live class of the current
 * version that is not archived, and every membership row of the class is
 * removed with it.
 */
module DeleteClassHandler {
  import opened Common
  import opened Json
  import opened Responses
  import opened ProcessorContext
  import opened Store
  import opened Messages
  import opened HandlerSupport
  import C = AJEntityClass
  import M = AJClassMember
  import E = EventBuilderFactory
  import A = Authorizers

  /** The columns the delete changes: the deletion flag and the modifier. */
  function SoftDeleteChanges(userId: string, p: Parsers): C.ClassRow
  {
    map[C.IS_DELETED := Bool(true), C.MODIFIER_ID := C.UuidColumn(Some(userId), p)]
  }

  /**
   * After the soft delete and the purge, the class is found by no lookup
   * of live classes and has no membership rows left; every other class and
   * every other class's members are untouched.
   */
  lemma DeletedClassIsGone(db: Db, classId: string, userId: string, p: Parsers)
    ensures var after := db.(classes := UpdateClass(db.classes, classId, SoftDeleteChanges(userId, p)),
                             members := PurgedMembers(db.members, classId));
            && FindLiveClass(after, classId).None?
            && (forall m :: m in after.members ==> !M.ForClass(m, classId))
            && (forall k :: 0 <= k < |db.classes| && C.Id(db.classes[k]) != Some(classId) ==> after.classes[k] == db.classes[k])
            && (forall m :: m in db.members && m.classId != classId ==> m in after.members)
  {
    var after := db.(classes := UpdateClass(db.classes, classId, SoftDeleteChanges(userId, p)),
                     members := PurgedMembers(db.members, classId));
    forall k | 0 <= k < |after.classes|
      ensures !LiveWithId(after.classes[k], classId)
    {
      if C.Id(db.classes[k]) == Some(classId) {
        assert after.classes[k] == db.classes[k] + SoftDeleteChanges(userId, p);
        assert after.classes[k][C.IS_DELETED] == Bool(true);
      }
    }
  }

  class DeleteClassHandler {
    const context: Context
    const parsers: Parsers
    /** The class validateRequest loaded. */
    var entityClass: Option<C.ClassRow>

    constructor (context: Context, parsers: Parsers)
      ensures this.context == context && this.parsers == parsers && entityClass.None?
      ensures Valid()
    {
      this.context := context;
      this.parsers := parsers;
      entityClass := None;
    }

    /** A loaded class is the live class the context names. */
    ghost predicate Valid()
      reads this
    {
      entityClass.Some? ==> context.classId.Some? && LiveWithId(entityClass.value, context.classId.value)
    }

    predicate HandlerReadOnly()
    {
      false
    }

    /** checkSanity: a class id (its absence is "not found") and a signed-in caller. */
    method CheckSanity() returns (r: Outcome)
      ensures r.Returned?
      ensures NullOrEmpty(context.classId) ==> r.result == Fail(NotFound, MISSING_CLASS_ID)
      ensures !NullOrEmpty(context.classId) && Anonymous(context.userId) ==> r.result == Fail(Forbidden, NOT_ALLOWED)
      ensures r.result.IsContinue() <==> !NullOrEmpty(context.classId) && !Anonymous(context.userId)
    {
      if NullOrEmpty(context.classId) {
        return Returned(Fail(NotFound, MISSING_CLASS_ID));
      }
      if Anonymous(context.userId) {
        return Returned(Fail(Forbidden, NOT_ALLOWED));
      }
      return Returned(Continue());
    }

    /**
     * validateRequest: the live class must exist, be of the current version
     * and not archived, and belong to the caller. The lookup's store error
     * escapes.
     */
    method ValidateRequest(store: Database) returns (r: Outcome)
      requires Valid()
      modifies this
      ensures Valid()
      ensures store.Fails(FindClass) ==> r.Threw?
      ensures !store.Fails(FindClass) ==>
                match FindById(store.db, context.classId)
                case None => r == Returned(Fail(NotFound, WithText(CLASS_ID, context.classId)))
                case Some(row) => entityClass == Some(row)
                                  && r == AndThen(VersionCheck(row), A.Authorize(A.ClassOwner, context, row, store.db, store.faults))
      ensures r == Returned(Continue()) <==>
                !store.Fails(FindClass) && FindById(store.db, context.classId).Some?
                && var row := FindById(store.db, context.classId).value;
                   !C.IsArchived(row) && C.IsCurrentVersion(row) == Normal(true) && A.IsOwner(row, context.userId)
    {
      if store.Fails(FindClass) {
        return Threw(DB_ERROR);
      }
      var entityClasses := FindById(store.db, context.classId);
      if entityClasses.None? {
        return Returned(Fail(NotFound, WithText(CLASS_ID, context.classId)));
      }
      entityClass := entityClasses;
      var row := entityClasses.value;
      var usable := VersionCheck(row);
      if usable != Returned(Continue()) {
        return usable;
      }
      // A class that still has a course is deleted all the same; the course is only logged.
      r := A.Authorize(A.AuthorizerFor(A.DeleteClass), context, row, store.db, store.faults);
      A.PassesMeaning(A.ClassOwner, context, row, store.db, store.faults);
    }

    /**
     * executeRequest: the class is marked deleted by the caller, then its
     * memberships are purged. A failed purge is an internal error (the
     * transaction then rolls back the soft delete); a failed save escapes.
     */
    method ExecuteRequest(store: Database) returns (r: Outcome)
      requires Valid()
      modifies store
      ensures entityClass.None? || store.Fails(StoreOp.SaveClass) ==> r.Threw? && store.db == old(store.db)
      ensures entityClass.Some? && !store.Fails(StoreOp.SaveClass) ==>
                var classId := context.classId.value;
                var classes := UpdateClass(old(store.db.classes), classId, SoftDeleteChanges(context.userId, parsers));
                && (store.Fails(StoreOp.PurgeMembers) ==>
                      r == Returned(Fail(InternalError, MEMBERSHIP_DELETE_FAILURE)) && store.db == old(store.db).(classes := classes))
                && (!store.Fails(StoreOp.PurgeMembers) ==>
                      r == Returned(NoContentResponse(DELETED, Some(E.DeleteClassEvent(classId))))
                      && store.db == old(store.db).(classes := classes, members := PurgedMembers(old(store.db.members), classId)))
    {
      if entityClass.None? {
        return Threw(NULL_REFERENCE);
      }
      var m := new C.ClassModel.Load(entityClass.value);
      m.Set(C.IS_DELETED, Bool(true));
      m.SetModifierId(Some(context.userId), parsers);
      assert m.Changes() == SoftDeleteChanges(context.userId, parsers);
      var saved := store.SaveClass(m, "");
      if saved.Thrown? {
        return Threw(saved.message);
      }
      // A save that wrote no row leaves no errors on the class model, so the purge follows.
      var classId := context.classId.value;
      var purged := store.WriteMembers(StoreOp.PurgeMembers, Normal(PurgedMembers(store.db.members, classId)));
      if purged.Thrown? {
        return Returned(Fail(InternalError, MEMBERSHIP_DELETE_FAILURE));
      }
      return Returned(NoContentResponse(DELETED, Some(E.DeleteClassEvent(classId))));
    }
  }
}

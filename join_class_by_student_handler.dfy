/**
 * A student joining a class by its code: the class must be open, or the
 * student's e-mail must already have a membership row. A new row is
 * created as joined; an invited row is marked joined, its user id left
 * unset; a joined row is left alone.
 */
module JoinClassByStudentHandler {
  import opened Common
  import opened Json
  import opened Responses
  import opened ProcessorContext
  import opened Store
  import opened Messages
  import opened HandlerSupport
  import C = AJEntityClass
  import M = AJClassMember
  import E = EventBuilderFactory
  import A = Authorizers
  import PV = PayloadValidator
  import PCH = ProcessorContextHelper

  // ---------------------------------------------------------------------------
  // The membership a join writes

  /**
   * The error map of a new membership after setClassId, setUserId and
   * setStatusJoined: every conversion error is recorded under the class id
   * key, so a later error replaces an earlier one.
   */
  function NewMemberErrors(classId: Option<string>, userId: string, p: Parsers): (errors: map<string, string>)
    ensures |errors| == 0 <==>
              (NullOrEmpty(classId) || p.pgConverts(classId.value)) && (|userId| == 0 || p.pgConverts(userId))
              && p.pgConverts(M.STATUS_JOINED)
    ensures errors.Keys <= {M.CLASS_ID}
  {
    var afterClass := if !NullOrEmpty(classId) && !p.pgConverts(classId.value) then map[M.CLASS_ID := M.INVALID_CLASS] else map[];
    var afterUser := if |userId| != 0 && !p.pgConverts(userId) then afterClass[M.CLASS_ID := M.INVALID_USER] else afterClass;
    if !p.pgConverts(M.STATUS_JOINED) then afterUser[M.CLASS_ID := M.INVALID_STATUS] else afterUser
  }

  /** The user id column a setter leaves: an empty id is ignored. */
  function UserColumn(userId: string, previous: Option<string>): Option<string>
  {
    if |userId| == 0 then previous else Some(userId)
  }

  /**
   * The row a new membership saves: the class, the e-mail, the user, the
   * roster and creator system from the payload, and the joined status. A
   * missing class id or e-mail leaves the row without a key.
   */
  function NewMemberRow(classId: Option<string>, email: Option<string>, userId: string,
                        rosterId: Option<string>, creatorSystem: Option<string>): (row: Option<M.MemberRow>)
    ensures row.Some? <==> !NullOrEmpty(classId) && email.Some?
    ensures row.Some? ==> row.value.classId == classId.value && row.value.email == email.value
                          && row.value.status == M.STATUS_JOINED && row.value.userId == UserColumn(userId, None)
  {
    if NullOrEmpty(classId) || email.None? then None
    else Some(M.MemberRow(classId.value, email.value, UserColumn(userId, None), M.STATUS_JOINED, creatorSystem, rosterId))
  }

  /** The model's error map as the JSON object of a validation-error response. */
  function ErrorsObject(errors: map<string, string>): (o: JsonObject)
    ensures o.Keys == errors.Keys && forall k :: k in o ==> o[k] == Str(errors[k])
  {
    map k | k in errors :: Str(errors[k])
  }

  /** An invited row promoted as written: only the status changes, and the user id stays as it was. */
  function PromotedAsWritten(row: M.MemberRow): (r: M.MemberRow)
    ensures M.Key(r) == M.Key(row) && r.status == M.STATUS_JOINED && r.userId == row.userId
  {
    row.(status := M.STATUS_JOINED)
  }

  /** An invited row promoted as intended: joined, and linked to the joining user. */
  function Promoted(row: M.MemberRow, userId: string): (r: M.MemberRow)
    ensures M.Key(r) == M.Key(row) && r.status == M.STATUS_JOINED && r.userId == UserColumn(userId, row.userId)
  {
    row.(status := M.STATUS_JOINED, userId := UserColumn(userId, row.userId))
  }

  /**
   * As written, a student who accepts an invitation is joined in name only:
   * the invite row has no user id, the promotion does not set one, and so
   * the class is missing from the student's joined classes and the row is
   * out of reach of the remove-student filter.
   */
  lemma PromotionAsWrittenLosesStudent(classRow: C.ClassRow, classId: string, email: string, userId: string)
    requires LiveWithId(classRow, classId)
    ensures var invited := M.MemberRow(classId, email, None, M.STATUS_INVITED, None, None);
            var db := Db([classRow], [PromotedAsWritten(invited)], [], [], [], []);
            && classId !in JoinedClassIds(db, userId)
            && !M.RemoveStudentFilter(PromotedAsWritten(invited), classId, userId)
  {
  }

  /**
   * As intended, once a student has joined (by promotion or by a new row)
   * the class is among the student's joined classes, the row is the one the
   * remove-student filter selects, and the row is the one a second join
   * finds by e-mail.
   */
  lemma JoinedStudentIsVisible(db: Db, row: M.MemberRow, userId: string)
    requires M.KeysUnique(db.members) && row in db.members
    requires row.status == M.STATUS_JOINED && row.userId == Some(userId) && ClassIsLive(db, row.classId)
    ensures row.classId in JoinedClassIds(db, userId)
    ensures M.RemoveStudentFilter(row, row.classId, userId)
    ensures MemberByEmail(db, row.classId, row.email) == Some(row)
  {
    var found := MemberByEmail(db, row.classId, row.email);
    var i :| 0 <= i < |db.members| && db.members[i] == row;
    var j :| 0 <= j < |db.members| && db.members[j] == found.value;
    assert M.Key(db.members[i]) == M.Key(db.members[j]);
  }

  /**
   * The promotion replaces the invited row in place: the keys stay unique,
   * the promoted row is in the table, and no other row changes.
   */
  lemma PromotionReplacesRow(members: seq<M.MemberRow>, row: M.MemberRow, userId: string)
    requires M.KeysUnique(members) && row in members
    ensures var after := ReplaceMember(members, Promoted(row, userId));
            && M.KeysUnique(after)
            && Promoted(row, userId) in after
            && forall k :: 0 <= k < |members| && M.Key(members[k]) != M.Key(row) ==> after[k] == members[k]
  {
    var after := ReplaceMember(members, Promoted(row, userId));
    var i :| 0 <= i < |members| && members[i] == row;
    assert after[i] == Promoted(row, userId);
  }

  /**
   * As intended, a student who accepts an invitation is joined for every
   * later lookup: the class is among the student's joined classes and the
   * remove-student filter selects the promoted row.
   */
  lemma PromotedStudentIsVisible(db: Db, row: M.MemberRow, userId: string)
    requires M.KeysUnique(db.members) && row in db.members
    requires |userId| != 0 && ClassIsLive(db, row.classId)
    ensures var after := db.(members := ReplaceMember(db.members, Promoted(row, userId)));
            && row.classId in JoinedClassIds(after, userId)
            && M.RemoveStudentFilter(Promoted(row, userId), row.classId, userId)
            && MemberByEmail(after, row.classId, row.email) == Some(Promoted(row, userId))
  {
    var after := db.(members := ReplaceMember(db.members, Promoted(row, userId)));
    PromotionReplacesRow(db.members, row, userId);
    assert ClassIsLive(after, row.classId);
    JoinedStudentIsVisible(after, Promoted(row, userId), userId);
  }

  /** A second join of a student whose row is joined writes nothing: the row is not invited. */
  lemma SecondJoinIsNoOp(row: M.MemberRow)
    requires row.status == M.STATUS_JOINED
    ensures !EqualsIgnoreCase(M.STATUS_INVITED, row.status)
  {
    assert LowerAscii(M.STATUS_INVITED[0]) != LowerAscii(M.STATUS_JOINED[0]);
  }

  class JoinClassByStudentHandler {
    const context: Context
    const parsers: Parsers
    /** The class validateRequest found by its code. */
    var entityClass: Option<C.ClassRow>
    /** Its id, as text. */
    var classId: Option<string>
    /** The caller's membership row of the class, found by e-mail. */
    var membership: Option<M.MemberRow>

    constructor (context: Context, parsers: Parsers)
      ensures this.context == context && this.parsers == parsers
      ensures entityClass.None? && classId.None? && membership.None?
      ensures Valid()
    {
      this.context := context;
      this.parsers := parsers;
      entityClass, classId, membership := None, None, None;
    }

    /** A membership found is a row of the class found. */
    ghost predicate Valid()
      reads this
    {
      membership.Some? ==> classId.Some? && membership.value.classId == classId.value
    }

    /** The caller's e-mail address from the preferences, null when absent or not text. */
    function Email(): Option<string>
    {
      OrNull(GetString(context.prefs, PCH.EMAIL))
    }

    predicate HandlerReadOnly()
    {
      false
    }

    /**
     * checkSanity: a class code, a signed-in caller with an e-mail address
     * (one holding '@'), a payload, and a payload whose fields are valid.
     */
    method CheckSanity() returns (r: Outcome)
      ensures NullOrEmpty(context.classCode) ==> r == Returned(Fail(InvalidRequest, MISSING_CLASS_CODE))
      ensures !NullOrEmpty(context.classCode) && Anonymous(context.userId) ==> r == Returned(Fail(Forbidden, NOT_ALLOWED))
      ensures !NullOrEmpty(context.classCode) && !Anonymous(context.userId) ==>
                match PCH.ValidatePrefsForEmail(context)
                case Thrown(_) => r.Threw?
                case Normal(false) => r == Returned(Fail(Forbidden, EMAIL_NOT_AVAILABLE))
                case Normal(true) =>
                  && (context.request.None? ==> r == Returned(Fail(InvalidRequest, EMPTY_PAYLOAD)))
                  && (context.request.Some? ==>
                        (r.Threw? <==> PV.Raises(context.request.value, C.JoinClassFieldSelector(), C.Validators(parsers)))
                        && (r.Returned? ==> r.result == Verdict(PV.AsWritten(context.request.value, C.JoinClassFieldSelector(), C.Validators(parsers)))))
      ensures r.Returned? && r.result.IsContinue() ==> Email().Some? && '@' in Email().value && context.request.Some?
    {
      if NullOrEmpty(context.classCode) {
        return Returned(Fail(InvalidRequest, MISSING_CLASS_CODE));
      }
      if Anonymous(context.userId) {
        return Returned(Fail(Forbidden, NOT_ALLOWED));
      }
      var email := GetString(context.prefs, PCH.EMAIL);
      if email.CastFailure? {
        return Threw(CLASS_CAST);
      }
      if email.Absent? || |email.value| == 0 || '@' !in email.value {
        return Returned(Fail(Forbidden, EMAIL_NOT_AVAILABLE));
      }
      if context.request.None? {
        return Returned(Fail(InvalidRequest, EMPTY_PAYLOAD));
      }
      r := CheckPayload(context.request.value, C.JoinClassFieldSelector(), C.Validators(parsers));
    }

    /**
     * validateRequest: the live class with the code must exist and be of
     * the current version and not archived; the caller's membership row is
     * looked up by e-mail, and the class must be open or the row present.
     */
    method ValidateRequest(store: Database) returns (r: Outcome)
      requires Valid()
      modifies this
      ensures Valid()
      ensures store.Fails(FindClassByCode) ==> r.Threw?
      ensures !store.Fails(FindClassByCode) ==>
                var found := if context.classCode.None? then None else FindLiveClassByCode(store.db, context.classCode.value);
                && (found.None? ==> r == Returned(Fail(NotFound, NOT_FOUND)))
                && (found.Some? ==>
                      && entityClass == found && classId == C.Id(found.value)
                      && (classId.None? ==> r.Threw?)
                      && (classId.Some? ==>
                            var row := found.value;
                            && (VersionCheck(row) != Returned(Continue()) ==> r == VersionCheck(row))
                            && (VersionCheck(row) == Returned(Continue()) && store.Fails(FindMembers) ==> r.Threw?)
                            && (VersionCheck(row) == Returned(Continue()) && !store.Fails(FindMembers) ==>
                                  && membership == (if Email().None? then None else MemberByEmail(store.db, classId.value, Email().value))
                                  && r == A.Authorize(A.OpenClassOrInvitedStudent(membership.Some?), context, row, store.db, store.faults))))
      ensures r == Returned(Continue()) ==>
                entityClass.Some? && classId.Some? && !C.IsArchived(entityClass.value)
                && C.IsCurrentVersion(entityClass.value) == Normal(true)
                && (A.IsOpen(entityClass.value) || membership.Some?)
    {
      if store.Fails(FindClassByCode) {
        return Threw(DB_ERROR);
      }
      var classes := if context.classCode.None? then None else FindLiveClassByCode(store.db, context.classCode.value);
      if classes.None? {
        return Returned(Fail(NotFound, NOT_FOUND));
      }
      entityClass := classes;
      var row := classes.value;
      membership := None;
      classId := C.Id(row);
      if classId.None? {
        return Threw(NULL_REFERENCE);
      }
      var usable := VersionCheck(row);
      if usable != Returned(Continue()) {
        return usable;
      }
      if store.Fails(FindMembers) {
        return Threw(DB_ERROR);
      }
      membership := if Email().None? then None else MemberByEmail(store.db, classId.value, Email().value);
      r := A.Authorize(A.AuthorizerFor(A.JoinClassByStudent(membership.Some?)), context, row, store.db, store.faults);
      A.PassesMeaning(A.OpenClassOrInvitedStudent(membership.Some?), context, row, store.db, store.faults);
    }

    /** The model a caller without a membership row gets: the class, e-mail, user, roster and "joined". */
    method BuildNewMember() returns (m: M.MemberModel, early: Option<Outcome>)
      requires Valid() && membership.None?
      ensures fresh(m) && m.isNew
      ensures (context.request.None? || GetString(context.request.value, M.ROSTER_ID).CastFailure?
               || GetString(context.request.value, M.CREATOR_SYSTEM).CastFailure?) ==> early.Some? && early.value.Threw?
      ensures context.request.Some? && !GetString(context.request.value, M.ROSTER_ID).CastFailure?
              && !GetString(context.request.value, M.CREATOR_SYSTEM).CastFailure? ==>
                var errors := NewMemberErrors(classId, context.userId, parsers);
                && (|errors| != 0 ==> early == Some(Returned(FailValidation(ErrorsObject(errors)))))
                && (|errors| == 0 ==>
                      early.None? && m.Row() == NewMemberRow(classId, Email(), context.userId, OrNull(GetString(context.request.value, M.ROSTER_ID)),
                                                             OrNull(GetString(context.request.value, M.CREATOR_SYSTEM))))
    {
      m := new M.MemberModel.Empty();
      m.SetClassId(classId, parsers);
      if Email().Some? {
        m.SetEmail(Email().value);
      }
      m.SetUserId(Some(context.userId), parsers);
      if context.request.None? {
        return m, Some(Threw(NULL_REFERENCE));
      }
      var rosterId := GetString(context.request.value, M.ROSTER_ID);
      if rosterId.CastFailure? {
        return m, Some(Threw(CLASS_CAST));
      }
      m.SetRosterId(OrNull(rosterId));
      var creatorSystem := GetString(context.request.value, M.CREATOR_SYSTEM);
      if creatorSystem.CastFailure? {
        return m, Some(Threw(CLASS_CAST));
      }
      m.SetCreatorSystem(OrNull(creatorSystem));
      m.SetStatusJoined(parsers);
      assert m.errors == NewMemberErrors(classId, context.userId, parsers);
      if m.HasErrors() {
        return m, Some(Returned(FailValidation(ErrorsObject(m.errors))));
      }
      early := None;
      assert m.Row() == NewMemberRow(classId, Email(), context.userId, OrNull(rosterId), OrNull(creatorSystem));
    }

    /** A caller without a membership row: a new "joined" row is built and inserted. */
    method JoinAsNewMember(store: Database) returns (r: Outcome)
      requires Valid() && membership.None?
      modifies store
      ensures (context.request.None? || GetString(context.request.value, M.ROSTER_ID).CastFailure?
               || GetString(context.request.value, M.CREATOR_SYSTEM).CastFailure?) ==> r.Threw? && store.db == old(store.db)
      ensures context.request.Some? && !GetString(context.request.value, M.ROSTER_ID).CastFailure?
              && !GetString(context.request.value, M.CREATOR_SYSTEM).CastFailure? ==>
                var errors := NewMemberErrors(classId, context.userId, parsers);
                var row := NewMemberRow(classId, Email(), context.userId, OrNull(GetString(context.request.value, M.ROSTER_ID)),
                                        OrNull(GetString(context.request.value, M.CREATOR_SYSTEM)));
                && (|errors| != 0 ==> r == Returned(FailValidation(ErrorsObject(errors))) && store.db == old(store.db))
                && (|errors| == 0 && (row.None? || store.Fails(StoreOp.SaveMember)
                                      || exists k :: 0 <= k < |old(store.db.members)| && M.Key(old(store.db.members)[k]) == M.Key(row.value)) ==>
                      r.Threw? && store.db == old(store.db))
                && (|errors| == 0 && row.Some? && !store.Fails(StoreOp.SaveMember)
                    && (forall k :: 0 <= k < |old(store.db.members)| ==> M.Key(old(store.db.members)[k]) != M.Key(row.value)) ==>
                      r == Returned(CreatedResponse(classId.value, E.StudentJoinedEvent(classId.value, context.userId)))
                      && store.db == old(store.db).(members := old(store.db.members) + [row.value]))
    {
      var m, early := BuildNewMember();
      if early.Some? {
        return early.value;
      }
      var saved := store.SaveMember(m);
      if saved.Thrown? {
        return Threw(saved.message);
      }
      // A model without errors saves or throws: the response is "created".
      return Returned(CreatedResponse(classId.value, E.StudentJoinedEvent(classId.value, context.userId)));
    }

    /**
     * A caller with an invite row: the loaded row is marked "joined" and
     * saved. Only the status changes; the user id the invitation left empty
     * stays empty. The model's errors are looked at only when the save
     * reports that it wrote nothing.
     */
    method JoinAsInvited(store: Database) returns (r: Outcome)
      requires Valid() && membership.Some? && EqualsIgnoreCase(M.STATUS_INVITED, membership.value.status)
      modifies store
      ensures store.Fails(StoreOp.SaveMember) ==> r.Threw? && store.db == old(store.db)
      ensures !store.Fails(StoreOp.SaveMember) && parsers.pgConverts(M.STATUS_JOINED) ==>
                r == Returned(CreatedResponse(classId.value, E.StudentJoinedEvent(classId.value, context.userId)))
                && store.db == old(store.db).(members := ReplaceMember(old(store.db.members), PromotedAsWritten(membership.value)))
      ensures !store.Fails(StoreOp.SaveMember) && !parsers.pgConverts(M.STATUS_JOINED) ==>
                && (r == Returned(CreatedResponse(classId.value, E.StudentJoinedEvent(classId.value, context.userId)))
                    || r == Returned(FailValidation(ErrorsObject(map[M.CLASS_ID := M.INVALID_STATUS]))))
                && store.db == old(store.db).(members := ReplaceMember(old(store.db.members), membership.value))
    {
      var m := new M.MemberModel.Load(membership.value);
      m.SetStatusJoined(parsers);
      assert parsers.pgConverts(M.STATUS_JOINED) ==> m.Row() == Some(PromotedAsWritten(membership.value));
      var saved := store.SaveMember(m);
      if saved.Thrown? {
        return Threw(saved.message);
      }
      if !saved.value && m.HasErrors() {
        return Returned(FailValidation(ErrorsObject(m.errors)));
      }
      return Returned(CreatedResponse(classId.value, E.StudentJoinedEvent(classId.value, context.userId)));
    }

    /**
     * executeRequest: without a membership row a new joined row is saved
     * (conversion errors are a validation error); an invited row is
     * marked joined, its user id left as it was; a joined row is left
     * alone with "joined". A save answers "created" at the class id with
     * the join event; a failed save, a missing payload or a payload field
     * of the wrong type escapes.
     */
    method ExecuteRequest(store: Database) returns (r: Outcome)
      requires Valid()
      modifies store
      ensures membership.None? ==>
                && ((context.request.None? || GetString(context.request.value, M.ROSTER_ID).CastFailure?
                     || GetString(context.request.value, M.CREATOR_SYSTEM).CastFailure?) ==> r.Threw? && store.db == old(store.db))
                && (context.request.Some? && !GetString(context.request.value, M.ROSTER_ID).CastFailure?
                    && !GetString(context.request.value, M.CREATOR_SYSTEM).CastFailure? ==>
                      var errors := NewMemberErrors(classId, context.userId, parsers);
                      var row := NewMemberRow(classId, Email(), context.userId, OrNull(GetString(context.request.value, M.ROSTER_ID)),
                                              OrNull(GetString(context.request.value, M.CREATOR_SYSTEM)));
                      && (|errors| != 0 ==> r == Returned(FailValidation(ErrorsObject(errors))) && store.db == old(store.db))
                      && (|errors| == 0 && (row.None? || store.Fails(StoreOp.SaveMember)
                                            || exists k :: 0 <= k < |old(store.db.members)| && M.Key(old(store.db.members)[k]) == M.Key(row.value)) ==>
                            r.Threw? && store.db == old(store.db))
                      && (|errors| == 0 && row.Some? && !store.Fails(StoreOp.SaveMember)
                          && (forall k :: 0 <= k < |old(store.db.members)| ==> M.Key(old(store.db.members)[k]) != M.Key(row.value)) ==>
                            r == Returned(CreatedResponse(classId.value, E.StudentJoinedEvent(classId.value, context.userId)))
                            && store.db == old(store.db).(members := old(store.db.members) + [row.value])))
      ensures membership.Some? && !EqualsIgnoreCase(M.STATUS_INVITED, membership.value.status) ==>
                r == Returned(NoContentResponse(JOINED, None)) && store.db == old(store.db)
      ensures membership.Some? && EqualsIgnoreCase(M.STATUS_INVITED, membership.value.status) ==>
                && (store.Fails(StoreOp.SaveMember) ==> r.Threw? && store.db == old(store.db))
                && (!store.Fails(StoreOp.SaveMember) && parsers.pgConverts(M.STATUS_JOINED) ==>
                      r == Returned(CreatedResponse(classId.value, E.StudentJoinedEvent(classId.value, context.userId)))
                      && store.db == old(store.db).(members := ReplaceMember(old(store.db.members), PromotedAsWritten(membership.value))))
                && (!store.Fails(StoreOp.SaveMember) && !parsers.pgConverts(M.STATUS_JOINED) ==>
                      && (r == Returned(CreatedResponse(classId.value, E.StudentJoinedEvent(classId.value, context.userId)))
                          || r == Returned(FailValidation(ErrorsObject(map[M.CLASS_ID := M.INVALID_STATUS]))))
                      && store.db == old(store.db).(members := ReplaceMember(old(store.db.members), membership.value)))
    {
      if membership.None? {
        r := JoinAsNewMember(store);
      } else if !EqualsIgnoreCase(M.STATUS_INVITED, membership.value.status) {
        // Already joined: nothing to do.
        return Returned(NoContentResponse(JOINED, None));
      } else {
        r := JoinAsInvited(store);
      }
    }
  }
}

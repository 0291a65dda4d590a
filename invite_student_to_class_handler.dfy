/**
 * Inviting students to a class: the owner or a collaborator sends a list
 * of e-mail addresses; addresses that already have a membership row of
 * the class are pruned, and the rest are inserted as invited rows in one
 * batch.
 */
module InviteStudentToClassHandler {
  import opened Common
  import opened Json
  import opened Responses
  import opened ProcessorContext
  import opened Store
  import opened Messages
  import opened HandlerSupport
  import C = AJEntityClass
  import M = AJClassMember
  import E = EventBuilderFactory
  import A = Authorizers
  import PV = PayloadValidator
  import U = Utils

  // ---------------------------------------------------------------------------
  // Pruning the invitee list

  /** JsonArray.remove(Object): the first element equal to `x` is dropped. */
  function RemoveFirst(s: seq<Value>, x: Value): (r: seq<Value>)
    ensures x !in s ==> r == s
    ensures x in s ==> |r| == |s| - 1
  {
    if |s| == 0 then []
    else if s[0] == x then s[1..]
    else [s[0]] + RemoveFirst(s[1..], x)
  }

  /** The list after one removal per address, in the order of `emails`. */
  function RemoveEach(s: seq<Value>, emails: seq<string>): seq<Value>
    decreases |emails|
  {
    if |emails| == 0 then s
    else RemoveFirst(RemoveEach(s, emails[..|emails| - 1]), Str(emails[|emails| - 1]))
  }

  /** One more address removes one more occurrence from the list so far. */
  lemma RemoveEachSnoc(s: seq<Value>, emails: seq<string>, e: string)
    ensures RemoveEach(s, emails + [e]) == RemoveFirst(RemoveEach(s, emails), Str(e))
  {
    assert (emails + [e])[..|emails|] == emails;
  }

  /** The e-mail column of membership rows. */
  function Emails(rows: seq<M.MemberRow>): (r: seq<string>)
    ensures |r| == |rows| && forall k :: 0 <= k < |rows| ==> r[k] == rows[k].email
  {
    seq(|rows|, k requires 0 <= k < |rows| => rows[k].email)
  }

  /**
   * pruneAlreadyInvitedUsers on the rows its query found: no row keeps every
   * invitee, as many rows as invitees keeps none, and otherwise one
   * occurrence of each row's address is removed.
   */
  function Pruned(invitees: seq<Value>, rows: seq<M.MemberRow>): seq<Value>
  {
    if |rows| == 0 then invitees
    else if |rows| == |invitees| then []
    else RemoveEach(invitees, Emails(rows))
  }

  /**
   * The membership rows the pruning query finds: those of the class whose
   * address is in the array literal built from the invitees. A null class
   * id matches no row.
   */
  function Memberships(db: Db, classId: Option<string>, invitees: seq<Value>): seq<M.MemberRow>
  {
    if classId.None? then []
    else MembersWithEmails(db, classId.value, U.ParsePgArray(U.PgArrayLiteral(Strings(invitees))))
  }

  predicate Distinct<T(==)>(s: seq<T>)
  {
    forall i, j :: 0 <= i < j < |s| ==> s[i] != s[j]
  }

  /** Every element is a JSON string. */
  predicate AllStrings(s: seq<Value>)
  {
    forall k :: 0 <= k < |s| ==> s[k].Str?
  }

  /** A class has a membership row for the address. */
  predicate HasRow(members: seq<M.MemberRow>, classId: string, email: string)
  {
    exists m :: m in members && M.ForEmail(m, classId, email)
  }

  /** In a list without repeats, removing `x` drops exactly `x`. */
  lemma {:induction false} RemoveFirstMeaning(s: seq<Value>, x: Value)
    requires Distinct(s)
    ensures Distinct(RemoveFirst(s, x))
    ensures forall y :: y in RemoveFirst(s, x) <==> y in s && y != x
  {
    if |s| > 0 && s[0] != x {
      assert Distinct(s[1..]);
      RemoveFirstMeaning(s[1..], x);
      var r := RemoveFirst(s, x);
      assert r == [s[0]] + RemoveFirst(s[1..], x);
      assert s[0] !in s[1..];
    } else if |s| > 0 {
      assert s[0] !in s[1..];
    }
  }

  /** In a list without repeats, the removals drop exactly the listed addresses. */
  lemma {:induction false} RemoveEachMeaning(s: seq<Value>, emails: seq<string>)
    requires Distinct(s)
    ensures Distinct(RemoveEach(s, emails))
    ensures forall y :: y in RemoveEach(s, emails) <==> y in s && !(y.Str? && y.s in emails)
  {
    if |emails| > 0 {
      var init := emails[..|emails| - 1];
      var last := emails[|emails| - 1];
      RemoveEachMeaning(s, init);
      RemoveFirstMeaning(RemoveEach(s, init), Str(last));
      assert emails == init + [last];
    }
  }

  /** The string elements of an all-string list are its texts, one each, in order. */
  lemma {:induction false} StringsOfAllStrings(s: seq<Value>)
    requires AllStrings(s)
    ensures |Strings(s)| == |s|
    ensures forall k :: 0 <= k < |s| ==> Strings(s)[k] == s[k].s
  {
    if |s| > 0 {
      StringsOfAllStrings(s[1..]);
    }
  }

  /** An all-string list without repeats has texts without repeats. */
  lemma StringsDistinct(s: seq<Value>)
    requires AllStrings(s) && Distinct(s)
    ensures Distinct(Strings(s))
    ensures forall e :: e in Strings(s) <==> Str(e) in s
  {
    StringsOfAllStrings(s);
    forall e | Str(e) in s ensures e in Strings(s) {
      var k :| 0 <= k < |s| && s[k] == Str(e);
      assert Strings(s)[k] == e;
    }
  }

  /** A list without repeats has as many distinct elements as entries. */
  lemma {:induction false} DistinctCardinality<T>(s: seq<T>)
    requires Distinct(s)
    ensures |set x | x in s| == |s|
  {
    if |s| > 0 {
      assert Distinct(s[1..]);
      DistinctCardinality(s[1..]);
      assert (set x | x in s) == (set x | x in s[1..]) + {s[0]};
      assert s[0] !in s[1..];
    }
  }

  lemma {:induction false} SubsetCardinality<T>(a: set<T>, b: set<T>)
    requires a <= b
    ensures |a| <= |b|
    decreases a
  {
    if a != {} {
      var y :| y in a;
      SubsetCardinality(a - {y}, b - {y});
    }
  }

  /** A subset as large as its superset is the whole superset. */
  lemma SubsetOfSameSize<T>(a: set<T>, b: set<T>)
    requires a <= b && |a| == |b|
    ensures a == b
  {
    if x :| x in b && x !in a {
      SubsetCardinality(a, b - {x});
    }
  }

  /**
   * With distinct plain addresses and a membership table keyed by (class,
   * e-mail), the pruned list holds exactly the invitees that have no
   * membership row of the class yet, without repeats, in each of the three
   * branches of the pruning.
   */
  lemma PrunedMeaning(db: Db, classId: string, invitees: seq<Value>)
    requires M.KeysUnique(db.members)
    requires AllStrings(invitees) && Distinct(invitees) && U.Plain(Strings(invitees))
    ensures var pruned := Pruned(invitees, Memberships(db, Some(classId), invitees));
            && Distinct(pruned)
            && forall v :: v in pruned <==> v in invitees && v.Str? && !HasRow(db.members, classId, v.s)
  {
    var rows := Memberships(db, Some(classId), invitees);
    FoundIffHasRow(db, classId, invitees);
    if |rows| == 0 {
    } else if |rows| == |invitees| {
      FullQueryCoversAll(db, classId, invitees);
    } else {
      RemoveEachMeaning(invitees, Emails(rows));
    }
  }

  /** An invitee's address is among the rows the query finds exactly when it has a row of the class. */
  lemma FoundIffHasRow(db: Db, classId: string, invitees: seq<Value>)
    requires AllStrings(invitees) && U.Plain(Strings(invitees))
    ensures var rows := Memberships(db, Some(classId), invitees);
            forall v :: v in invitees && v.Str? ==> (HasRow(db.members, classId, v.s) <==> v.s in Emails(rows))
  {
    var emails := Strings(invitees);
    U.RoundTrip(emails);
    StringsOfAllStrings(invitees);
    var rows := Memberships(db, Some(classId), invitees);
    forall v | v in invitees && v.Str?
      ensures HasRow(db.members, classId, v.s) <==> v.s in Emails(rows)
    {
      if HasRow(db.members, classId, v.s) {
        var i :| 0 <= i < |invitees| && invitees[i] == v;
        assert emails[i] == v.s;
        var m :| m in db.members && M.ForEmail(m, classId, v.s);
        assert m in rows;
        var k :| 0 <= k < |rows| && rows[k] == m;
        assert Emails(rows)[k] == v.s;
      }
    }
  }

  /** With unique keys, the rows of one class found by address carry distinct addresses. */
  lemma FoundEmailsDistinct(db: Db, classId: string, emails: seq<string>)
    requires M.KeysUnique(db.members)
    ensures Distinct(Emails(MembersWithEmails(db, classId, emails)))
  {
    var query := (m: M.MemberRow) => m.classId == classId && m.email in emails;
    var rows := MembersWithEmails(db, classId, emails);
    assert rows == Filter(db.members, query);
    FilterKeepsKeysUnique(db.members, query);
    forall i, j | 0 <= i < j < |rows| ensures Emails(rows)[i] != Emails(rows)[j] {
      assert M.Key(rows[i]) != M.Key(rows[j]);
      assert rows[i] in rows && rows[j] in rows;
    }
  }

  /**
   * With unique keys, the rows found carry distinct addresses among the
   * invitees' own; as many of them as invitees means every invitee has one.
   */
  lemma FullQueryCoversAll(db: Db, classId: string, invitees: seq<Value>)
    requires M.KeysUnique(db.members)
    requires AllStrings(invitees) && Distinct(invitees) && U.Plain(Strings(invitees))
    requires |Memberships(db, Some(classId), invitees)| == |invitees|
    ensures forall v :: v in invitees && v.Str? ==> HasRow(db.members, classId, v.s)
  {
    var emails := Strings(invitees);
    U.RoundTrip(emails);
    StringsDistinct(invitees);
    var rows := Memberships(db, Some(classId), invitees);
    FoundEmailsDistinct(db, classId, emails);
    DistinctCardinality(Emails(rows));
    DistinctCardinality(emails);
    StringsOfAllStrings(invitees);
    var found := set e | e in Emails(rows);
    var all := set e | e in emails;
    assert found <= all by {
      forall e | e in found ensures e in all {
        var k :| 0 <= k < |rows| && Emails(rows)[k] == e;
        assert rows[k] in rows;
      }
    }
    SubsetOfSameSize(found, all);
    forall v | v in invitees && v.Str? ensures HasRow(db.members, classId, v.s) {
      assert v.s in all;
      var k :| 0 <= k < |rows| && Emails(rows)[k] == v.s;
      assert rows[k] in rows;
      assert M.ForEmail(rows[k], classId, v.s);
    }
  }

  /**
   * A batch of distinct addresses that have no membership row of the class
   * does not clash; after it, every such address has an invited row with
   * no user id, and the keys stay unique.
   */
  lemma FreshBatchSucceeds(members: seq<M.MemberRow>, classId: string, batch: seq<Value>, creatorSystem: Option<string>)
    requires M.KeysUnique(members)
    requires AllStrings(batch) && Distinct(batch)
    requires forall v :: v in batch ==> !HasRow(members, classId, v.s)
    ensures !BatchClashes(members, classId, Strings(batch))
    ensures var after := InsertInvited(members, classId, Strings(batch), creatorSystem).value;
            && M.KeysUnique(after)
            && (forall v :: v in batch ==> HasRow(after, classId, v.s))
            && (forall m :: m in after && m !in members ==> m.status == M.STATUS_INVITED && m.userId.None?)
  {
    StringsDistinct(batch);
    StringsOfAllStrings(batch);
    var emails := Strings(batch);
    forall k | 0 <= k < |members| && members[k].classId == classId ensures members[k].email !in emails {
      assert members[k] in members;
    }
    InsertInvitedKeepsKeysUnique(members, classId, emails, creatorSystem);
    var added := InvitedRows(classId, emails, creatorSystem);
    var after := members + added;
    forall v | v in batch ensures HasRow(after, classId, v.s) {
      var k :| 0 <= k < |batch| && batch[k] == v;
      assert added[k] in after;
    }
    forall m | m in after && m !in members ensures m.status == M.STATUS_INVITED && m.userId.None? {
      var k :| 0 <= k < |after| && after[k] == m;
      assert m == added[k - |members|];
    }
  }

  /**
   * The batch after pruning never clashes with the table: every address is
   * new to the class and none repeats. After it, every invitee has a
   * membership row of the class, and the new rows are invited ones.
   */
  lemma PrunedBatchSucceeds(db: Db, classId: string, invitees: seq<Value>, creatorSystem: Option<string>)
    requires M.KeysUnique(db.members)
    requires AllStrings(invitees) && Distinct(invitees) && U.Plain(Strings(invitees))
    ensures var pruned := Pruned(invitees, Memberships(db, Some(classId), invitees));
            && !BatchClashes(db.members, classId, Strings(pruned))
            && var after := InsertInvited(db.members, classId, Strings(pruned), creatorSystem).value;
               && M.KeysUnique(after)
               && (forall v :: v in invitees ==> HasRow(after, classId, v.s))
               && (forall m :: m in after && m !in db.members ==> m.status == M.STATUS_INVITED && m.userId.None?)
  {
    var pruned := Pruned(invitees, Memberships(db, Some(classId), invitees));
    PrunedMeaning(db, classId, invitees);
    assert AllStrings(pruned) by {
      forall k | 0 <= k < |pruned| ensures pruned[k].Str? {
        assert pruned[k] in pruned;
      }
    }
    FreshBatchSucceeds(db.members, classId, pruned, creatorSystem);
    var after := InsertInvited(db.members, classId, Strings(pruned), creatorSystem).value;
    forall v | v in invitees ensures HasRow(after, classId, v.s) {
      if HasRow(db.members, classId, v.s) {
        var m :| m in db.members && M.ForEmail(m, classId, v.s);
        assert m in after;
      }
    }
  }

  class InviteStudentToClassHandler {
    const context: Context
    const parsers: Parsers

    constructor (context: Context, parsers: Parsers)
      ensures this.context == context && this.parsers == parsers
    {
      this.context := context;
      this.parsers := parsers;
    }

    predicate HandlerReadOnly()
    {
      false
    }

    /**
     * checkSanity: a class id, a signed-in caller, a non-empty payload, and
     * a payload whose invitees are e-mail addresses.
     */
    method CheckSanity() returns (r: Outcome)
      ensures NullOrEmpty(context.classId) ==> r == Returned(Fail(InvalidRequest, MISSING_CLASS_ID))
      ensures !NullOrEmpty(context.classId) && Anonymous(context.userId) ==> r == Returned(Fail(Forbidden, NOT_ALLOWED))
      ensures !NullOrEmpty(context.classId) && !Anonymous(context.userId) && (context.request.None? || |context.request.value| == 0) ==>
                r == Returned(Fail(InvalidRequest, EMPTY_PAYLOAD))
      ensures !NullOrEmpty(context.classId) && !Anonymous(context.userId) && context.request.Some? && |context.request.value| != 0 ==>
                var request := context.request.value;
                && (r.Threw? <==> PV.Raises(request, C.InviteStudentFieldSelector(), C.Validators(parsers)))
                && (r.Returned? ==> r.result == Verdict(PV.AsWritten(request, C.InviteStudentFieldSelector(), C.Validators(parsers))))
      ensures r.Returned? && r.result.IsContinue() ==>
                context.request.value.Keys <= {C.INVITEES, C.CREATOR_SYSTEM}
    {
      if NullOrEmpty(context.classId) {
        return Returned(Fail(InvalidRequest, MISSING_CLASS_ID));
      }
      if Anonymous(context.userId) {
        return Returned(Fail(Forbidden, NOT_ALLOWED));
      }
      if context.request.None? || |context.request.value| == 0 {
        return Returned(Fail(InvalidRequest, EMPTY_PAYLOAD));
      }
      r := CheckPayload(context.request.value, C.InviteStudentFieldSelector(), C.Validators(parsers));
    }

    /**
     * validateRequest: the live class must exist, be of the current version
     * and not archived, and the caller must own it or collaborate on it.
     */
    method ValidateRequest(store: Database) returns (r: Outcome)
      ensures store.Fails(FindClass) ==> r.Threw?
      ensures !store.Fails(FindClass) ==>
                match FindById(store.db, context.classId)
                case None => r == Returned(Fail(NotFound, NOT_FOUND))
                case Some(row) => r == AndThen(VersionCheck(row), A.Authorize(A.ClassOwnerOrCollaborator, context, row, store.db, store.faults))
      ensures r == Returned(Continue()) <==>
                !store.Fails(FindClass) && FindById(store.db, context.classId).Some?
                && var row := FindById(store.db, context.classId).value;
                   !C.IsArchived(row) && C.IsCurrentVersion(row) == Normal(true)
                   && (A.IsOwner(row, context.userId) || A.IsCollaborator(row, context.userId))
    {
      if store.Fails(FindClass) {
        return Threw(DB_ERROR);
      }
      var classes := FindById(store.db, context.classId);
      if classes.None? {
        return Returned(Fail(NotFound, NOT_FOUND));
      }
      var row := classes.value;
      var usable := VersionCheck(row);
      if usable != Returned(Continue()) {
        return usable;
      }
      r := A.Authorize(A.AuthorizerFor(A.InviteStudentToClass), context, row, store.db, store.faults);
      A.PassesMeaning(A.ClassOwnerOrCollaborator, context, row, store.db, store.faults);
    }

    /**
     * pruneAlreadyInvitedUsers: the membership query, then one removal per
     * row found unless none or all were found. The query's store error
     * escapes.
     */
    method PruneAlreadyInvitedUsers(store: Database, invitees: seq<Value>) returns (r: Throws<seq<Value>>)
      ensures store.Fails(FindMembers) ==> r.Thrown?
      ensures !store.Fails(FindMembers) ==> r == Normal(Pruned(invitees, Memberships(store.db, context.classId, invitees)))
    {
      var literal := U.ConvertListToPostgresArrayStringRepresentation(Strings(invitees));
      if store.Fails(FindMembers) {
        return Thrown(DB_ERROR);
      }
      var memberships := if context.classId.None? then [] else MembersWithEmails(store.db, context.classId.value, U.ParsePgArray(literal));
      if |memberships| == 0 {
        return Normal(invitees);
      } else if |memberships| == |invitees| {
        return Normal([]);
      }
      var result := RemoveMembers(invitees, memberships);
      return Normal(result);
    }

    /** The removal loop of pruneAlreadyInvitedUsers: each row's address goes once, in row order. */
    static method RemoveMembers(invitees: seq<Value>, memberships: seq<M.MemberRow>) returns (result: seq<Value>)
      ensures result == RemoveEach(invitees, Emails(memberships))
    {
      var emails := Emails(memberships);
      result := invitees;
      assert emails[..0] == [];
      var i := 0;
      while i < |memberships|
        invariant 0 <= i <= |memberships|
        invariant result == RemoveEach(invitees, emails[..i])
      {
        assert emails[..i + 1] == emails[..i] + [emails[i]];
        RemoveEachSnoc(invitees, emails[..i], emails[i]);
        result := RemoveFirst(result, Str(memberships[i].email));
        i := i + 1;
      }
      assert emails[..i] == emails;
    }

    /**
     * saveInvitations: one invited row per address in a single batch; a
     * store error or a clash is an internal error, otherwise the response
     * is "invited" with the invitation event.
     */
    method SaveInvitations(store: Database, creatorSystem: Option<string>, invitees: seq<Value>) returns (r: Outcome)
      modifies store
      ensures context.classId.None? || store.Fails(InviteBatch)
              || BatchClashes(old(store.db.members), context.classId.value, Strings(invitees)) ==>
                r == Returned(Fail(InternalError, ERROR_FROM_STORE)) && store.db == old(store.db)
      ensures context.classId.Some? && !store.Fails(InviteBatch)
              && !BatchClashes(old(store.db.members), context.classId.value, Strings(invitees)) ==>
                var classId := context.classId.value;
                && r == Returned(NoContentResponse(INVITED, Some(E.StudentInvitedEvent(classId, invitees))))
                && store.db == old(store.db).(members := old(store.db.members) + InvitedRows(classId, Strings(invitees), creatorSystem))
    {
      if context.classId.None? {
        // A null class id violates the column's not-null constraint.
        return Returned(Fail(InternalError, ERROR_FROM_STORE));
      }
      var classId := context.classId.value;
      var batch := store.WriteMembers(InviteBatch, InsertInvited(store.db.members, classId, Strings(invitees), creatorSystem));
      if batch.Thrown? {
        return Returned(Fail(InternalError, ERROR_FROM_STORE));
      }
      return Returned(NoContentResponse(INVITED, Some(E.StudentInvitedEvent(classId, invitees))));
    }

    /**
     * executeRequest: read the creator system and the invitees, prune the
     * addresses already known to the class, and save the rest. Nothing
     * left to invite is a success without an event. A missing payload, a
     * field of the wrong type, a missing invitee list or a failed query
     * escapes.
     */
    method ExecuteRequest(store: Database) returns (r: Outcome)
      modifies store
      ensures context.request.None? ==> r.Threw? && store.db == old(store.db)
      ensures context.request.Some? ==>
                var request := context.request.value;
                && ((GetString(request, M.CREATOR_SYSTEM).CastFailure? || !GetArray(request, C.INVITEES).Found?
                     || store.Fails(FindMembers)) ==> r.Threw? && store.db == old(store.db))
                && (!GetString(request, M.CREATOR_SYSTEM).CastFailure? && GetArray(request, C.INVITEES).Found?
                    && !store.Fails(FindMembers) ==>
                      var pruned := Pruned(GetArray(request, C.INVITEES).value,
                                           Memberships(old(store.db), context.classId, GetArray(request, C.INVITEES).value));
                      var creatorSystem := OrNull(GetString(request, M.CREATOR_SYSTEM));
                      && (|pruned| == 0 ==> r == Returned(NoContentResponse(INVITED, None)) && store.db == old(store.db))
                      && (|pruned| != 0 && (context.classId.None? || store.Fails(InviteBatch)
                                             || BatchClashes(old(store.db.members), context.classId.value, Strings(pruned))) ==>
                            r == Returned(Fail(InternalError, ERROR_FROM_STORE)) && store.db == old(store.db))
                      && (|pruned| != 0 && context.classId.Some? && !store.Fails(InviteBatch)
                          && !BatchClashes(old(store.db.members), context.classId.value, Strings(pruned)) ==>
                            r == Returned(NoContentResponse(INVITED, Some(E.StudentInvitedEvent(context.classId.value, pruned))))
                            && store.db == old(store.db).(members := old(store.db.members)
                                                           + InvitedRows(context.classId.value, Strings(pruned), creatorSystem))))
    {
      if context.request.None? {
        return Threw(NULL_REFERENCE);
      }
      var request := context.request.value;
      var creatorSystem := GetString(request, M.CREATOR_SYSTEM);
      if creatorSystem.CastFailure? {
        return Threw(CLASS_CAST);
      }
      var invitees := GetArray(request, C.INVITEES);
      if invitees.CastFailure? {
        return Threw(CLASS_CAST);
      }
      if invitees.Absent? {
        return Threw(NULL_REFERENCE);
      }
      var pruned := PruneAlreadyInvitedUsers(store, invitees.value);
      if pruned.Thrown? {
        return Threw(pruned.message);
      }
      if |pruned.value| == 0 {
        return Returned(NoContentResponse(INVITED, None));
      }
      r := SaveInvitations(store, OrNull(creatorSystem), pruned.value);
    }
  }
}

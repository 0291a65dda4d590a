/**
 * Listing a user's classes: the classes they own, the classes they
 * collaborate on and the classes they joined, with member counts, class
 * details and the teachers of the joined classes. The response is built in
 * stages; the first stage that fails ends the request.
 */
module FetchClassesForUserHandler {
  import opened Common
  import opened Json
  import opened Responses
  import opened ProcessorContext
  import opened Store
  import opened Messages
  import opened HandlerSupport
  import C = AJEntityClass
  import A = Authorizers
  import M = AJClassMember
  import U = Utils

  const RESPONSE_BUCKET_OWNER: string := "owner"
  const RESPONSE_BUCKET_COLLABORATOR: string := "collaborator"
  const RESPONSE_BUCKET_MEMBER: string := "member"
  const RESPONSE_BUCKET_CLASSES: string := "classes"
  const RESPONSE_BUCKET_MEMBER_COUNT: string := "member_count"
  const RESPONSE_BUCKET_TEACHER_DETAILS: string := "teacher_details"

  /** The caller owns the class: its creator equals the caller id, ignoring case. */
  predicate OwnedBy(row: C.ClassRow, user: string)
  {
    C.CreatorId(row).Some? && EqualsIgnoreCase(user, C.CreatorId(row).value)
  }

  /** Every listed class has an id (getId().toString() dereferences it). */
  predicate AllHaveIds(rows: seq<C.ClassRow>)
  {
    forall row :: row in rows ==> C.Id(row).Some?
  }

  /** The ids of the rows, in order. */
  function IdsOf(rows: seq<C.ClassRow>): seq<string>
  {
    if |rows| == 0 then []
    else
      var last := rows[|rows| - 1];
      IdsOf(rows[..|rows| - 1]) + (if C.Id(last).Some? then [C.Id(last).value] else [])
  }

  /** The ids of the rows the caller owns, in order. */
  function OwnedIds(rows: seq<C.ClassRow>, user: string): seq<string>
  {
    if |rows| == 0 then []
    else
      var last := rows[|rows| - 1];
      OwnedIds(rows[..|rows| - 1], user) + (if C.Id(last).Some? && OwnedBy(last, user) then [C.Id(last).value] else [])
  }

  /** The ids of the other rows, in order. */
  function CollaboratedIds(rows: seq<C.ClassRow>, user: string): seq<string>
  {
    if |rows| == 0 then []
    else
      var last := rows[|rows| - 1];
      CollaboratedIds(rows[..|rows| - 1], user) + (if C.Id(last).Some? && !OwnedBy(last, user) then [C.Id(last).value] else [])
  }

  /**
   * The owner and collaborator buckets split the listed classes: an id is
   * in the owner bucket iff a listed class with that id is owned by the
   * caller, in the collaborator bucket iff a listed class with that id is
   * not, and together they hold as many ids as the class id list.
   */
  lemma {:induction false} OwnerCollaboratorSplit(rows: seq<C.ClassRow>, user: string)
    ensures forall c :: c in OwnedIds(rows, user) <==> exists row :: row in rows && C.Id(row) == Some(c) && OwnedBy(row, user)
    ensures forall c :: c in CollaboratedIds(rows, user) <==> exists row :: row in rows && C.Id(row) == Some(c) && !OwnedBy(row, user)
    ensures forall c :: c in IdsOf(rows) <==> exists row :: row in rows && C.Id(row) == Some(c)
    ensures |OwnedIds(rows, user)| + |CollaboratedIds(rows, user)| == |IdsOf(rows)|
  {
    if |rows| != 0 {
      var init := rows[..|rows| - 1];
      var last := rows[|rows| - 1];
      OwnerCollaboratorSplit(init, user);
      assert rows == init + [last];
      assert forall row :: row in rows <==> row in init || row == last;
    }
  }

  /** Extending a prefix of the listed classes by one row extends each id list by that row's id. */
  lemma PrefixStep(rows: seq<C.ClassRow>, i: nat, user: string)
    requires i < |rows| && AllHaveIds(rows[..i]) && C.Id(rows[i]).Some?
    ensures AllHaveIds(rows[..i + 1])
    ensures IdsOf(rows[..i + 1]) == IdsOf(rows[..i]) + [C.Id(rows[i]).value]
    ensures OwnedIds(rows[..i + 1], user) ==
              OwnedIds(rows[..i], user) + (if OwnedBy(rows[i], user) then [C.Id(rows[i]).value] else [])
    ensures CollaboratedIds(rows[..i + 1], user) ==
              CollaboratedIds(rows[..i], user) + (if OwnedBy(rows[i], user) then [] else [C.Id(rows[i]).value])
  {
    assert rows[..i + 1][..i] == rows[..i];
    assert rows[..i + 1] == rows[..i] + [rows[i]];
  }

  /** The member-count object: one entry per class that has joined members. */
  function CountObject(counts: map<string, nat>): (r: JsonObject)
    ensures r.Keys == counts.Keys
  {
    map c | c in counts :: Num(counts[c])
  }

  /**
   * The response of a request that runs every stage: the buckets, the
   * member counts and the details of all listed classes, and the teachers
   * of the joined classes. `earlier` is the class id list the handler held
   * before the request.
   */
  function UserView(db: Db, user: string, earlier: seq<string>, teachers: string -> seq<Value>): JsonObject
  {
    var rows := OwnedOrCollaborated(db, user);
    var joined := JoinedClassIds(db, user);
    var all := earlier + IdsOf(rows) + joined;
    map[RESPONSE_BUCKET_OWNER := Arr(StrValues(OwnedIds(rows, user))),
        RESPONSE_BUCKET_COLLABORATOR := Arr(StrValues(CollaboratedIds(rows, user))),
        RESPONSE_BUCKET_MEMBER := Arr(StrValues(joined)),
        RESPONSE_BUCKET_MEMBER_COUNT := Obj(CountObject(MemberCounts(db, all))),
        RESPONSE_BUCKET_CLASSES := Arr(Views(ClassesWithIds(db, all))),
        RESPONSE_BUCKET_TEACHER_DETAILS := Arr(teachers(U.PgArrayLiteral(joined)))]
  }

  /**
   * What the buckets list: the owner bucket holds exactly the live classes
   * the caller created (ignoring case), the collaborator bucket the other
   * live classes that list the caller, and the member bucket the live
   * classes the caller joined.
   */
  lemma UserBuckets(db: Db, user: string)
    ensures var rows := OwnedOrCollaborated(db, user);
            && (forall c :: Str(c) in StrValues(OwnedIds(rows, user)) <==>
                  exists row :: row in db.classes && OwnedOrCollaboratedBy(row, user) && C.Id(row) == Some(c) && OwnedBy(row, user))
            && (forall c :: Str(c) in StrValues(CollaboratedIds(rows, user)) <==>
                  exists row :: row in db.classes && OwnedOrCollaboratedBy(row, user) && C.Id(row) == Some(c) && !OwnedBy(row, user))
            && (forall c :: Str(c) in StrValues(JoinedClassIds(db, user)) <==>
                  exists m :: m in db.members && m.userId == Some(user) && m.status == M.STATUS_JOINED && m.classId == c && ClassIsLive(db, c))
  {
    var rows := OwnedOrCollaborated(db, user);
    OwnerCollaboratorSplit(rows, user);
    StrValuesMembership(OwnedIds(rows, user));
    StrValuesMembership(CollaboratedIds(rows, user));
    StrValuesMembership(JoinedClassIds(db, user));
  }

  /**
   * The counts cover only listed classes that have joined members, each
   * with its number of joined rows; the details are the views of live
   * listed classes only.
   */
  lemma UserCountsAndDetails(db: Db, user: string, earlier: seq<string>, teachers: string -> seq<Value>)
    ensures var view := UserView(db, user, earlier, teachers);
            var all := earlier + IdsOf(OwnedOrCollaborated(db, user)) + JoinedClassIds(db, user);
            && view[RESPONSE_BUCKET_MEMBER_COUNT].fields.Keys == set c | c in all && JoinedCount(db, c) > 0
            && (forall c :: c in view[RESPONSE_BUCKET_MEMBER_COUNT].fields ==>
                  view[RESPONSE_BUCKET_MEMBER_COUNT].fields[c] == Num(JoinedCount(db, c)))
            && (forall v :: v in view[RESPONSE_BUCKET_CLASSES].items ==>
                  exists row :: row in db.classes && C.Live(row) && C.Id(row).Some? && C.Id(row).value in all && v == Obj(C.FetchView(row)))
  {
    var all := earlier + IdsOf(OwnedOrCollaborated(db, user)) + JoinedClassIds(db, user);
    var rows := ClassesWithIds(db, all);
    var views := Views(rows);
    forall v | v in views
      ensures exists row :: row in db.classes && C.Live(row) && C.Id(row).Some? && C.Id(row).value in all && v == Obj(C.FetchView(row))
    {
      var k :| 0 <= k < |views| && views[k] == v;
      assert rows[k] in rows;
    }
  }

  class FetchClassesForUserHandler {
    const context: Context
    /** The ids of every class listed so far, for the counts and the details. */
    var classIdList: seq<string>
    /** The ids of the joined classes, for the teacher details. */
    var memberClassIds: seq<string>

    constructor (context: Context)
      ensures this.context == context && classIdList == [] && memberClassIds == []
    {
      this.context := context;
      classIdList := [];
      memberClassIds := [];
    }

    predicate HandlerReadOnly()
    {
      true
    }

    /** checkSanity: a signed-in caller. */
    method CheckSanity() returns (r: Outcome)
      ensures r.Returned?
      ensures Anonymous(context.userId) ==> r.result == Fail(Forbidden, NOT_ALLOWED)
      ensures r.result.IsContinue() <==> !Anonymous(context.userId)
    {
      if Anonymous(context.userId) {
        return Returned(Fail(Forbidden, NOT_ALLOWED));
      }
      return Returned(Continue());
    }

    /** validateRequest: nothing to check; the pass-through authorizer continues. */
    method ValidateRequest(store: Database) returns (r: Outcome)
      ensures r == Returned(Continue())
    {
      r := A.Authorize(A.AuthorizerFor(A.FetchClassesForUser), context, map[], store.db, store.faults);
    }

    /** The owner/collaborator stage: split the caller's classes and list their ids. */
    method PopulateOwnedOrCollaboratedClassesId(store: Database, result: JsonBox) returns (r: Outcome)
      modifies this, result
      ensures memberClassIds == old(memberClassIds)
      ensures store.Fails(FindOwned) ==>
                r == Returned(Fail(InternalError, ERROR_FROM_STORE)) && classIdList == old(classIdList)
      ensures !store.Fails(FindOwned) && !AllHaveIds(OwnedOrCollaborated(store.db, context.userId)) ==> r.Threw?
      ensures !store.Fails(FindOwned) && AllHaveIds(OwnedOrCollaborated(store.db, context.userId)) ==>
                var rows := OwnedOrCollaborated(store.db, context.userId);
                && r == Returned(Continue())
                && classIdList == old(classIdList) + IdsOf(rows)
                && result.fields == old(result.fields)[RESPONSE_BUCKET_OWNER := Arr(StrValues(OwnedIds(rows, context.userId)))]
                                                      [RESPONSE_BUCKET_COLLABORATOR := Arr(StrValues(CollaboratedIds(rows, context.userId)))]
    {
      if store.Fails(FindOwned) {
        return Returned(Fail(InternalError, ERROR_FROM_STORE));
      }
      var classes := OwnedOrCollaborated(store.db, context.userId);
      var owned: seq<string> := [];
      var collaborated: seq<string> := [];
      var listed: seq<string> := [];
      var i := 0;
      while i < |classes|
        invariant 0 <= i <= |classes|
        invariant AllHaveIds(classes[..i])
        invariant owned == OwnedIds(classes[..i], context.userId)
        invariant collaborated == CollaboratedIds(classes[..i], context.userId)
        invariant listed == IdsOf(classes[..i])
        modifies {}
      {
        var row := classes[i];
        if C.Id(row).None? {
          assert !AllHaveIds(classes) by {
            assert row in classes;
          }
          return Threw(NULL_REFERENCE);
        }
        PrefixStep(classes, i, context.userId);
        var classId := C.Id(row).value;
        if OwnedBy(row, context.userId) {
          owned := owned + [classId];
        } else {
          collaborated := collaborated + [classId];
        }
        listed := listed + [classId];
        i := i + 1;
      }
      assert classes[..i] == classes;
      classIdList := classIdList + listed;
      result.Put(RESPONSE_BUCKET_OWNER, Arr(StrValues(owned)));
      result.Put(RESPONSE_BUCKET_COLLABORATOR, Arr(StrValues(collaborated)));
      return Returned(Continue());
    }

    /** The membership stage: the joined live classes, added to the id list. */
    method PopulateMembershipClassesId(store: Database, result: JsonBox) returns (r: Outcome)
      modifies this, result
      ensures store.Fails(FindMemberships) ==>
                r == Returned(Fail(InternalError, ERROR_FROM_STORE)) && classIdList == old(classIdList)
                && result.fields == old(result.fields)
      ensures !store.Fails(FindMemberships) ==>
                var joined := JoinedClassIds(store.db, context.userId);
                && r == Returned(Continue())
                && memberClassIds == joined && classIdList == old(classIdList) + joined
                && result.fields == old(result.fields)[RESPONSE_BUCKET_MEMBER := Arr(StrValues(joined))]
    {
      if store.Fails(FindMemberships) {
        return Returned(Fail(InternalError, ERROR_FROM_STORE));
      }
      var members := JoinedClassIds(store.db, context.userId);
      memberClassIds := [];
      var i := 0;
      while i < |members|
        invariant 0 <= i <= |members|
        invariant memberClassIds == members[..i]
        invariant classIdList == old(classIdList) + members[..i]
        invariant result.fields == old(result.fields)
      {
        assert members[..i + 1] == members[..i] + [members[i]];
        memberClassIds := memberClassIds + [members[i]];
        classIdList := classIdList + [members[i]];
        i := i + 1;
      }
      assert members[..i] == members;
      result.Put(RESPONSE_BUCKET_MEMBER, Arr(StrValues(memberClassIds)));
      return Returned(Continue());
    }

    /** The count stage: joined-member counts of the listed classes. */
    method PopulateClassMemberCounts(store: Database, result: JsonBox) returns (r: Outcome)
      modifies result
      ensures store.Fails(CountMembers) ==> r == Returned(Fail(InternalError, ERROR_FROM_STORE))
      ensures !store.Fails(CountMembers) ==>
                r == Returned(Continue())
                && result.fields == old(result.fields)[RESPONSE_BUCKET_MEMBER_COUNT := Obj(CountObject(MemberCounts(store.db, classIdList)))]
    {
      if store.Fails(CountMembers) {
        return Returned(Fail(InternalError, ERROR_FROM_STORE));
      }
      result.Put(RESPONSE_BUCKET_MEMBER_COUNT, Obj(CountObject(MemberCounts(store.db, classIdList))));
      return Returned(Continue());
    }

    /** The details stage: the fetch views of the listed live classes; a store error here is not caught. */
    method PopulateClassDetails(store: Database, result: JsonBox) returns (r: Outcome)
      modifies result
      ensures store.Fails(ClassDetails) ==> r.Threw?
      ensures !store.Fails(ClassDetails) ==>
                r == Returned(Continue())
                && result.fields == old(result.fields)[RESPONSE_BUCKET_CLASSES := Arr(Views(ClassesWithIds(store.db, classIdList)))]
    {
      if store.Fails(ClassDetails) {
        return Threw(DB_ERROR);
      }
      result.Put(RESPONSE_BUCKET_CLASSES, Arr(Views(ClassesWithIds(store.db, classIdList))));
      return Returned(Continue());
    }

    /** The teacher stage: the teachers of the joined classes, and the final response. */
    method PopulateTeacherDetails(store: Database, result: JsonBox, teachers: string -> seq<Value>) returns (r: Outcome)
      modifies result
      ensures store.Fails(TeacherDetails) ==> r == Returned(Fail(InternalError, ERROR_FROM_STORE))
      ensures !store.Fails(TeacherDetails) ==>
                result.fields == old(result.fields)[RESPONSE_BUCKET_TEACHER_DETAILS := Arr(teachers(U.PgArrayLiteral(memberClassIds)))]
                && r == Returned(OkayResponse(result.fields))
    {
      if store.Fails(TeacherDetails) {
        return Returned(Fail(InternalError, ERROR_FROM_STORE));
      }
      var literal := U.ConvertListToPostgresArrayStringRepresentation(memberClassIds);
      result.Put(RESPONSE_BUCKET_TEACHER_DETAILS, Arr(teachers(literal)));
      return Returned(OkayResponse(result.fields));
    }

    /**
     * executeRequest: the stages in order; the first failed stage's result
     * is the response and the later stages do not run.
     */
    method ExecuteRequest(store: Database, teachers: string -> seq<Value>) returns (r: Outcome)
      modifies this
      ensures store.Fails(FindOwned) ==> r == Returned(Fail(InternalError, ERROR_FROM_STORE))
      ensures !store.Fails(FindOwned) && !AllHaveIds(OwnedOrCollaborated(store.db, context.userId)) ==> r.Threw?
      ensures !store.Fails(FindOwned) && AllHaveIds(OwnedOrCollaborated(store.db, context.userId)) ==>
                && (store.Fails(FindMemberships) ==> r == Returned(Fail(InternalError, ERROR_FROM_STORE)))
                && (!store.Fails(FindMemberships) && store.Fails(CountMembers) ==> r == Returned(Fail(InternalError, ERROR_FROM_STORE)))
                && (!store.Fails(FindMemberships) && !store.Fails(CountMembers) && store.Fails(ClassDetails) ==> r.Threw?)
                && ((!store.Fails(FindMemberships) && !store.Fails(CountMembers) && !store.Fails(ClassDetails)
                     && store.Fails(TeacherDetails)) ==> r == Returned(Fail(InternalError, ERROR_FROM_STORE)))
                && ((!store.Fails(FindMemberships) && !store.Fails(CountMembers) && !store.Fails(ClassDetails)
                     && !store.Fails(TeacherDetails)) ==>
                      r == Returned(OkayResponse(UserView(store.db, context.userId, old(classIdList), teachers))))
    {
      var result := new JsonBox(map[]);
      r := PopulateOwnedOrCollaboratedClassesId(store, result);
      if r != Returned(Continue()) {
        return;
      }
      r := PopulateMembershipClassesId(store, result);
      if r != Returned(Continue()) {
        return;
      }
      r := PopulateClassMemberCounts(store, result);
      if r != Returned(Continue()) {
        return;
      }
      r := PopulateClassDetails(store, result);
      if r != Returned(Continue()) {
        return;
      }
      r := PopulateTeacherDetails(store, result, teachers);
    }
  }
}

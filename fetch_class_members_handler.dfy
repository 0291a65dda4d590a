/**
 * Listing the people of a class: the owner, the collaborators, the
 * students who joined (by user id) and the invited addresses, with the
 * demographic summaries of everyone who has a user id.
 */
module FetchClassMembersHandler {
  import opened Common
  import opened Json
  import opened Responses
  import opened ProcessorContext
  import opened Store
  import opened Messages
  import opened HandlerSupport
  import C = AJEntityClass
  import M = AJClassMember
  import A = Authorizers
  import U = Utils

  const RESPONSE_BUCKET_OWNER: string := "owner"
  const RESPONSE_BUCKET_COLLABORATOR: string := "collaborator"
  const RESPONSE_BUCKET_MEMBER: string := "member"
  const RESPONSE_BUCKET_INVITEES: string := "invitees"
  const RESPONSE_BUCKET_MEMBER_DETAILS: string := "details"

  /** A membership whose user id is known (non-null and non-empty). */
  predicate HasUserId(m: M.MemberRow)
  {
    m.userId.Some? && |m.userId.value| != 0
  }

  /** A membership that is listed as an invitation: no user id, but an address. */
  predicate IsInvitee(m: M.MemberRow)
  {
    !HasUserId(m) && |m.email| != 0
  }

  /** The user ids of the rows that have one, in row order. */
  function MemberIds(rows: seq<M.MemberRow>): seq<string>
  {
    if |rows| == 0 then []
    else
      var last := rows[|rows| - 1];
      MemberIds(rows[..|rows| - 1]) + (if HasUserId(last) then [last.userId.value] else [])
  }

  /** The addresses of the rows without a user id, in row order. */
  function Invitees(rows: seq<M.MemberRow>): seq<string>
  {
    if |rows| == 0 then []
    else
      var last := rows[|rows| - 1];
      Invitees(rows[..|rows| - 1]) + (if IsInvitee(last) then [last.email] else [])
  }

  /**
   * The member and invitee buckets partition the rows: a user id is listed
   * iff some row carries it, an address is listed iff some row without a
   * user id carries it, and no row is listed twice.
   */
  lemma {:induction false} BucketsPartition(rows: seq<M.MemberRow>)
    ensures forall u :: u in MemberIds(rows) <==> exists m :: m in rows && HasUserId(m) && m.userId.value == u
    ensures forall e :: e in Invitees(rows) <==> exists m :: m in rows && IsInvitee(m) && m.email == e
    ensures |MemberIds(rows)| + |Invitees(rows)| <= |rows|
  {
    if |rows| != 0 {
      var init := rows[..|rows| - 1];
      var last := rows[|rows| - 1];
      BucketsPartition(init);
      assert rows == init + [last];
      forall u ensures u in MemberIds(rows) <==> exists m :: m in rows && HasUserId(m) && m.userId.value == u {
        if u in MemberIds(rows) && u !in MemberIds(init) {
          assert last in rows;
        }
        if m :| m in rows && HasUserId(m) && m.userId.value == u {
          if m != last {
            assert m in init;
          }
        }
      }
      forall e ensures e in Invitees(rows) <==> exists m :: m in rows && IsInvitee(m) && m.email == e {
        if e in Invitees(rows) && e !in Invitees(init) {
          assert last in rows;
        }
        if m :| m in rows && IsInvitee(m) && m.email == e {
          if m != last {
            assert m in init;
          }
        }
      }
    }
  }

  /** Model.getString(creator_id) in a JSON array: a string, or null. */
  function OwnerValue(row: C.ClassRow): Value
  {
    if C.CreatorId(row).Some? then Str(C.CreatorId(row).value) else Null
  }

  /** The owner in the id list; a null owner is spelled "null" by the array serialiser. */
  function OwnerText(row: C.ClassRow): string
  {
    WithText("", C.CreatorId(row))
  }

  /** The member rows of the class FETCH_ALL_QUERY_FILTER selects; a null class id matches none. */
  function ClassMembers(db: Db, classId: Option<string>): (r: seq<M.MemberRow>)
    ensures forall m :: m in r <==> classId.Some? && m in db.members && m.classId == classId.value
  {
    if classId.None? then [] else MembersOfClass(db, classId.value)
  }

  /** The ids whose demographics are asked for: the owner, then the collaborators, then the members. */
  function IdList(row: C.ClassRow, rows: seq<M.MemberRow>): seq<string>
  {
    [OwnerText(row)] + Strings(C.Collaborators(row)) + MemberIds(rows)
  }

  /**
   * The response of executeRequest for a class and its member rows, given
   * the demographic summaries the store returns for an id list literal.
   */
  function MembersView(row: C.ClassRow, rows: seq<M.MemberRow>, summaries: string -> seq<Value>): JsonObject
  {
    map[RESPONSE_BUCKET_OWNER := Arr([OwnerValue(row)]),
        RESPONSE_BUCKET_COLLABORATOR := Arr(C.Collaborators(row)),
        RESPONSE_BUCKET_MEMBER := Arr(StrValues(MemberIds(rows))),
        RESPONSE_BUCKET_INVITEES := Arr(StrValues(Invitees(rows))),
        RESPONSE_BUCKET_MEMBER_DETAILS := Arr(summaries(U.PgArrayLiteral(IdList(row, rows))))]
  }

  /**
   * What the listing shows: the owner bucket is exactly the creator, the
   * collaborator bucket the stored list, the member bucket the user ids of
   * the class's rows that have one and the invitee bucket the addresses of
   * the others; the demographics are asked for the owner first and for
   * every listed member.
   */
  lemma ListingShowsTheClass(db: Db, classId: string, row: C.ClassRow, summaries: string -> seq<Value>)
    ensures var rows := ClassMembers(db, Some(classId));
            var view := MembersView(row, rows, summaries);
            && view[RESPONSE_BUCKET_OWNER] == Arr([OwnerValue(row)])
            && (C.COLLABORATOR in row && row[C.COLLABORATOR].Arr? ==> view[RESPONSE_BUCKET_COLLABORATOR] == row[C.COLLABORATOR])
            && (forall u :: Str(u) in view[RESPONSE_BUCKET_MEMBER].items <==>
                  exists m :: m in db.members && m.classId == classId && HasUserId(m) && m.userId.value == u)
            && (forall e :: Str(e) in view[RESPONSE_BUCKET_INVITEES].items <==>
                  exists m :: m in db.members && m.classId == classId && IsInvitee(m) && m.email == e)
            && IdList(row, rows)[0] == OwnerText(row)
            && (forall u :: u in MemberIds(rows) ==> u in IdList(row, rows))
  {
    var rows := ClassMembers(db, Some(classId));
    BucketsPartition(rows);
    StrValuesMembership(MemberIds(rows));
    StrValuesMembership(Invitees(rows));
  }

  class FetchClassMembersHandler {
    const context: Context
    /** The class validateRequest loaded. */
    var entityClass: Option<C.ClassRow>

    constructor (context: Context)
      ensures this.context == context && entityClass.None?
      ensures Valid()
    {
      this.context := context;
      entityClass := None;
    }

    /** A loaded class is the live class the context names. */
    ghost predicate Valid()
      reads this
    {
      entityClass.Some? ==> context.classId.Some? && LiveWithId(entityClass.value, context.classId.value)
    }

    predicate HandlerReadOnly()
    {
      true
    }

    /** checkSanity: a class id and a signed-in caller. */
    method CheckSanity() returns (r: Outcome)
      ensures r.Returned?
      ensures NullOrEmpty(context.classId) ==> r.result == Fail(InvalidRequest, MISSING_CLASS_ID)
      ensures !NullOrEmpty(context.classId) && Anonymous(context.userId) ==> r.result == Fail(Forbidden, NOT_ALLOWED)
      ensures r.result.IsContinue() <==> !NullOrEmpty(context.classId) && !Anonymous(context.userId)
    {
      if NullOrEmpty(context.classId) {
        return Returned(Fail(InvalidRequest, MISSING_CLASS_ID));
      }
      if Anonymous(context.userId) {
        return Returned(Fail(Forbidden, NOT_ALLOWED));
      }
      return Returned(Continue());
    }

    /**
     * validateRequest: the live class must exist and the caller must own
     * it, collaborate on it or hold a membership row of it. A store error,
     * in the class lookup or in the membership lookup, is an internal error.
     */
    method ValidateRequest(store: Database) returns (r: Outcome)
      requires Valid()
      modifies this
      ensures Valid()
      ensures r.Returned?
      ensures store.Fails(FindClass) ==> r.result == Fail(InternalError, ERROR_FROM_STORE)
      ensures !store.Fails(FindClass) ==>
                entityClass == FindById(store.db, context.classId)
                && (entityClass.None? ==> r.result == Fail(NotFound, NOT_FOUND))
      ensures r.result.IsContinue() <==>
                !store.Fails(FindClass) && FindById(store.db, context.classId).Some?
                && var row := FindById(store.db, context.classId).value;
                   (A.IsOwner(row, context.userId) || A.IsCollaborator(row, context.userId)
                    || (!store.Fails(FindMembers) && A.HasMembership(store.db, context)))
      ensures !store.Fails(FindClass) && entityClass.Some? && store.Fails(FindMembers)
              && !A.IsOwner(entityClass.value, context.userId) && !A.IsCollaborator(entityClass.value, context.userId) ==>
                r.result == Fail(InternalError, ERROR_FROM_STORE)
    {
      if store.Fails(FindClass) {
        return Returned(Fail(InternalError, ERROR_FROM_STORE));
      }
      var classes := FindById(store.db, context.classId);
      if classes.None? {
        entityClass := None;
        return Returned(Fail(NotFound, NOT_FOUND));
      }
      entityClass := classes;
      r := A.Authorize(A.AuthorizerFor(A.FetchClassMembers), context, classes.value, store.db, store.faults);
      A.PassesMeaning(A.ClassMember, context, classes.value, store.db, store.faults);
      if r.Threw? {
        // The membership lookup's store error is caught like the class lookup's.
        return Returned(Fail(InternalError, ERROR_FROM_STORE));
      }
    }

    /** populateOwnerInfo: the owner bucket, and the owner first in the id list. */
    method PopulateOwnerInfo(ids: seq<string>, result: JsonBox) returns (ids': seq<string>)
      requires entityClass.Some?
      modifies result
      ensures ids' == ids + [OwnerText(entityClass.value)]
      ensures result.fields == old(result.fields)[RESPONSE_BUCKET_OWNER := Arr([OwnerValue(entityClass.value)])]
    {
      var owner := C.CreatorId(entityClass.value);
      result.Put(RESPONSE_BUCKET_OWNER, Arr([OwnerValue(entityClass.value)]));
      ids' := ids + [WithText("", owner)];
    }

    /** populateCollaboratorsInfo: the collaborator bucket, and each collaborator in the id list. */
    method PopulateCollaboratorsInfo(ids: seq<string>, result: JsonBox) returns (ids': seq<string>)
      requires entityClass.Some?
      modifies result
      ensures ids' == ids + Strings(C.Collaborators(entityClass.value))
      ensures result.fields == old(result.fields)[RESPONSE_BUCKET_COLLABORATOR := Arr(C.Collaborators(entityClass.value))]
    {
      var collaborators := C.Collaborators(entityClass.value);
      if |collaborators| != 0 {
        result.Put(RESPONSE_BUCKET_COLLABORATOR, Arr(collaborators));
        ids' := ids + Strings(collaborators);
      } else {
        result.Put(RESPONSE_BUCKET_COLLABORATOR, Arr([]));
        ids' := ids;
      }
    }

    /**
     * populateMembersInfo: each row with a user id goes to the member
     * bucket and the id list; each other row with an address goes to the
     * invitee bucket.
     */
    static method PopulateMembersInfo(result: JsonBox, ids: seq<string>, members: seq<M.MemberRow>) returns (ids': seq<string>)
      modifies result
      ensures ids' == ids + MemberIds(members)
      ensures result.fields == old(result.fields)[RESPONSE_BUCKET_MEMBER := Arr(StrValues(MemberIds(members)))]
                                                 [RESPONSE_BUCKET_INVITEES := Arr(StrValues(Invitees(members)))]
    {
      if |members| == 0 {
        result.Put(RESPONSE_BUCKET_MEMBER, Arr([]));
        result.Put(RESPONSE_BUCKET_INVITEES, Arr([]));
        return ids;
      }
      var joined: seq<string> := [];
      var invited: seq<string> := [];
      ids' := ids;
      var i := 0;
      while i < |members|
        invariant 0 <= i <= |members|
        invariant joined == MemberIds(members[..i])
        invariant invited == Invitees(members[..i])
        invariant ids' == ids + joined
      {
        var m := members[i];
        assert members[..i + 1][..i] == members[..i];
        if m.userId.Some? && |m.userId.value| != 0 {
          ids' := ids' + [m.userId.value];
          joined := joined + [m.userId.value];
        } else if |m.email| != 0 {
          invited := invited + [m.email];
        }
        i := i + 1;
      }
      assert members[..i] == members;
      result.Put(RESPONSE_BUCKET_MEMBER, Arr(StrValues(joined)));
      result.Put(RESPONSE_BUCKET_INVITEES, Arr(StrValues(invited)));
    }

    /**
     * executeRequest: the four buckets and the demographics of the id
     * list. Nothing here catches a store error, and a class that was not
     * loaded is a null dereference.
     */
    method ExecuteRequest(store: Database, summaries: string -> seq<Value>) returns (r: Outcome)
      ensures store.Fails(FindMembers) || entityClass.None? || store.Fails(Demographics) ==> r.Threw?
      ensures !store.Fails(FindMembers) && entityClass.Some? && !store.Fails(Demographics) ==>
                r == Returned(OkayResponse(MembersView(entityClass.value, ClassMembers(store.db, context.classId), summaries)))
    {
      if store.Fails(FindMembers) {
        return Threw(DB_ERROR);
      }
      var members := ClassMembers(store.db, context.classId);
      if entityClass.None? {
        return Threw(NULL_REFERENCE);
      }
      var result := new JsonBox(map[]);
      var ids := PopulateOwnerInfo([], result);
      ids := PopulateCollaboratorsInfo(ids, result);
      ids := PopulateMembersInfo(result, ids, members);
      if store.Fails(Demographics) {
        return Threw(DB_ERROR);
      }
      assert ids == IdList(entityClass.value, members);
      var literal := U.ConvertListToPostgresArrayStringRepresentation(ids);
      result.Put(RESPONSE_BUCKET_MEMBER_DETAILS, Arr(summaries(literal)));
      assert result.fields == MembersView(entityClass.value, members, summaries);
      return Returned(OkayResponse(result.fields));
    }
  }
}

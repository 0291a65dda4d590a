/**
 * The `class_member` table: one row per (class, e-mail) pair, with the
 * student's user id once known and the membership status; the model
 * object whose setters convert ids and record conversion errors; and the
 * row filters the handlers query and delete with.
 */
module AJClassMember {
  import opened Common

  const CLASS_ID: string := "class_id"
  const USER_ID: string := "user_id"
  const EMAIL: string := "email"
  const CREATOR_SYSTEM: string := "creator_system"
  const ROSTER_ID: string := "roster_id"
  const CLASS_MEMBER_STATUS: string := "class_member_status"
  const STATUS_INVITED: string := "invited"
  const STATUS_JOINED: string := "joined"

  // Message keys of the conversion errors
  const INVALID_CLASS: string := "invalid.class.for.membership"
  const INVALID_USER: string := "invalid.user.for.membership"
  const INVALID_STATUS: string := "invalid.status.for.membership"

  /** A stored membership row; (classId, email) is its primary key. */
  datatype MemberRow = MemberRow(
    classId: string,
    email: string,
    userId: Option<string>,
    status: string,
    creatorSystem: Option<string>,
    rosterId: Option<string>)

  /** The composite primary key. */
  function Key(r: MemberRow): (string, string)
  {
    (r.classId, r.email)
  }

  /** No two rows of a table share a key. */
  predicate KeysUnique(rows: seq<MemberRow>)
  {
    forall i, j :: 0 <= i < j < |rows| ==> Key(rows[i]) != Key(rows[j])
  }

  // Row filters

  /** class_id = ? and user_id = ?: any status. */
  predicate ForUser(r: MemberRow, classId: string, userId: string)
  {
    r.classId == classId && r.userId == Some(userId)
  }

  /** class_id = ? and email = ? */
  predicate ForEmail(r: MemberRow, classId: string, email: string)
  {
    r.classId == classId && r.email == email
  }

  /** class_id = ?: every row of the class (the fetch-all and purge filter). */
  predicate ForClass(r: MemberRow, classId: string)
  {
    r.classId == classId
  }

  /** The remove-student filter: the student's joined row only. */
  predicate RemoveStudentFilter(r: MemberRow, classId: string, userId: string)
  {
    ForUser(r, classId, userId) && r.status == STATUS_JOINED
  }

  /** The delete-invite filter: the address's invited row only. */
  predicate DeleteInviteFilter(r: MemberRow, classId: string, email: string)
  {
    ForEmail(r, classId, email) && r.status == STATUS_INVITED
  }

  /**
   * The two delete filters never select the same row: removing a student
   * leaves invitations alone and deleting an invitation leaves joined
   * students alone. Each narrows the corresponding lookup filter.
   */
  lemma DeleteFiltersAreDisjoint(r: MemberRow, classId: string, userId: string, email: string)
    ensures !(RemoveStudentFilter(r, classId, userId) && DeleteInviteFilter(r, classId, email))
    ensures RemoveStudentFilter(r, classId, userId) ==> ForUser(r, classId, userId) && ForClass(r, classId)
    ensures DeleteInviteFilter(r, classId, email) ==> ForEmail(r, classId, email) && ForClass(r, classId)
  {
  }

  /**
   * An AJClassMember instance. Unset attributes are None; `errors` is the
   * model's error map, filled by the setters when a value cannot be
   * converted.
   */
  class MemberModel {
    var classId: Option<string>
    var email: Option<string>
    var userId: Option<string>
    var status: Option<string>
    var creatorSystem: Option<string>
    var rosterId: Option<string>
    var errors: map<string, string>
    /** True for `new AJClassMember()`, false for a model read from the table. */
    var isNew: bool

    constructor Empty()
      ensures classId.None? && email.None? && userId.None? && status.None?
      ensures creatorSystem.None? && rosterId.None? && errors == map[] && isNew
    {
      classId, email, userId, status := None, None, None, None;
      creatorSystem, rosterId := None, None;
      errors := map[];
      isNew := true;
    }

    constructor Load(row: MemberRow)
      ensures Row() == Some(row) && errors == map[] && !isNew
    {
      classId, email, userId, status := Some(row.classId), Some(row.email), row.userId, Some(row.status);
      creatorSystem, rosterId := row.creatorSystem, row.rosterId;
      errors := map[];
      isNew := false;
    }

    /** The row the model stands for, once its key and status are set. */
    function Row(): (r: Option<MemberRow>)
      reads this
      ensures r.Some? <==> classId.Some? && email.Some? && status.Some?
      ensures r.Some? ==> r.value.userId == userId && r.value.creatorSystem == creatorSystem && r.value.rosterId == rosterId
    {
      if classId.Some? && email.Some? && status.Some? then
        Some(MemberRow(classId.value, email.value, userId, status.value, creatorSystem, rosterId))
      else None
    }

    predicate HasErrors()
      reads this
    {
      |errors| != 0
    }

    /** setClassId: null or empty input changes nothing; a text the driver refuses records an error. */
    method SetClassId(v: Option<string>, p: Parsers)
      modifies this
      ensures NullOrEmpty(v) ==> classId == old(classId) && errors == old(errors)
      ensures !NullOrEmpty(v) && p.pgConverts(v.value) ==> classId == v && errors == old(errors)
      ensures !NullOrEmpty(v) && !p.pgConverts(v.value) ==> classId == old(classId) && errors == old(errors)[CLASS_ID := INVALID_CLASS]
      ensures email == old(email) && userId == old(userId) && status == old(status)
      ensures creatorSystem == old(creatorSystem) && rosterId == old(rosterId) && isNew == old(isNew)
    {
      if v.Some? && |v.value| != 0 {
        if p.pgConverts(v.value) {
          classId := v;
        } else {
          errors := errors[CLASS_ID := INVALID_CLASS];
        }
      }
    }

    /**
     * setUserId: null or empty input changes nothing; a text the driver
     * refuses records an error, under the class_id key.
     */
    method SetUserId(v: Option<string>, p: Parsers)
      modifies this
      ensures NullOrEmpty(v) ==> userId == old(userId) && errors == old(errors)
      ensures !NullOrEmpty(v) && p.pgConverts(v.value) ==> userId == v && errors == old(errors)
      ensures !NullOrEmpty(v) && !p.pgConverts(v.value) ==> userId == old(userId) && errors == old(errors)[CLASS_ID := INVALID_USER]
      ensures classId == old(classId) && email == old(email) && status == old(status)
      ensures creatorSystem == old(creatorSystem) && rosterId == old(rosterId) && isNew == old(isNew)
    {
      if v.Some? && |v.value| != 0 {
        if p.pgConverts(v.value) {
          userId := v;
        } else {
          errors := errors[CLASS_ID := INVALID_USER];
        }
      }
    }

    /** setString(email, ...): stored as given. */
    method SetEmail(v: string)
      modifies this
      ensures email == Some(v)
      ensures classId == old(classId) && userId == old(userId) && status == old(status) && errors == old(errors)
      ensures creatorSystem == old(creatorSystem) && rosterId == old(rosterId) && isNew == old(isNew)
    {
      email := Some(v);
    }

    /** The two status setters share this: the named-type conversion, or an error under class_id. */
    method SetStatus(s: string, p: Parsers)
      modifies this
      ensures p.pgConverts(s) ==> status == Some(s) && errors == old(errors)
      ensures !p.pgConverts(s) ==> status == old(status) && errors == old(errors)[CLASS_ID := INVALID_STATUS]
      ensures classId == old(classId) && email == old(email) && userId == old(userId)
      ensures creatorSystem == old(creatorSystem) && rosterId == old(rosterId) && isNew == old(isNew)
    {
      if p.pgConverts(s) {
        status := Some(s);
      } else {
        errors := errors[CLASS_ID := INVALID_STATUS];
      }
    }

    method SetStatusJoined(p: Parsers)
      modifies this
      ensures p.pgConverts(STATUS_JOINED) ==> status == Some(STATUS_JOINED) && errors == old(errors)
      ensures !p.pgConverts(STATUS_JOINED) ==> status == old(status) && errors == old(errors)[CLASS_ID := INVALID_STATUS]
      ensures classId == old(classId) && email == old(email) && userId == old(userId)
      ensures creatorSystem == old(creatorSystem) && rosterId == old(rosterId) && isNew == old(isNew)
    {
      SetStatus(STATUS_JOINED, p);
    }

    method SetStatusInvited(p: Parsers)
      modifies this
      ensures p.pgConverts(STATUS_INVITED) ==> status == Some(STATUS_INVITED) && errors == old(errors)
      ensures !p.pgConverts(STATUS_INVITED) ==> status == old(status) && errors == old(errors)[CLASS_ID := INVALID_STATUS]
      ensures classId == old(classId) && email == old(email) && userId == old(userId)
      ensures creatorSystem == old(creatorSystem) && rosterId == old(rosterId) && isNew == old(isNew)
    {
      SetStatus(STATUS_INVITED, p);
    }

    /** setCreatorSystem: null is ignored; any string, the empty one included, is stored. */
    method SetCreatorSystem(v: Option<string>)
      modifies this
      ensures creatorSystem == (if v.Some? then v else old(creatorSystem))
      ensures classId == old(classId) && email == old(email) && userId == old(userId) && status == old(status)
      ensures rosterId == old(rosterId) && errors == old(errors) && isNew == old(isNew)
    {
      if v.Some? {
        creatorSystem := v;
      }
    }

    /** setRosterId: null is ignored; any string, the empty one included, is stored. */
    method SetRosterId(v: Option<string>)
      modifies this
      ensures rosterId == (if v.Some? then v else old(rosterId))
      ensures classId == old(classId) && email == old(email) && userId == old(userId) && status == old(status)
      ensures creatorSystem == old(creatorSystem) && errors == old(errors) && isNew == old(isNew)
    {
      if v.Some? {
        rosterId := v;
      }
    }
  }
}

/**
 * The relational store the handlers talk to, as in-memory tables: the
 * `class` and `class_member` tables this service owns, and the `course`,
 * `unit`, `lesson` and `collection` tables it reads (and, for the
 * visibility column of `collection`, writes). Every SQL statement the
 * handlers issue is a function over these tables; the `Database` object
 * holds the current tables and the statements that raise a store error.
 */
module Store {
  import opened Common
  import opened Json
  import C = AJEntityClass
  import M = AJClassMember
  import I = AJEntityCollection

  /** A row of `course`: only the columns the ownership check reads. */
  datatype Course = Course(id: string, ownerId: string, isDeleted: bool)

  /** A row of `unit` or `lesson`: its own id and its course. */
  datatype Content = Content(id: string, courseId: string, isDeleted: bool)

  datatype Db = Db(
    classes: seq<C.ClassRow>,
    members: seq<M.MemberRow>,
    items: seq<I.Item>,
    courses: seq<Course>,
    units: seq<Content>,
    lessons: seq<Content>)

  const DB_ERROR: string := "org.javalite.activejdbc.DBException"

  /** The kinds of statement the handlers issue; a `Database` raises on those in its fault set. */
  datatype StoreOp =
    | FindClass | FindClassByCode | CountCode | SaveClass
    | FindMembers | SaveMember | PurgeMembers | RemoveStudent | InviteBatch
    | CountCourse | CountUnits | CountLessons | CountItems
    | MarkVisible | FindVisible | FindNonVisible
    | FindOwned | FindMemberships | CountMembers | ClassDetails | ClassesForCourse
    | TeacherDetails | Demographics

  // ---------------------------------------------------------------------------
  // Generic row selection

  /** The rows satisfying `p`, in table order. */
  function Filter<T(!new)>(s: seq<T>, p: T -> bool): (r: seq<T>)
    ensures |r| <= |s|
    ensures forall x :: x in r <==> x in s && p(x)
  {
    if |s| == 0 then []
    else (if p(s[0]) then [s[0]] else []) + Filter(s[1..], p)
  }

  /** `LazyList.get(0)` of a query: the first row satisfying `p`, if any. */
  function First<T>(s: seq<T>, p: T -> bool): (r: Option<T>)
    ensures r.None? <==> forall i :: 0 <= i < |s| ==> !p(s[i])
    ensures r.Some? ==> exists i :: 0 <= i < |s| && s[i] == r.value && p(s[i]) && forall j :: 0 <= j < i ==> !p(s[j])
  {
    if |s| == 0 then None
    else if p(s[0]) then Some(s[0])
    else
      var r := First(s[1..], p);
      if r.Some? then
        ghost var i :| 0 <= i < |s[1..]| && s[1..][i] == r.value && p(s[1..][i]) && forall j :: 0 <= j < i ==> !p(s[1..][j]);
        assert s[i + 1] == r.value && forall j :: 0 <= j < i + 1 ==> !p(s[j]);
        r
      else r
  }

  function Reverse<T(!new)>(s: seq<T>): (r: seq<T>)
    ensures |r| == |s| && forall i :: 0 <= i < |s| ==> r[i] == s[|s| - 1 - i]
    ensures forall x :: x in r <==> x in s
  {
    if |s| == 0 then [] else Reverse(s[1..]) + [s[0]]
  }

  // ---------------------------------------------------------------------------
  // The class table

  /** FETCH_QUERY_FILTER: `id = ? and is_deleted = false`. */
  predicate LiveWithId(row: C.ClassRow, id: string)
  {
    C.Live(row) && C.Id(row) == Some(id)
  }

  function FindLiveClass(db: Db, id: string): (r: Option<C.ClassRow>)
    ensures r.Some? ==> LiveWithId(r.value, id) && r.value in db.classes
    ensures r.None? <==> forall k :: 0 <= k < |db.classes| ==> !LiveWithId(db.classes[k], id)
  {
    First(db.classes, row => LiveWithId(row, id))
  }

  /** FETCH_VIA_CODE_FILTER: `code = ? and is_deleted = false`. */
  function FindLiveClassByCode(db: Db, code: string): (r: Option<C.ClassRow>)
    ensures r.Some? ==> C.Live(r.value) && C.Code(r.value) == Some(code) && r.value in db.classes
    ensures r.None? <==> forall k :: 0 <= k < |db.classes| ==> !(C.Live(db.classes[k]) && C.Code(db.classes[k]) == Some(code))
  {
    First(db.classes, row => C.Live(row) && C.Code(row) == Some(code))
  }

  /** CODE_UNIQUENESS_QUERY counts deleted classes too. */
  function CodeCount(db: Db, code: string): (n: nat)
    ensures n == 0 <==> forall k :: 0 <= k < |db.classes| ==> C.Code(db.classes[k]) != Some(code)
  {
    var rows := Filter(db.classes, row => C.Code(row) == Some(code));
    assert |rows| != 0 ==> rows[0] in rows;
    assert (exists k :: 0 <= k < |db.classes| && C.Code(db.classes[k]) == Some(code)) ==> |rows| != 0 by {
      if exists k :: 0 <= k < |db.classes| && C.Code(db.classes[k]) == Some(code) {
        var k :| 0 <= k < |db.classes| && C.Code(db.classes[k]) == Some(code);
        assert db.classes[k] in rows;
      }
    }
    |rows|
  }

  /** FETCH_FOR_COURSE_QUERY_FILTER: the live classes of a course, in table order. */
  function ClassesOfCourse(db: Db, courseId: string): (r: seq<C.ClassRow>)
    ensures forall row :: row in r <==> row in db.classes && C.Live(row) && C.CourseId(row) == Some(courseId)
  {
    Filter(db.classes, row => C.Live(row) && C.CourseId(row) == Some(courseId))
  }

  /** The owner-or-collaborator condition of FETCH_FOR_OWNER_COLLABORATOR_QUERY. */
  predicate OwnedOrCollaboratedBy(row: C.ClassRow, user: string)
  {
    C.Live(row) && (C.CreatorId(row) == Some(user) || Str(user) in C.Collaborators(row))
  }

  /**
   * FETCH_FOR_OWNER_COLLABORATOR_QUERY, newest first: rows are appended
   * in creation order, so `created_at desc` is reverse table order.
   */
  function OwnedOrCollaborated(db: Db, user: string): (r: seq<C.ClassRow>)
    ensures forall row :: row in r <==> row in db.classes && OwnedOrCollaboratedBy(row, user)
  {
    Reverse(Filter(db.classes, row => OwnedOrCollaboratedBy(row, user)))
  }

  /** FETCH_MULTIPLE_QUERY_FILTER: the live classes whose id is in the list. */
  function ClassesWithIds(db: Db, ids: seq<string>): (r: seq<C.ClassRow>)
    ensures forall row :: row in r <==> row in db.classes && C.Live(row) && C.Id(row).Some? && C.Id(row).value in ids
  {
    Filter(db.classes, row => C.Live(row) && C.Id(row).Some? && C.Id(row).value in ids)
  }

  /** The row a new class gets from the table's column defaults before its own attributes. */
  const CLASS_DEFAULTS: C.ClassRow := map[C.IS_DELETED := Bool(false), C.IS_ARCHIVED := Bool(false)]

  /** An insert of a new class under the id the database generates; a duplicate id violates the primary key. */
  function InsertClass(classes: seq<C.ClassRow>, attrs: C.ClassRow, newId: string): (r: Throws<seq<C.ClassRow>>)
    ensures r.Thrown? <==> exists k :: 0 <= k < |classes| && C.Id(classes[k]) == Some(newId)
    ensures r.Normal? ==> r.value == classes + [(CLASS_DEFAULTS + attrs)[C.ID := Str(newId)]]
  {
    if exists k :: 0 <= k < |classes| && C.Id(classes[k]) == Some(newId) then Thrown(DB_ERROR)
    else Normal(classes + [(CLASS_DEFAULTS + attrs)[C.ID := Str(newId)]])
  }

  /** `update class set <changes> where id = ?`: every row with the id takes the changed attributes. */
  function UpdateClass(classes: seq<C.ClassRow>, id: string, changes: C.ClassRow): (r: seq<C.ClassRow>)
    ensures |r| == |classes|
    ensures forall k :: 0 <= k < |classes| ==>
              r[k] == if C.Id(classes[k]) == Some(id) then classes[k] + changes else classes[k]
  {
    seq(|classes|, k requires 0 <= k < |classes| => if C.Id(classes[k]) == Some(id) then classes[k] + changes else classes[k])
  }

  // ---------------------------------------------------------------------------
  // The class_member table

  /** FETCH_FOR_USER_QUERY_FILTER: the caller's rows in the class, whatever their status. */
  function MembershipsOf(db: Db, classId: string, userId: string): (r: seq<M.MemberRow>)
    ensures forall m :: m in r <==> m in db.members && M.ForUser(m, classId, userId)
  {
    Filter(db.members, (m: M.MemberRow) => M.ForUser(m, classId, userId))
  }

  /** FETCH_FOR_EMAIL_QUERY_FILTER, first row. */
  function MemberByEmail(db: Db, classId: string, email: string): (r: Option<M.MemberRow>)
    ensures r.Some? ==> r.value in db.members && M.ForEmail(r.value, classId, email)
    ensures r.None? <==> forall k :: 0 <= k < |db.members| ==> !M.ForEmail(db.members[k], classId, email)
  {
    First(db.members, (m: M.MemberRow) => M.ForEmail(m, classId, email))
  }

  /** FETCH_FOR_MULTIPLE_EMAILS_QUERY_FILTER. */
  function MembersWithEmails(db: Db, classId: string, emails: seq<string>): (r: seq<M.MemberRow>)
    ensures forall m :: m in r <==> m in db.members && m.classId == classId && m.email in emails
  {
    Filter(db.members, (m: M.MemberRow) => m.classId == classId && m.email in emails)
  }

  /** A selection from a table whose keys are unique has unique keys. */
  lemma {:induction false} FilterKeepsKeysUnique(s: seq<M.MemberRow>, p: M.MemberRow -> bool)
    requires M.KeysUnique(s)
    ensures M.KeysUnique(Filter(s, p))
  {
    if |s| > 0 {
      assert M.KeysUnique(s[1..]);
      FilterKeepsKeysUnique(s[1..], p);
      var tail := Filter(s[1..], p);
      forall m | m in tail ensures M.Key(m) != M.Key(s[0]) {
        var j :| 0 <= j < |s[1..]| && s[1..][j] == m;
        assert s[j + 1] == m;
      }
    }
  }

  /** FETCH_ALL_QUERY_FILTER. */
  function MembersOfClass(db: Db, classId: string): (r: seq<M.MemberRow>)
    ensures forall m :: m in r <==> m in db.members && M.ForClass(m, classId)
  {
    Filter(db.members, (m: M.MemberRow) => M.ForClass(m, classId))
  }

  /** Whether a class id names a live class. */
  predicate ClassIsLive(db: Db, classId: string)
  {
    exists k :: 0 <= k < |db.classes| && LiveWithId(db.classes[k], classId)
  }

  /** The class column of a list of member rows. */
  function ClassIds(rows: seq<M.MemberRow>): (r: seq<string>)
    ensures |r| == |rows| && forall k :: 0 <= k < |rows| ==> r[k] == rows[k].classId
  {
    seq(|rows|, k requires 0 <= k < |rows| => rows[k].classId)
  }

  /** FETCH_USER_MEMBERSHIP_QUERY: the classes the user has joined, among live classes. */
  function JoinedClassIds(db: Db, userId: string): (r: seq<string>)
    ensures forall c :: c in r <==> exists m :: m in db.members && m.userId == Some(userId) && m.status == M.STATUS_JOINED
                                                && m.classId == c && ClassIsLive(db, c)
  {
    var rows := Filter(db.members, (m: M.MemberRow) => m.userId == Some(userId) && m.status == M.STATUS_JOINED && ClassIsLive(db, m.classId));
    var r := ClassIds(rows);
    assert forall c :: c in r ==> exists m :: m in rows && m.classId == c by {
      forall c | c in r ensures exists m :: m in rows && m.classId == c {
        var k :| 0 <= k < |r| && r[k] == c;
        assert rows[k] in rows;
      }
    }
    assert forall m :: m in rows ==> m.classId in r by {
      forall m | m in rows ensures m.classId in r {
        var k :| 0 <= k < |rows| && rows[k] == m;
        assert r[k] == m.classId;
      }
    }
    r
  }

  /** The number of joined rows of a class. */
  function JoinedCount(db: Db, classId: string): nat
  {
    |Filter(db.members, (m: M.MemberRow) => m.classId == classId && m.status == M.STATUS_JOINED)|
  }

  /**
   * FETCH_MEMBERSHIP_COUNT_FOR_CLASSES: joined-member counts grouped by
   * class, for the listed classes; a class without joined members has no
   * group and so no entry.
   */
  function MemberCounts(db: Db, classIds: seq<string>): (r: map<string, nat>)
    ensures forall c :: c in r <==> c in classIds && JoinedCount(db, c) > 0
    ensures forall c :: c in r ==> r[c] == JoinedCount(db, c)
  {
    map c | c in classIds && JoinedCount(db, c) > 0 :: JoinedCount(db, c)
  }

  /** DELETE_MEMBERSHIP_FOR_CLASS_QUERY. */
  function PurgedMembers(members: seq<M.MemberRow>, classId: string): (r: seq<M.MemberRow>)
    ensures forall m :: m in r <==> m in members && !M.ForClass(m, classId)
  {
    Filter(members, (m: M.MemberRow) => !M.ForClass(m, classId))
  }

  /** Deleting with REMOVE_STUDENT_QUERY_FILTER. */
  function RemoveJoined(members: seq<M.MemberRow>, classId: string, userId: string): (r: seq<M.MemberRow>)
    ensures forall m :: m in r <==> m in members && !M.RemoveStudentFilter(m, classId, userId)
  {
    Filter(members, (m: M.MemberRow) => !M.RemoveStudentFilter(m, classId, userId))
  }

  /** The invited rows INVITE_STUDENT_QUERY inserts for a batch of addresses. */
  function InvitedRows(classId: string, emails: seq<string>, creatorSystem: Option<string>): (r: seq<M.MemberRow>)
    ensures |r| == |emails|
    ensures forall k :: 0 <= k < |emails| ==> r[k] == M.MemberRow(classId, emails[k], None, M.STATUS_INVITED, creatorSystem, None)
  {
    seq(|emails|, k requires 0 <= k < |emails| => M.MemberRow(classId, emails[k], None, M.STATUS_INVITED, creatorSystem, None))
  }

  /** A batch whose rows clash with the table or with each other on (class_id, email). */
  predicate BatchClashes(members: seq<M.MemberRow>, classId: string, emails: seq<string>)
  {
    (exists k :: 0 <= k < |members| && members[k].classId == classId && members[k].email in emails)
    || (exists i, j :: 0 <= i < j < |emails| && emails[i] == emails[j])
  }

  /** The invite batch: all rows are inserted, or a key violation fails the whole batch. */
  function InsertInvited(members: seq<M.MemberRow>, classId: string, emails: seq<string>, creatorSystem: Option<string>)
    : (r: Throws<seq<M.MemberRow>>)
    ensures r.Thrown? <==> BatchClashes(members, classId, emails)
    ensures r.Normal? ==> r.value == members + InvitedRows(classId, emails, creatorSystem)
  {
    if BatchClashes(members, classId, emails) then Thrown(DB_ERROR)
    else Normal(members + InvitedRows(classId, emails, creatorSystem))
  }

  /** An insert keeps the keys unique exactly when it does not throw. */
  lemma InsertInvitedKeepsKeysUnique(members: seq<M.MemberRow>, classId: string, emails: seq<string>, cs: Option<string>)
    requires M.KeysUnique(members)
    requires InsertInvited(members, classId, emails, cs).Normal?
    ensures M.KeysUnique(InsertInvited(members, classId, emails, cs).value)
  {
    var r := InsertInvited(members, classId, emails, cs).value;
    var added := InvitedRows(classId, emails, cs);
    forall i, j | 0 <= i < j < |r| ensures M.Key(r[i]) != M.Key(r[j]) {
      if j >= |members| {
        assert r[j] == added[j - |members|];
        if i >= |members| {
          assert r[i] == added[i - |members|];
        } else {
          assert r[i] == members[i];
        }
      }
    }
  }

  // ---------------------------------------------------------------------------
  // Course content

  /** COURSE_ASSOCIATION_FILTER count: live courses with the id owned by the user; a null id matches nothing. */
  function CourseCount(db: Db, courseId: Option<string>, userId: string): nat
  {
    if courseId.None? then 0
    else |Filter(db.courses, (c: Course) => c.id == courseId.value && !c.isDeleted && c.ownerId == userId)|
  }

  /** UNITS_QUERY_FILTER / LESSONS_QUERY_FILTER counts. */
  function ContentCount(rows: seq<Content>, courseId: string, ids: seq<string>): nat
  {
    |Filter(rows, (r: Content) => r.courseId == courseId && r.id in ids && !r.isDeleted)|
  }

  /** The collection count with `course_id = ? and id = any(?) and is_deleted = false`. */
  function ItemCount(items: seq<I.Item>, courseId: string, ids: seq<string>): nat
  {
    |Filter(items, (i: I.Item) => i.courseId == courseId && i.id in ids && !i.isDeleted)|
  }

  /** FETCH_VISIBLE_ASSESSMENTS_QUERY / FETCH_VISIBLE_ITEMS_QUERY: the course's live items visible to the class. */
  function VisibleItems(db: Db, courseId: string, classId: string, f: I.FormatFilter): (r: seq<I.Item>)
    ensures forall i :: i in r <==> i in db.items && I.VisibleIn(courseId, classId, f, i)
  {
    Filter(db.items, i => I.VisibleIn(courseId, classId, f, i))
  }

  /**
   * A visibility update (`class_visibility = class_visibility || '["classId"]'`):
   * the class id is appended to every targeted item's array, a targeted item
   * whose column is NULL keeps NULL, and no other item changes.
   */
  function WithVisibility(items: seq<I.Item>, classId: string, s: I.Scope, f: I.FormatFilter, ids: seq<string>): (r: seq<I.Item>)
    ensures |r| == |items|
    ensures forall k :: 0 <= k < |items| && I.UpdateTarget(s, f, ids, items[k]) ==>
              r[k] == items[k].(classVisibility := I.WithClass(items[k].classVisibility, classId))
    ensures forall k :: 0 <= k < |items| && !I.UpdateTarget(s, f, ids, items[k]) ==> r[k] == items[k]
  {
    seq(|items|, k requires 0 <= k < |items| =>
      if I.UpdateTarget(s, f, ids, items[k]) then items[k].(classVisibility := I.WithClass(items[k].classVisibility, classId)) else items[k])
  }

  /**
   * Marking the same items visible twice is the same as once; afterwards
   * every targeted item whose column was not NULL is visible to the class,
   * and every targeted item whose column was NULL is left as it was.
   */
  lemma MarkVisibleIdempotent(items: seq<I.Item>, classId: string, s: I.Scope, f: I.FormatFilter, ids: seq<string>)
    ensures var once := WithVisibility(items, classId, s, f, ids);
            WithVisibility(once, classId, s, f, ids) == once
            && (forall k :: 0 <= k < |once| && I.UpdateTarget(s, f, ids, items[k]) ==>
                  (I.VisibleTo(once[k], classId) <==> items[k].classVisibility.Some?))
            && (forall k :: 0 <= k < |once| && items[k].classVisibility.None? ==> once[k] == items[k])
  {
    var once := WithVisibility(items, classId, s, f, ids);
    var twice := WithVisibility(once, classId, s, f, ids);
    forall k | 0 <= k < |items| ensures twice[k] == once[k] {
      if I.UpdateTarget(s, f, ids, items[k]) {
        assert I.UpdateTarget(s, f, ids, once[k]);
        if items[k].classVisibility.Some? {
          assert once[k].classVisibility.value + {classId} == once[k].classVisibility.value;
        }
      } else {
        assert !I.UpdateTarget(s, f, ids, once[k]);
      }
    }
  }

  // ---------------------------------------------------------------------------
  // The database object

  /**
   * The database a request works on: the current tables, and the kinds of
   * statement that raise a store error while this request runs.
   */
  class Database {
    var db: Db
    const faults: set<StoreOp>

    constructor (init: Db, faults: set<StoreOp>)
      ensures db == init && this.faults == faults
    {
      db := init;
      this.faults := faults;
    }

    predicate Fails(op: StoreOp)
    {
      op in faults
    }

    /**
     * Model.save of a class: an insert under `newId` for a new model, an
     * update of the changed attributes otherwise; the boolean is whether a
     * row was written.
     */
    method SaveClass(m: C.ClassModel, newId: string) returns (r: Throws<bool>)
      modifies this
      ensures Fails(StoreOp.SaveClass) ==> r.Thrown? && db == old(db)
      ensures !Fails(StoreOp.SaveClass) && m.isNew ==>
                match InsertClass(old(db.classes), m.attrs, newId)
                case Thrown(e) => r == Thrown(e) && db == old(db)
                case Normal(rows) => r == Normal(true) && db == old(db).(classes := rows)
      ensures !Fails(StoreOp.SaveClass) && !m.isNew ==>
                match C.Id(m.attrs)
                case None => r.Thrown? && db == old(db)
                case Some(id) => db == old(db).(classes := UpdateClass(old(db.classes), id, m.Changes()))
                                 && r == Normal(exists k :: 0 <= k < |old(db.classes)| && C.Id(old(db.classes)[k]) == Some(id))
    {
      if Fails(StoreOp.SaveClass) {
        return Thrown(DB_ERROR);
      }
      if m.isNew {
        var ins := InsertClass(db.classes, m.attrs, newId);
        if ins.Thrown? {
          return Thrown(ins.message);
        }
        db := db.(classes := ins.value);
        return Normal(true);
      }
      var id := C.Id(m.attrs);
      if id.None? {
        return Thrown(NULL_REFERENCE);
      }
      var found := exists k :: 0 <= k < |db.classes| && C.Id(db.classes[k]) == Some(id.value);
      db := db.(classes := UpdateClass(db.classes, id.value, m.Changes()));
      return Normal(found);
    }

    /**
     * Model.save of a membership: a new model is inserted, which needs its
     * key and status and a free key; a loaded one replaces the row with its key.
     */
    method SaveMember(m: M.MemberModel) returns (r: Throws<bool>)
      modifies this
      ensures Fails(StoreOp.SaveMember) ==> r.Thrown? && db == old(db)
      ensures !Fails(StoreOp.SaveMember) && m.Row().None? ==> r.Thrown? && db == old(db)
      ensures !Fails(StoreOp.SaveMember) && m.Row().Some? && m.isNew ==>
                if exists k :: 0 <= k < |old(db.members)| && M.Key(old(db.members)[k]) == M.Key(m.Row().value)
                then r.Thrown? && db == old(db)
                else r == Normal(true) && db == old(db).(members := old(db.members) + [m.Row().value])
      ensures !Fails(StoreOp.SaveMember) && m.Row().Some? && !m.isNew ==>
                r.Normal? && db == old(db).(members := ReplaceMember(old(db.members), m.Row().value))
    {
      if Fails(StoreOp.SaveMember) {
        return Thrown(DB_ERROR);
      }
      var row := m.Row();
      if row.None? {
        return Thrown(DB_ERROR);
      }
      if m.isNew {
        if exists k :: 0 <= k < |db.members| && M.Key(db.members[k]) == M.Key(row.value) {
          return Thrown(DB_ERROR);
        }
        db := db.(members := db.members + [row.value]);
        return Normal(true);
      }
      db := db.(members := ReplaceMember(db.members, row.value));
      return Normal(true);
    }

    /** Runs a member-table deletion or insertion computed by one of the functions above. */
    method WriteMembers(op: StoreOp, rows: Throws<seq<M.MemberRow>>) returns (r: Throws<()>)
      modifies this
      ensures (Fails(op) || rows.Thrown?) ==> r.Thrown? && db == old(db)
      ensures !Fails(op) && rows.Normal? ==> r.Normal? && db == old(db).(members := rows.value)
    {
      if Fails(op) {
        return Thrown(DB_ERROR);
      }
      if rows.Thrown? {
        return Thrown(rows.message);
      }
      db := db.(members := rows.value);
      return Normal(());
    }

    /** Runs one of the visibility updates. */
    method UpdateVisibility(classId: string, s: I.Scope, f: I.FormatFilter, ids: seq<string>) returns (r: Throws<()>)
      modifies this
      ensures Fails(StoreOp.MarkVisible) ==> r.Thrown? && db == old(db)
      ensures !Fails(StoreOp.MarkVisible) ==> r.Normal? && db == old(db).(items := WithVisibility(old(db.items), classId, s, f, ids))
    {
      if Fails(StoreOp.MarkVisible) {
        return Thrown(DB_ERROR);
      }
      db := db.(items := WithVisibility(db.items, classId, s, f, ids));
      return Normal(());
    }
  }

  /** An update by primary key: the row with the same key is replaced. */
  function ReplaceMember(members: seq<M.MemberRow>, row: M.MemberRow): (r: seq<M.MemberRow>)
    ensures |r| == |members|
    ensures forall k :: 0 <= k < |members| ==> r[k] == if M.Key(members[k]) == M.Key(row) then row else members[k]
  {
    seq(|members|, k requires 0 <= k < |members| => if M.Key(members[k]) == M.Key(row) then row else members[k])
  }
}

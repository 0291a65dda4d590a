/**
 * The domain events a successful request emits: each is a name and a body.
 */
module EventBuilderFactory {
  import opened Json
  import opened Responses
  import opened Common

  const EVT_CLASS_CREATE: string := "event.class.create"
  const EVT_CLASS_UPDATE: string := "event.class.update"
  const EVT_CLASS_DELETE: string := "event.class.delete"
  const EVT_CLASS_STUDENT_INVITE: string := "event.class.student.invite"
  const EVT_CLASS_STUDENT_JOIN: string := "event.class.student.join"
  const EVT_CLASS_COLLABORATOR_UPDATE: string := "event.class.collaborator.join"
  const EVT_CLASS_COURSE_ASSIGNED: string := "event.class.course.assigned"
  const EVT_CLASS_CONTENT_VISIBLE: string := "event.class.content.visible"

  const CLASS_ID: string := "id"
  const STUDENT_ID: string := "studentId"
  const COURSE_ID: string := "courseId"
  const INVITEES: string := "invitees"

  function EventNames(): seq<string>
  {
    [EVT_CLASS_CREATE, EVT_CLASS_UPDATE, EVT_CLASS_DELETE, EVT_CLASS_STUDENT_INVITE,
     EVT_CLASS_STUDENT_JOIN, EVT_CLASS_COLLABORATOR_UPDATE, EVT_CLASS_COURSE_ASSIGNED, EVT_CLASS_CONTENT_VISIBLE]
  }

  /** No two of the eight events share a name, so a consumer can tell every event apart by name. */
  lemma EventNamesDistinct()
    ensures |EventNames()| == 8
    ensures forall i, j :: 0 <= i < j < 8 ==> EventNames()[i] != EventNames()[j]
  {
    var n := EventNames();
    forall i, j | 0 <= i < j < 8
      ensures n[i] != n[j]
    {
      // names of equal length differ at index 12 ("create"/"update"/"delete") or 14 ("course"/"content")
      if |n[i]| == |n[j]| {
        assert n[i][12] != n[j][12] || n[i][14] != n[j][14];
      }
    }
  }

  function DeleteClassEvent(classId: string): (e: Event)
    ensures e.name == EVT_CLASS_DELETE && e.body.Keys == {CLASS_ID} && e.body[CLASS_ID] == Str(classId)
  {
    Event(EVT_CLASS_DELETE, map[CLASS_ID := Str(classId)])
  }

  function CreateClassEvent(classId: string): (e: Event)
    ensures e.name == EVT_CLASS_CREATE && e.body.Keys == {CLASS_ID} && e.body[CLASS_ID] == Str(classId)
  {
    Event(EVT_CLASS_CREATE, map[CLASS_ID := Str(classId)])
  }

  function UpdateClassEvent(classId: string): (e: Event)
    ensures e.name == EVT_CLASS_UPDATE && e.body.Keys == {CLASS_ID} && e.body[CLASS_ID] == Str(classId)
  {
    Event(EVT_CLASS_UPDATE, map[CLASS_ID := Str(classId)])
  }

  function StudentInvitedEvent(classId: string, invitees: seq<Value>): (e: Event)
    ensures e.name == EVT_CLASS_STUDENT_INVITE && e.body.Keys == {CLASS_ID, INVITEES}
    ensures e.body[CLASS_ID] == Str(classId) && e.body[INVITEES] == Arr(invitees)
  {
    Event(EVT_CLASS_STUDENT_INVITE, map[CLASS_ID := Str(classId), INVITEES := Arr(invitees)])
  }

  function StudentJoinedEvent(classId: string, studentId: string): (e: Event)
    ensures e.name == EVT_CLASS_STUDENT_JOIN && e.body.Keys == {CLASS_ID, STUDENT_ID}
    ensures e.body[CLASS_ID] == Str(classId) && e.body[STUDENT_ID] == Str(studentId)
  {
    Event(EVT_CLASS_STUDENT_JOIN, map[CLASS_ID := Str(classId), STUDENT_ID := Str(studentId)])
  }

  function CourseAssignedEvent(classId: string, courseId: string): (e: Event)
    ensures e.name == EVT_CLASS_COURSE_ASSIGNED && e.body.Keys == {CLASS_ID, COURSE_ID}
    ensures e.body[CLASS_ID] == Str(classId) && e.body[COURSE_ID] == Str(courseId)
  {
    Event(EVT_CLASS_COURSE_ASSIGNED, map[CLASS_ID := Str(classId), COURSE_ID := Str(courseId)])
  }

  /** What a consumer can learn from an event built by one of the value-only builders above. */
  datatype Announcement =
    | ClassDeleted(classId: string)
    | ClassCreated(classId: string)
    | ClassUpdated(classId: string)
    | StudentsInvited(classId: string, invitees: seq<Value>)
    | StudentJoined(classId: string, studentId: string)
    | CourseAssignedTo(classId: string, courseId: string)

  /** The event each announcement is published as. */
  function Announce(a: Announcement): Event
  {
    match a
    case ClassDeleted(c) => DeleteClassEvent(c)
    case ClassCreated(c) => CreateClassEvent(c)
    case ClassUpdated(c) => UpdateClassEvent(c)
    case StudentsInvited(c, i) => StudentInvitedEvent(c, i)
    case StudentJoined(c, s) => StudentJoinedEvent(c, s)
    case CourseAssignedTo(c, k) => CourseAssignedEvent(c, k)
  }

  /** A consumer's reading of an event: dispatch on the name, then read the body's fields. */
  function Recover(e: Event): Option<Announcement>
  {
    if CLASS_ID !in e.body || !e.body[CLASS_ID].Str? then None
    else
      var c := e.body[CLASS_ID].s;
      if e.name == EVT_CLASS_DELETE then Some(ClassDeleted(c))
      else if e.name == EVT_CLASS_CREATE then Some(ClassCreated(c))
      else if e.name == EVT_CLASS_UPDATE then Some(ClassUpdated(c))
      else if e.name == EVT_CLASS_STUDENT_INVITE then
        if INVITEES in e.body && e.body[INVITEES].Arr? then Some(StudentsInvited(c, e.body[INVITEES].items)) else None
      else if e.name == EVT_CLASS_STUDENT_JOIN then
        if STUDENT_ID in e.body && e.body[STUDENT_ID].Str? then Some(StudentJoined(c, e.body[STUDENT_ID].s)) else None
      else if e.name == EVT_CLASS_COURSE_ASSIGNED then
        if COURSE_ID in e.body && e.body[COURSE_ID].Str? then Some(CourseAssignedTo(c, e.body[COURSE_ID].s)) else None
      else None
  }

  /**
   * Every event the six value-only builders produce can be read back: its
   * name tells which builder made it and its body gives back every argument.
   * In particular two different announcements are never published as the
   * same event.
   */
  lemma RecoverAnnounce(a: Announcement)
    ensures Recover(Announce(a)) == Some(a)
  {
  }

  /** Publishing is one-to-one: different announcements give different events. */
  lemma AnnounceInjective(a: Announcement, b: Announcement)
    ensures Announce(a) == Announce(b) ==> a == b
  {
    RecoverAnnounce(a);
    RecoverAnnounce(b);
  }

  /**
   * The collaborator-update event: "id" is put into the object the caller
   * passed in, and that same object is the event body.
   */
  method CollaboratorUpdatedEvent(classId: string, collaborators: JsonBox) returns (e: Event)
    modifies collaborators
    ensures collaborators.fields == old(collaborators.fields)[CLASS_ID := Str(classId)]
    ensures e == Event(EVT_CLASS_COLLABORATOR_UPDATE, collaborators.fields)
  {
    collaborators.Put(CLASS_ID, Str(classId));
    e := Event(EVT_CLASS_COLLABORATOR_UPDATE, collaborators.fields);
  }

  /**
   * The content-visible event: "id" is put into the object the caller passed
   * in (the request itself), and that same object is the event body.
   */
  method ContentVisibleEvent(classId: string, visibleContents: JsonBox) returns (e: Event)
    modifies visibleContents
    ensures visibleContents.fields == old(visibleContents.fields)[CLASS_ID := Str(classId)]
    ensures e == Event(EVT_CLASS_CONTENT_VISIBLE, visibleContents.fields)
  {
    visibleContents.Put(CLASS_ID, Str(classId));
    e := Event(EVT_CLASS_CONTENT_VISIBLE, visibleContents.fields);
  }
}

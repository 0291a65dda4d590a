/**
 * The immutable request context every handler reads: caller id, caller
 * preferences, request payload and the ids taken from the message headers.
 */
module ProcessorContext {
  import opened Common
  import opened Json

  /**
   * The context. `classCode`, `courseId` and `studentId` are read by the
   * handlers through accessors that the shown ProcessorContext does not
   * declare; they are carried here as further immutable header values.
   * Being a value, `prefs` cannot be changed through what a caller reads.
   */
  datatype Context = Context(
    userId: string,
    prefs: JsonObject,
    request: Option<JsonObject>,
    classId: Option<string>,
    classCode: Option<string>,
    courseId: Option<string>,
    studentId: Option<string>)

  /**
   * The constructor: IllegalStateException when the user id is null or the
   * preferences are null or empty; otherwise every argument is kept as given.
   */
  function NewContext(userId: Option<string>, prefs: Option<JsonObject>, request: Option<JsonObject>,
                      classId: Option<string>, classCode: Option<string>, courseId: Option<string>,
                      studentId: Option<string>): (r: Throws<Context>)
    ensures r.Normal? <==> userId.Some? && prefs.Some? && |prefs.value| != 0
    ensures r.Normal? ==> r.value.userId == userId.value && r.value.prefs == prefs.value
                          && r.value.request == request && r.value.classId == classId
                          && r.value.classCode == classCode && r.value.courseId == courseId
                          && r.value.studentId == studentId
  {
    if prefs.None? || userId.None? || |prefs.value| == 0 then Thrown("java.lang.IllegalStateException")
    else Normal(Context(userId.value, prefs.value, request, classId, classCode, courseId, studentId))
  }
}

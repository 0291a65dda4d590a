/**
 * Predicates over ids and over the request context.
 */
module ProcessorContextHelper {
  import opened Common
  import opened Json
  import opened ProcessorContext

  /** The preference key holding the caller's e-mail address. */
  const EMAIL: string := "email"

  /** A user id: non-empty, and "anonymous" (ignoring case) or a UUID. */
  predicate ValidateUser(userId: Option<string>, p: Parsers)
  {
    !NullOrEmpty(userId) && (EqualsIgnoreCase(userId.value, ANONYMOUS) || p.isUuid(userId.value))
  }

  /** An entity id: non-empty and a UUID. UUID.fromString's exceptions all map to false. */
  predicate ValidateId(id: Option<string>, p: Parsers)
  {
    !NullOrEmpty(id) && p.isUuid(id.value)
  }

  /** Every valid entity id is a valid user id; "anonymous" is a valid user id but never a valid entity id. */
  lemma IdIsUser(id: Option<string>, p: Parsers)
    requires ParsersSound(p)
    ensures ValidateId(id, p) ==> ValidateUser(id, p)
    ensures ValidateUser(Some(ANONYMOUS), p) && !ValidateId(Some(ANONYMOUS), p)
  {
    assert EqualsIgnoreCase(ANONYMOUS, ANONYMOUS);
    assert '-' !in ANONYMOUS;
  }

  predicate ValidateContextForCode(ctx: Context)
  {
    !NullOrEmpty(ctx.classCode)
  }

  /**
   * The e-mail check on the preferences: present, non-empty and containing
   * '@'. A non-string e-mail makes getString's cast throw.
   */
  function ValidatePrefsForEmail(ctx: Context): (r: Throws<bool>)
    ensures r.Thrown? <==> EMAIL in ctx.prefs && !ctx.prefs[EMAIL].Null? && !ctx.prefs[EMAIL].Str?
    ensures r == Normal(true) <==> EMAIL in ctx.prefs && ctx.prefs[EMAIL].Str? && '@' in ctx.prefs[EMAIL].s
  {
    match GetString(ctx.prefs, EMAIL)
    case CastFailure => Thrown(CLASS_CAST)
    case Absent => Normal(false)
    case Found(email) => Normal(|email| != 0 && '@' in email)
  }

  predicate ValidateContextOnlyCourse(ctx: Context, p: Parsers)
  {
    ValidateId(ctx.courseId, p)
  }

  predicate ValidateContext(ctx: Context, p: Parsers)
  {
    ValidateId(ctx.classId, p)
  }

  predicate ValidateContextWithCourse(ctx: Context, p: Parsers)
  {
    ValidateContextOnlyCourse(ctx, p) && ValidateContext(ctx, p)
  }

  /** A context passes the course check only with two UUIDs, so never with an anonymous class or course id. */
  lemma ContextWithCourseNeedsUuids(ctx: Context, p: Parsers)
    requires ParsersSound(p)
    ensures ValidateContextWithCourse(ctx, p) ==> p.isUuid(ctx.courseId.value) && p.isUuid(ctx.classId.value)
    ensures ctx.classId == Some(ANONYMOUS) ==> !ValidateContextWithCourse(ctx, p)
  {
    IdIsUser(ctx.classId, p);
  }
}

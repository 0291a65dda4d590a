/**
 * Checks that several handlers share: the refusal of anonymous callers,
 * the payload check and its verdict, and the version-and-archive check
 * made on a class before it is written.
 */
module HandlerSupport {
  import opened Common
  import opened Json
  import opened Responses
  import opened Messages
  import opened PayloadValidator
  import C = AJEntityClass
  import Store

  /** A caller id that write handlers refuse: empty or "anonymous", ignoring case. */
  predicate Anonymous(userId: string)
  {
    AnonymousOrMissing(Some(userId))
  }

  /** checkSanity's reading of the validator's answer: no errors continues, errors fail validation. */
  function Verdict(errors: Option<JsonObject>): ExecutionResult
  {
    if errors.None? then Continue() else FailValidation(errors.value)
  }

  /**
   * The payload check of checkSanity, through the validator as written: a
   * payload passes exactly when every key is allowed and no validator
   * refuses its value; the mandatory set plays no part. A validator that
   * throws escapes the handler.
   */
  method CheckPayload(input: JsonObject, selector: FieldSelector, registry: ValidatorRegistry) returns (r: Outcome)
    ensures r.Threw? <==> Raises(input, selector, registry)
    ensures r.Returned? ==> r.result == Verdict(AsWritten(input, selector, registry))
    ensures r.Returned? ==>
              (r.result.IsContinue() <==>
                 forall k :: k in input ==> k in selector.allowed && (k in registry ==> registry[k](input[k]) != Normal(false)))
  {
    var errors := ValidatePayload(input, selector, registry);
    if errors.Thrown? {
      return Threw(errors.message);
    }
    AsWrittenMeaning(input, selector, registry);
    return Returned(Verdict(errors.value));
  }

  /**
   * `!isCurrentVersion() || isArchived()` as the write handlers answer it:
   * a class that is archived or of another version is an invalid request;
   * a version that cannot be read escapes as an exception.
   */
  function VersionCheck(row: C.ClassRow): (r: Outcome)
    ensures r.Threw? <==> C.IsCurrentVersion(row).Thrown?
    ensures r == Returned(Continue()) <==> !C.IsArchived(row) && C.IsCurrentVersion(row) == Normal(true)
    ensures r.Returned? && !r.result.IsContinue() ==> r.result == Fail(InvalidRequest, ARCHIVED_OR_INCORRECT_VERSION)
  {
    match C.UsableForWrite(row)
    case Thrown(e) => Threw(e)
    case Normal(usable) => if usable then Returned(Continue()) else Returned(Fail(InvalidRequest, ARCHIVED_OR_INCORRECT_VERSION))
  }

  /** The next check runs only when the previous one continued. */
  function AndThen(first: Outcome, next: Outcome): (r: Outcome)
    ensures r == Returned(Continue()) <==> first == Returned(Continue()) && next == Returned(Continue())
  {
    if first == Returned(Continue()) then next else first
  }

  /** A lookup by the context's class id: a null id matches no row. */
  function FindById(db: Store.Db, classId: Option<string>): (r: Option<C.ClassRow>)
    ensures r.Some? ==> classId.Some? && Store.LiveWithId(r.value, classId.value)
  {
    if classId.None? then None else Store.FindLiveClass(db, classId.value)
  }

  /** Java's string concatenation with a possibly null string: null is spelled "null". */
  function WithText(prefix: string, s: Option<string>): string
  {
    prefix + (if s.Some? then s.value else "null")
  }

  /** The JSON formatter applied to a list of rows: one fetch view per row, in order. */
  function Views(rows: seq<C.ClassRow>): (r: seq<Value>)
    ensures |r| == |rows| && forall k :: 0 <= k < |rows| ==> r[k] == Obj(C.FetchView(rows[k]))
  {
    seq(|rows|, k requires 0 <= k < |rows| => Obj(C.FetchView(rows[k])))
  }
}

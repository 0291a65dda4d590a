/**
 * The payload check every write handler runs in checkSanity: an allow-list
 * of keys, a per-key validator, and (as intended) a list of mandatory keys.
 */
module PayloadValidator {
  import opened Common
  import opened Json

  /** allowedFields, and mandatoryFields (None when the selector does not declare one). */
  datatype FieldSelector = FieldSelector(allowed: set<string>, mandatory: Option<set<string>>)

  /** lookupValidator: a key without an entry has no validator. */
  type ValidatorRegistry = map<string, Value -> Throws<bool>>

  const FIELD_NOT_ALLOWED: string := "Field not allowed"
  const INVALID_VALUE: string := "Invalid value"
  const MISSING_FIELD: string := "Missing field"

  /** The error one input entry earns, when its validator (if any) does not throw. */
  function KeyError(input: JsonObject, selector: FieldSelector, registry: ValidatorRegistry, k: string): Option<string>
    requires k in input
  {
    if k !in selector.allowed then Some(FIELD_NOT_ALLOWED)
    else if k in registry && registry[k](input[k]) == Normal(false) then Some(INVALID_VALUE)
    else None
  }

  /** Some allowed entry's validator throws, which aborts the whole check. */
  ghost predicate Raises(input: JsonObject, selector: FieldSelector, registry: ValidatorRegistry)
  {
    exists k :: k in input && k in selector.allowed && k in registry && registry[k](input[k]).Thrown?
  }

  /** The errors of the entry loop: one message per offending key. */
  function EntryErrors(input: JsonObject, selector: FieldSelector, registry: ValidatorRegistry): JsonObject
  {
    map k | k in input && KeyError(input, selector, registry, k).Some? :: Str(KeyError(input, selector, registry, k).value)
  }

  /** A "Missing field" error for each mandatory key that is absent or null. */
  function MissingErrors(input: JsonObject, mandatory: set<string>): JsonObject
  {
    map m | m in mandatory && (m !in input || input[m].Null?) :: Str(MISSING_FIELD)
  }

  function NullIfEmpty(errors: JsonObject): Option<JsonObject>
  {
    if |errors| == 0 then None else Some(errors)
  }

  /** The result as written: the mandatory loop runs only when the mandatory set is empty, so it adds nothing. */
  function AsWritten(input: JsonObject, selector: FieldSelector, registry: ValidatorRegistry): Option<JsonObject>
  {
    var errors := EntryErrors(input, selector, registry);
    if selector.mandatory.Some? && |selector.mandatory.value| == 0
    then NullIfEmpty(errors + MissingErrors(input, selector.mandatory.value))
    else NullIfEmpty(errors)
  }

  /** The result as intended: a non-empty mandatory set reports each absent or null mandatory key. */
  function Intended(input: JsonObject, selector: FieldSelector, registry: ValidatorRegistry): Option<JsonObject>
  {
    var errors := EntryErrors(input, selector, registry);
    if selector.mandatory.Some? && |selector.mandatory.value| != 0
    then NullIfEmpty(errors + MissingErrors(input, selector.mandatory.value))
    else NullIfEmpty(errors)
  }

  /**
   * The entry loop of validatePayload: each entry is checked once, in some
   * order; a throwing validator ends the loop with its exception.
   */
  method CheckEntries(input: JsonObject, selector: FieldSelector, registry: ValidatorRegistry)
    returns (r: Throws<JsonObject>)
    ensures r.Thrown? <==> Raises(input, selector, registry)
    ensures r.Thrown? ==> exists k :: k in input && k in selector.allowed && k in registry
                                      && registry[k](input[k]) == Thrown(r.message)
    ensures r.Normal? ==> r.value == EntryErrors(input, selector, registry)
  {
    var result: JsonObject := map[];
    var pending := input.Keys;
    while pending != {}
      invariant pending <= input.Keys
      invariant forall k :: k in input && k !in pending && k in selector.allowed && k in registry
                  ==> registry[k](input[k]).Normal?
      invariant result.Keys <= input.Keys - pending
      invariant forall k :: k in input && k !in pending ==>
                  (k in result <==> KeyError(input, selector, registry, k).Some?)
      invariant forall k :: k in result ==> result[k] == Str(KeyError(input, selector, registry, k).value)
      decreases pending
    {
      var k :| k in pending;
      if k in selector.allowed {
        if k in registry {
          var verdict := registry[k](input[k]);
          if verdict.Thrown? {
            return Thrown(verdict.message);
          }
          if !verdict.value {
            result := result[k := Str(INVALID_VALUE)];
          }
        }
      } else {
        result := result[k := Str(FIELD_NOT_ALLOWED)];
      }
      pending := pending - {k};
    }
    return Normal(result);
  }

  /** validatePayload as written: null when there is no error, otherwise the non-empty error object. */
  method ValidatePayload(input: JsonObject, selector: FieldSelector, registry: ValidatorRegistry)
    returns (r: Throws<Option<JsonObject>>)
    ensures r.Thrown? <==> Raises(input, selector, registry)
    ensures r.Normal? ==> r.value == AsWritten(input, selector, registry)
  {
    var entries := CheckEntries(input, selector, registry);
    if entries.Thrown? {
      return Thrown(entries.message);
    }
    var result := entries.value;
    var mandatory := selector.mandatory;
    if mandatory.Some? && |mandatory.value| == 0 {
      result := result + MissingErrors(input, mandatory.value);
    }
    return Normal(NullIfEmpty(result));
  }

  /** validatePayload with the mandatory guard the loop evidently needs (`!mandatory.isEmpty()`). */
  method ValidatePayloadWithMandatory(input: JsonObject, selector: FieldSelector, registry: ValidatorRegistry)
    returns (r: Throws<Option<JsonObject>>)
    ensures r.Thrown? <==> Raises(input, selector, registry)
    ensures r.Normal? ==> r.value == Intended(input, selector, registry)
  {
    var entries := CheckEntries(input, selector, registry);
    if entries.Thrown? {
      return Thrown(entries.message);
    }
    var result := entries.value;
    var mandatory := selector.mandatory;
    if mandatory.Some? && |mandatory.value| != 0 {
      result := result + MissingErrors(input, mandatory.value);
    }
    return Normal(NullIfEmpty(result));
  }

  /**
   * As written: every reported key is a key of the input, a result is never
   * an empty object, and the payload passes iff every key is allowed and no
   * registered validator rejects its value.
   */
  lemma AsWrittenMeaning(input: JsonObject, selector: FieldSelector, registry: ValidatorRegistry)
    ensures var r := AsWritten(input, selector, registry);
      (r.Some? ==> r.value.Keys <= input.Keys && |r.value| > 0)
      && (r.None? <==> (forall k :: k in input ==>
                          k in selector.allowed && (k in registry ==> registry[k](input[k]) != Normal(false))))
      && (forall k :: k in input && k !in selector.allowed ==> r.Some? && r.value[k] == Str(FIELD_NOT_ALLOWED))
  {
    var errors := EntryErrors(input, selector, registry);
    if selector.mandatory.Some? && |selector.mandatory.value| == 0 {
      assert MissingErrors(input, selector.mandatory.value) == map[];
      assert errors + map[] == errors;
    }
    if exists k :: k in input && KeyError(input, selector, registry, k).Some? {
      var k :| k in input && KeyError(input, selector, registry, k).Some?;
      assert k in errors;
    }
  }

  /** As written, no mandatory key is ever reported missing: a key absent from the input never appears. */
  lemma AsWrittenNeverReportsMissing(input: JsonObject, selector: FieldSelector, registry: ValidatorRegistry, m: string)
    requires m !in input
    ensures var r := AsWritten(input, selector, registry); r.None? || m !in r.value
  {
    AsWrittenMeaning(input, selector, registry);
  }

  /**
   * The invite payload without `invitees` passes as written, although
   * `invitees` is the selector's one mandatory key; the intended check
   * reports it missing.
   */
  lemma MissingMandatoryCounterexample(registry: ValidatorRegistry)
    requires "creator_system" !in registry
    ensures AsWritten(map["creator_system" := Str("x")],
                      FieldSelector({"invitees", "creator_system"}, Some({"invitees"})), registry).None?
    ensures Intended(map["creator_system" := Str("x")],
                     FieldSelector({"invitees", "creator_system"}, Some({"invitees"})), registry)
            == Some(map["invitees" := Str(MISSING_FIELD)])
  {
    var input := map["creator_system" := Str("x")];
    var sel := FieldSelector({"invitees", "creator_system"}, Some({"invitees"}));
    assert "invitees" != "creator_system";
    assert EntryErrors(input, sel, registry) == map[];
    assert MissingErrors(input, {"invitees"}) == map["invitees" := Str(MISSING_FIELD)];
    assert map[] + map["invitees" := Str(MISSING_FIELD)] == map["invitees" := Str(MISSING_FIELD)];
  }

  /** As intended, every mandatory key that is absent or null is reported, and nothing else is added. */
  lemma IntendedReportsMissing(input: JsonObject, selector: FieldSelector, registry: ValidatorRegistry, m: string)
    requires selector.mandatory.Some? && m in selector.mandatory.value
    requires m !in input || input[m].Null?
    ensures var r := Intended(input, selector, registry); r.Some? && r.value[m] == Str(MISSING_FIELD)
  {
    var errors := EntryErrors(input, selector, registry) + MissingErrors(input, selector.mandatory.value);
    assert m in errors;
  }

  /**
   * The inverted guard matters only when a mandatory field is absent or
   * null: otherwise the check as written and the intended one agree.
   */
  lemma AsWrittenAgreesWhenMandatoryPresent(input: JsonObject, selector: FieldSelector, registry: ValidatorRegistry)
    requires selector.mandatory.Some? ==> forall m :: m in selector.mandatory.value ==> m in input && !input[m].Null?
    ensures AsWritten(input, selector, registry) == Intended(input, selector, registry)
  {
    if selector.mandatory.Some? {
      assert MissingErrors(input, selector.mandatory.value) == map[];
      var errors := EntryErrors(input, selector, registry);
      assert errors + map[] == errors;
    }
  }
}

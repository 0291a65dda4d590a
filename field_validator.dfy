/**
 * Per-field value checks. A check either answers, or throws where the
 * source casts a value to String before looking at it.
 */
module FieldValidator {
  import opened Common
  import opened Json

  /**
   * String.length() in Java: the number of UTF-16 code units, so a character
   * outside the Basic Multilingual Plane counts twice.
   */
  function Utf16Length(s: string): (n: nat)
    ensures |s| <= n <= 2 * |s|
  {
    if |s| == 0 then 0 else (if s[0] as int > 0xFFFF then 2 else 1) + Utf16Length(s[1..])
  }

  /** Within the Basic Multilingual Plane the Java length is the character count. */
  lemma {:induction false} BmpLengthIsCount(s: string)
    requires forall i :: 0 <= i < |s| ==> s[i] as int <= 0xFFFF
    ensures Utf16Length(s) == |s|
  {
    if |s| != 0 {
      BmpLengthIsCount(s[1..]);
    }
  }

  /** Java's length of a string is the sum of the lengths of its parts. */
  lemma {:induction false} Utf16LengthAppend(a: string, b: string)
    ensures Utf16Length(a + b) == Utf16Length(a) + Utf16Length(b)
  {
    if |a| != 0 {
      assert (a + b)[0] == a[0] && (a + b)[1..] == a[1..] + b;
      Utf16LengthAppend(a[1..], b);
    } else {
      assert a + b == b;
    }
  }

  /** An emoji is one character but two code units, so it uses up two units of a length bound. */
  lemma SupplementaryCountsTwice(s: string)
    ensures Utf16Length(s + "\U{1F600}") == Utf16Length(s) + 2
  {
    Utf16LengthAppend(s, "\U{1F600}");
  }

  /** null, or a non-empty string strictly shorter than `len` UTF-16 units. */
  predicate ValidateStringIfPresent(o: Value, len: int)
  {
    o.Null? || (o.Str? && |o.s| != 0 && Utf16Length(o.s) < len)
  }

  /** A non-empty string of at most `len` UTF-16 units (an inclusive bound, unlike the IfPresent variant). */
  predicate ValidateString(o: Value, len: int)
  {
    !(o.Null? || !o.Str? || |o.s| == 0 || Utf16Length(o.s) > len)
  }

  /** The two string checks differ exactly at length `len`: the IfPresent variant excludes it. */
  lemma StringBoundsDiffer(s: string)
    requires |s| > 0
    ensures ValidateString(Str(s), Utf16Length(s)) && !ValidateStringIfPresent(Str(s), Utf16Length(s))
    ensures ValidateStringIfPresent(Null, Utf16Length(s)) && !ValidateString(Null, Utf16Length(s))
  {
  }

  /** Integer.valueOf(o.toString()) succeeds: a number in the 32-bit range, or a string Java parses as one. */
  predicate ValidateInteger(o: Value, p: Parsers)
  {
    match o
    case Num(n) => -0x8000_0000 <= n < 0x8000_0000
    case Str(s) => p.isInt32Text(s)
    case _ => false
  }

  /** A date in ISO local format that lies after today (`allowedInPast` is false for the one use). */
  predicate ValidateDateWithFormat(o: Value, p: Parsers)
  {
    o.Str? && p.isFutureIsoDate(o.s)
  }

  predicate ValidateJsonIfPresent(o: Value)
  {
    o.Null? || (o.Obj? && |o.fields| != 0)
  }

  predicate ValidateJson(o: Value)
  {
    !(o.Null? || !o.Obj? || |o.fields| == 0)
  }

  predicate ValidateJsonArrayIfPresent(o: Value)
  {
    o.Null? || (o.Arr? && |o.items| != 0)
  }

  predicate ValidateJsonArray(o: Value)
  {
    !(o.Null? || !o.Arr? || |o.items| == 0)
  }

  predicate ValidateBoolean(o: Value)
  {
    o.Bool?
  }

  predicate ValidateBooleanIfPresent(o: Value)
  {
    o.Null? || o.Bool?
  }

  /** Each IfPresent check is its plain check widened by exactly the null value. */
  lemma IfPresentWidensByNull(o: Value)
    ensures ValidateJsonIfPresent(o) <==> o.Null? || ValidateJson(o)
    ensures ValidateJsonArrayIfPresent(o) <==> o.Null? || ValidateJsonArray(o)
    ensures ValidateBooleanIfPresent(o) <==> o.Null? || ValidateBoolean(o)
    ensures !ValidateJson(Null) && !ValidateJsonArray(Null) && !ValidateBoolean(Null)
  {
  }

  /**
   * UUID.fromString((String) o): a string is checked; null makes
   * UUID.fromString throw and any other value makes
   * the cast throw; neither is an IllegalArgumentException, so both escape.
   */
  function ValidateUuid(o: Value, p: Parsers): (r: Throws<bool>)
    ensures r.Normal? <==> o.Str?
    ensures r == Normal(true) <==> o.Str? && p.isUuid(o.s)
  {
    match o
    case Str(s) => Normal(p.isUuid(s))
    case Null => Thrown(NULL_REFERENCE)
    case _ => Thrown(CLASS_CAST)
  }

  /** validateUuidIfPresent(String): null is accepted, anything else goes to the UUID check. */
  function ValidateUuidIfPresent(o: Option<string>, p: Parsers): (r: bool)
    ensures o.None? ==> r
    ensures o.Some? ==> r == (ValidateUuid(Str(o.value), p) == Normal(true))
  {
    o.None? || p.isUuid(o.value)
  }

  /** The e-mail pattern applied to (String) o; null and non-strings throw. */
  function ValidateEmail(o: Value, p: Parsers): (r: Throws<bool>)
    ensures r.Normal? <==> o.Str?
    ensures r == Normal(true) <==> o.Str? && p.isEmail(o.s)
  {
    match o
    case Str(s) => Normal(p.isEmail(s))
    case Null => Thrown(NULL_REFERENCE)
    case _ => Thrown(CLASS_CAST)
  }

  /**
   * The element loop of the deep-array checks: elements are checked in
   * order and the first one that fails, or throws, decides.
   */
  function ValidateElements(items: seq<Value>, fv: Value -> Throws<bool>): (r: Throws<bool>)
  {
    if |items| == 0 then Normal(true)
    else match fv(items[0])
      case Thrown(m) => Thrown(m)
      case Normal(ok) => if !ok then Normal(false) else ValidateElements(items[1..], fv)
  }

  /** The loop accepts iff every element passes; if it throws, every element before the throwing one passed. */
  lemma {:induction false} ValidateElementsMeaning(items: seq<Value>, fv: Value -> Throws<bool>)
    ensures ValidateElements(items, fv) == Normal(true) <==> forall k :: 0 <= k < |items| ==> fv(items[k]) == Normal(true)
    ensures ValidateElements(items, fv).Thrown? ==>
              exists k :: 0 <= k < |items| && fv(items[k]).Thrown? && forall j :: 0 <= j < k ==> fv(items[j]) == Normal(true)
  {
    if |items| > 0 {
      ValidateElementsMeaning(items[1..], fv);
      var r := ValidateElements(items, fv);
      if r.Thrown? && !fv(items[0]).Thrown? {
        var k :| 0 < k + 1 <= |items[1..]| && fv(items[1..][k]).Thrown? && forall j :: 0 <= j < k ==> fv(items[1..][j]) == Normal(true);
        assert fv(items[k + 1]).Thrown?;
        assert forall j :: 0 <= j < k + 1 ==> fv(items[j]) == Normal(true) by {
          forall j | 0 <= j < k + 1 ensures fv(items[j]) == Normal(true) {
            if j > 0 { assert items[j] == items[1..][j - 1]; }
          }
        }
      }
      if forall k :: 0 <= k < |items| ==> fv(items[k]) == Normal(true) {
        assert forall k :: 0 <= k < |items[1..]| ==> fv(items[1..][k]) == Normal(true) by {
          forall k | 0 <= k < |items[1..]| ensures fv(items[1..][k]) == Normal(true) {
            assert items[1..][k] == items[k + 1];
          }
        }
      }
    }
  }

  /** null is accepted; a non-array or an empty array is rejected; otherwise every element must pass `fv`. */
  function ValidateDeepJsonArrayIfPresent(o: Value, fv: Value -> Throws<bool>): Throws<bool>
  {
    if o.Null? then Normal(true)
    else if !o.Arr? || |o.items| == 0 then Normal(false)
    else ValidateElements(o.items, fv)
  }

  /** A non-empty array whose every element passes `fv`. */
  function ValidateDeepJsonArray(o: Value, fv: Value -> Throws<bool>): Throws<bool>
  {
    if o.Null? || !o.Arr? || |o.items| == 0 then Normal(false)
    else ValidateElements(o.items, fv)
  }

  /** The deep checks accept exactly the non-empty arrays of passing elements; the IfPresent one also accepts null. */
  lemma DeepArrayMeaning(o: Value, fv: Value -> Throws<bool>)
    ensures ValidateDeepJsonArray(o, fv) == Normal(true) <==>
              o.Arr? && |o.items| != 0 && forall k :: 0 <= k < |o.items| ==> fv(o.items[k]) == Normal(true)
    ensures ValidateDeepJsonArrayIfPresent(o, fv) == Normal(true) <==>
              o.Null? || ValidateDeepJsonArray(o, fv) == Normal(true)
  {
    if o.Arr? {
      ValidateElementsMeaning(o.items, fv);
    }
  }
}

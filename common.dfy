/**
 * Values shared by every module: optional values, Java's case-insensitive
 * string comparison, and the parsers the model treats as uninterpreted.
 */
module Common {

  datatype Option<T> = None | Some(value: T)

  /** The result of Java code that may throw: a normal value, or the exception's message. */
  datatype Throws<T> = Normal(value: T) | Thrown(message: string)

  const CLASS_CAST: string := "java.lang.ClassCastException"
  const NULL_REFERENCE: string := "null reference"

  /** Character.toLowerCase on the ASCII letters; every other character is left alone. */
  function LowerAscii(c: char): (r: char)
    ensures 'A' <= c <= 'Z' ==> r as int == c as int + 32
    ensures !('A' <= c <= 'Z') ==> r == c
  {
    if 'A' <= c <= 'Z' then (c as int + 32) as char else c
  }

  /** String.equalsIgnoreCase: same length and equal characters after case folding. */
  predicate EqualsIgnoreCase(a: string, b: string)
  {
    |a| == |b| && forall i :: 0 <= i < |a| ==> LowerAscii(a[i]) == LowerAscii(b[i])
  }

  /** Equal strings are equal ignoring case, and the relation is symmetric. */
  lemma EqualsIgnoreCaseBasics(a: string, b: string)
    ensures EqualsIgnoreCase(a, a)
    ensures EqualsIgnoreCase(a, b) == EqualsIgnoreCase(b, a)
  {
  }

  /** String.isEmpty on a possibly null string: null and "" are both "missing". */
  predicate NullOrEmpty(s: Option<string>)
  {
    s.None? || |s.value| == 0
  }

  /**
   * Parsers the model does not open up: UUID.fromString, the e-mail regular
   * expression, Integer.valueOf on a string, LocalDate.parse with the ISO
   * local-date format, the same followed by "after today" (the validators'
   * only use of the clock), and whether FieldConverter produces a PGobject
   * for a text (PGobject.setValue succeeding).
   */
  datatype Parsers = Parsers(
    isUuid: string -> bool,
    isEmail: string -> bool,
    isInt32Text: string -> bool,
    isIsoDate: string -> bool,
    isFutureIsoDate: string -> bool,
    pgConverts: string -> bool)

  /**
   * Facts about the real parsers the model relies on: UUID.fromString needs
   * dash-separated components, and the e-mail pattern needs an '@'.
   */
  ghost predicate ParsersSound(p: Parsers)
  {
    (forall s :: p.isUuid(s) ==> '-' in s) && (forall s :: p.isEmail(s) ==> '@' in s)
  }

  /** The anonymous user id, matched ignoring case. */
  const ANONYMOUS: string := "anonymous"

  /** A caller id that is null, empty or "anonymous" (ignoring case): the shape every write handler refuses. */
  predicate AnonymousOrMissing(userId: Option<string>)
  {
    NullOrEmpty(userId) || EqualsIgnoreCase(ANONYMOUS, userId.value)
  }
}

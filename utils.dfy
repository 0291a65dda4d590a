/**
 * The Postgres array literal written for a list of ids, e.g. {"a","b"},
 * used to pass a Java list as one `?::uuid[]` query parameter.
 */
module Utils {

  function Quote(e: string): string
  {
    "\"" + e + "\""
  }

  /** Each element quoted and followed by a comma: the text before the last element. */
  function Terminated(p: seq<string>): string
  {
    if |p| == 0 then "" else Quote(p[0]) + "," + Terminated(p[1..])
  }

  /** The elements quoted, with a single comma between neighbours. */
  function Joined(l: seq<string>): string
  {
    if |l| == 0 then "" else Terminated(l[..|l| - 1]) + Quote(l[|l| - 1])
  }

  /** The literal: braces around the joined elements; "{}" for the empty list. */
  function PgArrayLiteral(l: seq<string>): string
  {
    "{" + Joined(l) + "}"
  }

  lemma {:induction false} TerminatedSnoc(p: seq<string>, e: string)
    ensures Terminated(p + [e]) == Terminated(p) + Quote(e) + ","
  {
    if |p| == 0 {
      assert p + [e] == [e];
    } else {
      assert (p + [e])[1..] == p[1..] + [e];
      TerminatedSnoc(p[1..], e);
    }
  }

  /**
   * convertListToPostgresArrayStringRepresentation: the empty list gives
   * "{}"; otherwise '{', each element between double quotes with ','
   * between neighbours, then '}'. Element text is copied with no escaping.
   */
  method ConvertListToPostgresArrayStringRepresentation(input: seq<string>) returns (s: string)
    ensures s == PgArrayLiteral(input)
    ensures |input| == 0 ==> s == "{}"
  {
    if |input| == 0 {
      return "{}";
    }
    var sb := "{";
    var i := 0;
    while true
      invariant 0 <= i < |input|
      invariant sb == "{" + Terminated(input[..i])
      decreases |input| - i
    {
      var e := input[i];
      ghost var before := Terminated(input[..i]);
      sb := sb + Quote(e);
      assert sb == "{" + (before + Quote(e));
      if i + 1 == |input| {
        assert input[..i] == input[..|input| - 1];
        assert Joined(input) == before + Quote(e);
        return sb + "}";
      }
      sb := sb + ",";
      assert sb == "{" + (before + Quote(e) + ",");
      TerminatedSnoc(input[..i], e);
      assert input[..i + 1] == input[..i] + [e];
      i := i + 1;
    }
  }

  /** Total length of the element texts. */
  function SumLen(l: seq<string>): nat
  {
    if |l| == 0 then 0 else |l[0]| + SumLen(l[1..])
  }

  lemma {:induction false} SumLenAppend(a: seq<string>, b: seq<string>)
    ensures SumLen(a + b) == SumLen(a) + SumLen(b)
  {
    if |a| == 0 {
      assert a + b == b;
    } else {
      assert (a + b)[1..] == a[1..] + b;
      SumLenAppend(a[1..], b);
    }
  }

  lemma {:induction false} TerminatedLength(p: seq<string>)
    ensures |Terminated(p)| == SumLen(p) + 3 * |p|
  {
    if |p| > 0 {
      TerminatedLength(p[1..]);
    }
  }

  /** For n >= 1 elements the literal has length 2 + sum of (|element| + 2) + (n - 1). */
  lemma LiteralLength(l: seq<string>)
    requires |l| >= 1
    ensures |PgArrayLiteral(l)| == 2 + (SumLen(l) + 2 * |l|) + (|l| - 1)
  {
    var n := |l|;
    TerminatedLength(l[..n - 1]);
    SumLenAppend(l[..n - 1], [l[n - 1]]);
    assert l[..n - 1] + [l[n - 1]] == l;
    assert SumLen([l[n - 1]]) == |l[n - 1]| + SumLen([]);
  }

  /** String.split on ',' keeping empty pieces: the pieces between commas, in order. */
  function SplitOnComma(s: string): (r: seq<string>)
    ensures |r| >= 1
  {
    if |s| == 0 then [""]
    else if s[0] == ',' then [""] + SplitOnComma(s[1..])
    else var rest := SplitOnComma(s[1..]); [[s[0]] + rest[0]] + rest[1..]
  }

  function Unquote(t: string): string
  {
    if |t| >= 2 then t[1..|t| - 1] else t
  }

  function UnquoteAll(pieces: seq<string>): (r: seq<string>)
    ensures |r| == |pieces|
  {
    if |pieces| == 0 then [] else [Unquote(pieces[0])] + UnquoteAll(pieces[1..])
  }

  /**
   * Reading a literal back: strip the braces, split on ',', strip each
   * element's quotes. This is a simplified reader, not Postgres's array input
   * parser: Postgres keeps a quoted element that holds ',' intact and rejects
   * an unescaped '"', while this reader splits at every ','. The invite
   * query reads the invitees' literal through it, so the two agree only on
   * the Plain lists of RoundTrip.
   */
  function ParsePgArray(t: string): seq<string>
  {
    if |t| < 2 || t == "{}" then [] else UnquoteAll(SplitOnComma(t[1..|t| - 1]))
  }

  /** Element text a literal can carry unambiguously: no double quote and no comma. */
  predicate Plain(l: seq<string>)
  {
    forall k :: 0 <= k < |l| ==> '"' !in l[k] && ',' !in l[k]
  }

  lemma {:induction false} SplitNoComma(x: string, y: string)
    requires ',' !in x
    ensures SplitOnComma(x + y) == [x + SplitOnComma(y)[0]] + SplitOnComma(y)[1..]
  {
    var r := SplitOnComma(y);
    if |x| > 0 {
      assert (x + y)[0] == x[0] && (x + y)[1..] == x[1..] + y;
      SplitNoComma(x[1..], y);
      assert [x[0]] + (x[1..] + r[0]) == x + r[0];
    } else {
      assert x + y == y && x + r[0] == r[0];
      assert r == [r[0]] + r[1..];
    }
  }

  function Quoted(l: seq<string>): (r: seq<string>)
    ensures |r| == |l|
  {
    seq(|l|, k requires 0 <= k < |l| => Quote(l[k]))
  }

  lemma QuoteNoComma(e: string)
    requires ',' !in e
    ensures ',' !in Quote(e)
  {
    assert forall c :: c in Quote(e) ==> c == '"' || c in e;
  }

  lemma JoinedCons(l: seq<string>)
    requires |l| >= 2
    ensures Joined(l) == Quote(l[0]) + ("," + Joined(l[1..]))
  {
    var n := |l|;
    var tail := l[1..];
    assert tail[..|tail| - 1] == l[..n - 1][1..];
  }

  lemma SplitLeadingComma(j: string)
    ensures SplitOnComma("," + j) == [""] + SplitOnComma(j)
  {
    assert ("," + j)[0] == ',' && ("," + j)[1..] == j;
  }

  lemma {:induction false} SplitJoined(l: seq<string>)
    requires |l| >= 1 && Plain(l)
    ensures SplitOnComma(Joined(l)) == Quoted(l)
  {
    var q0 := Quote(l[0]);
    QuoteNoComma(l[0]);
    if |l| == 1 {
      assert Joined(l) == q0 + "";
      SplitNoComma(q0, "");
      assert SplitOnComma("") == [""];
      assert q0 + "" == q0;
      assert Quoted(l) == [q0];
    } else {
      var tail := l[1..];
      var j := Joined(tail);
      JoinedCons(l);
      SplitNoComma(q0, "," + j);
      SplitLeadingComma(j);
      var pieces := SplitOnComma("," + j);
      assert pieces[0] == "" && pieces[1..] == SplitOnComma(j);
      assert Plain(tail) by {
        forall k | 0 <= k < |tail| ensures '"' !in tail[k] && ',' !in tail[k] {
          assert tail[k] == l[k + 1];
        }
      }
      SplitJoined(tail);
      assert q0 + "" == q0;
      assert Quoted(l) == [q0] + Quoted(tail);
    }
  }

  lemma {:induction false} UnquoteQuoted(l: seq<string>)
    ensures UnquoteAll(Quoted(l)) == l
  {
    if |l| > 0 {
      assert Quoted(l)[1..] == Quoted(l[1..]);
      UnquoteQuoted(l[1..]);
      assert Unquote(Quote(l[0])) == l[0];
    }
  }

  /** Elements free of '"' and ',' come back unchanged and in order from the literal. */
  lemma RoundTrip(l: seq<string>)
    requires Plain(l)
    ensures ParsePgArray(PgArrayLiteral(l)) == l
  {
    if |l| > 0 {
      var t := PgArrayLiteral(l);
      LiteralLength(l);
      assert t[1] == '"';
      assert t[1..|t| - 1] == Joined(l);
      SplitJoined(l);
      UnquoteQuoted(l);
    }
  }
}

/**
 * Character-level helpers the emitter relies on: searching, line joining and
 * splitting, and the decimal rendering of numbers, each with the reader that
 * undoes it.
 */
module Text {
  import opened Wrappers

  /** Position of the first `x` in `s`, or `|s|` when there is none. */
  function IndexOf<T(==)>(s: seq<T>, x: T): (k: nat)
    ensures k <= |s|
    ensures forall j :: 0 <= j < k ==> s[j] != x
    ensures k < |s| ==> s[k] == x
    ensures k == |s| <==> x !in s
  {
    if s == [] then 0
    else if s[0] == x then 0
    else 1 + IndexOf(s[1..], x)
  }

  lemma IndexOfAfter<T>(a: seq<T>, x: T, b: seq<T>)
    requires x !in a
    ensures IndexOf(a + [x] + b, x) == |a|
  {
    var s := a + [x] + b;
    assert s[|a|] == x;
  }

  /** Splits `s` around the first `c`. */
  function SplitFirst(s: string, c: char): (r: Option<(string, string)>)
    ensures r.None? <==> c !in s
    ensures r.Some? ==> c !in r.value.0 && s == r.value.0 + [c] + r.value.1
  {
    var k := IndexOf(s, c);
    if k == |s| then None
    else
      assert s == s[..k] + [c] + s[k + 1..];
      assert c !in s[..k];
      Some((s[..k], s[k + 1..]))
  }

  lemma SplitFirstOf(a: string, c: char, b: string)
    requires c !in a
    ensures SplitFirst(a + [c] + b, c) == Some((a, b))
  {
    IndexOfAfter(a, c, b);
    var s := a + [c] + b;
    assert s[..|a|] == a && s[|a| + 1..] == b;
  }

  predicate StartsWith(s: string, p: string)
  {
    |p| <= |s| && s[..|p|] == p
  }

  // ---------------------------------------------------------------- lines

  /** Every line followed by a newline, as successive `WriteLine` calls produce. */
  function Unlines(ls: seq<string>): (t: string)
    ensures ls == [] <==> t == []
    ensures t != [] ==> t[|t| - 1] == '\n'
  {
    if ls == [] then ""
    else ls[0] + "\n" + Unlines(ls[1..])
  }

  lemma {:induction false} UnlinesAppend(a: seq<string>, b: seq<string>)
    ensures Unlines(a + b) == Unlines(a) + Unlines(b)
  {
    if a == [] {
      assert a + b == b;
    } else {
      assert (a + b)[0] == a[0] && (a + b)[1..] == a[1..] + b;
      UnlinesAppend(a[1..], b);
    }
  }

  /** A character absent from every line is absent from the joined text, unless it is the newline. */
  lemma {:induction false} UnlinesAvoids(ls: seq<string>, c: char)
    requires c != '\n'
    requires forall l :: l in ls ==> c !in l
    ensures c !in Unlines(ls)
  {
    if ls != [] {
      UnlinesAvoids(ls[1..], c);
    }
  }

  /** Cuts a text at its newlines; the reader that undoes `Unlines`. */
  function SplitLines(t: string): (ls: seq<string>)
    ensures forall l :: l in ls ==> '\n' !in l
    decreases |t|
  {
    if t == [] then []
    else
      var k := IndexOf(t, '\n');
      if k == |t| then [t]
      else
        assert '\n' !in t[..k];
        [t[..k]] + SplitLines(t[k + 1..])
  }

  /** Splitting a text that starts with a whole line yields that line first. */
  lemma SplitLinesCons(l: string, rest: string)
    requires '\n' !in l
    ensures SplitLines(l + "\n" + rest) == [l] + SplitLines(rest)
  {
    var t := l + "\n" + rest;
    IndexOfAfter(l, '\n', rest);
    assert t[..|l|] == l;
    assert t[|l| + 1..] == rest;
  }

  lemma {:induction false} SplitLinesUnlines(ls: seq<string>)
    requires forall l :: l in ls ==> '\n' !in l
    ensures SplitLines(Unlines(ls)) == ls
  {
    if ls != [] {
      SplitLinesCons(ls[0], Unlines(ls[1..]));
      SplitLinesUnlines(ls[1..]);
    }
  }

  // -------------------------------------------------------------- numbers

  predicate IsDigit(c: char)
  {
    '0' <= c <= '9'
  }

  function DigitChar(d: nat): (c: char)
    requires d < 10
    ensures IsDigit(c)
  {
    (48 + d) as char
  }

  function DigitValue(c: char): (d: nat)
    requires IsDigit(c)
    ensures d < 10 && DigitChar(d) == c
  {
    c as int - 48
  }

  /** Decimal text of a natural number, most significant digit first, no leading zeros. */
  function NatToDecimal(n: nat): (s: string)
    ensures |s| >= 1
    ensures forall c :: c in s ==> IsDigit(c)
    ensures |s| > 1 ==> s[0] != '0'
    decreases n
  {
    if n < 10 then [DigitChar(n)]
    else NatToDecimal(n / 10) + [DigitChar(n % 10)]
  }

  /** The number a string of decimal digits stands for. */
  function DecimalValue(s: string): nat
    requires forall c :: c in s ==> IsDigit(c)
  {
    if s == [] then 0
    else 10 * DecimalValue(s[..|s| - 1]) + DigitValue(s[|s| - 1])
  }

  lemma {:induction false} DecimalRoundTrip(n: nat)
    ensures DecimalValue(NatToDecimal(n)) == n
    decreases n
  {
    var s := NatToDecimal(n);
    if n >= 10 {
      assert s[..|s| - 1] == NatToDecimal(n / 10);
      DecimalRoundTrip(n / 10);
    } else {
      assert s[..|s| - 1] == [];
    }
  }

  /** Length of the run of digits at the front of `s`. */
  function DigitRun(s: string): (k: nat)
    ensures k <= |s|
    ensures forall j :: 0 <= j < k ==> IsDigit(s[j])
    ensures k < |s| ==> !IsDigit(s[k])
  {
    if s == [] || !IsDigit(s[0]) then 0
    else 1 + DigitRun(s[1..])
  }

  lemma DigitRunOf(d: string, rest: string)
    requires forall c :: c in d ==> IsDigit(c)
    requires rest == [] || !IsDigit(rest[0])
    ensures DigitRun(d + rest) == |d|
  {
    var s := d + rest;
    forall j | 0 <= j < |d|
      ensures IsDigit(s[j])
    {
      assert s[j] == d[j] && d[j] in d;
    }
    assert |d| < |s| ==> s[|d|] == rest[0];
  }

  /** Decimal text of an integer: a '-' in front of a negative one. */
  function IntToDecimal(v: int): (s: string)
    ensures |s| >= 1
  {
    if v < 0 then "-" + NatToDecimal(-v) else NatToDecimal(v)
  }

  /** Reads an optional '-' followed by one or more digits and nothing else. */
  function ParseInt(s: string): Option<int>
  {
    if |s| > 0 && s[0] == '-' then
      var d := s[1..];
      if |d| > 0 && DigitRun(d) == |d| then Some(-(DecimalValue(d) as int)) else None
    else if |s| > 0 && DigitRun(s) == |s| then Some(DecimalValue(s) as int)
    else None
  }

  lemma DecimalIsDigitRun(n: nat)
    ensures DigitRun(NatToDecimal(n)) == |NatToDecimal(n)|
  {
    var d := NatToDecimal(n);
    DigitRunOf(d, []);
    assert d + [] == d;
  }

  lemma NegativeRoundTrip(v: int)
    requires v < 0
    ensures ParseInt(IntToDecimal(v)) == Some(v)
  {
    var d := NatToDecimal(-v);
    DecimalIsDigitRun(-v);
    assert IntToDecimal(v)[1..] == d;
    DecimalRoundTrip(-v);
  }

  lemma IntRoundTrip(v: int)
    ensures ParseInt(IntToDecimal(v)) == Some(v)
  {
    if v < 0 {
      NegativeRoundTrip(v);
    } else {
      DecimalIsDigitRun(v);
      DecimalRoundTrip(v);
    }
  }
}

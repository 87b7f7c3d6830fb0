/** The test helper `StringExtensions.RemoveCarriageReturn`: drop every '\r'. */
module StringExtensions {

  /** `str.Replace("\r", "")`: every carriage return removed, everything else kept in order. */
  function RemoveCarriageReturn(str: string): (r: string)
    ensures '\r' !in r
    ensures '\r' !in str ==> r == str
    ensures forall c :: c != '\r' ==> multiset(r)[c] == multiset(str)[c]
    ensures |r| == |str| - multiset(str)['\r']
  {
    if str == [] then []
    else
      var rest := RemoveCarriageReturn(str[1..]);
      assert str == [str[0]] + str[1..];
      if str[0] == '\r' then rest else [str[0]] + rest
  }

  /** Removing carriage returns distributes over concatenation, so order is preserved. */
  lemma {:induction false} RemoveCarriageReturnAppend(a: string, b: string)
    ensures RemoveCarriageReturn(a + b) == RemoveCarriageReturn(a) + RemoveCarriageReturn(b)
  {
    if a == [] {
      assert a + b == b;
    } else {
      assert (a + b)[1..] == a[1..] + b;
      RemoveCarriageReturnAppend(a[1..], b);
    }
  }

  /** A second pass changes nothing. */
  lemma RemoveCarriageReturnIdempotent(str: string)
    ensures RemoveCarriageReturn(RemoveCarriageReturn(str)) == RemoveCarriageReturn(str)
  {
  }
}

/** Decimal numerals: how ids and times are printed into text and read back. */
module Decimal {
  import opened Wrappers

  predicate AllDigits(s: string) { forall i :: 0 <= i < |s| ==> '0' <= s[i] <= '9' }

  function Digit(n: nat): (c: char)
    requires n < 10
    ensures '0' <= c <= '9' && c as int - '0' as int == n
  {
    '0' + n as char
  }

  function Show(n: nat): (s: string)
    ensures s != "" && AllDigits(s)
  {
    if n < 10 then [Digit(n)] else Show(n / 10) + [Digit(n % 10)]
  }

  function Value(s: string): nat
    requires AllDigits(s)
  {
    if s == "" then 0 else 10 * Value(s[..|s| - 1]) + (s[|s| - 1] as int - '0' as int)
  }

  /** A value only for a non-empty run of digits. */
  function Parse(s: string): Option<nat> {
    if s != "" && AllDigits(s) then Some(Value(s)) else None
  }

  lemma {:induction false} ParseShow(n: nat)
    ensures Parse(Show(n)) == Some(n)
  {
    var s := Show(n);
    if n < 10 {
      assert s[..|s| - 1] == "";
      assert Value("") == 0;
    } else {
      ParseShow(n / 10);
      assert s[..|s| - 1] == Show(n / 10);
    }
  }

  /** Nothing but digits is read, and one more digit is worth ten times what stands in front of it and itself. */
  lemma ParseReads(s: string, d: char)
    ensures Parse(s).Some? <==> s != "" && forall c :: c in s ==> '0' <= c <= '9'
    ensures '0' <= d <= '9' ==> Parse([d]) == Some(d as int - '0' as int)
    ensures '0' <= d <= '9' && Parse(s).Some? ==> Parse(s + [d]) == Some(10 * Parse(s).value + (d as int - '0' as int))
  {
    assert (s + [d])[..|s|] == s;
    assert Value("") == 0 && [d][..0] == "";
    forall i | 0 <= i < |s| ensures s[i] in s {}
  }
}

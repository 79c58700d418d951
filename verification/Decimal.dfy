/** Decimal numerals: `str(n)` and `int(s)` for natural numbers. */
module Decimal {

  predicate Digit(c: char) {
    '0' <= c <= '9'
  }

  predicate Digits(s: string) {
    forall i :: 0 <= i < |s| ==> Digit(s[i])
  }

  function Str(n: nat): (s: string)
    ensures s != "" && Digits(s)
  {
    if n < 10 then ['0' + n as char] else Str(n / 10) + ['0' + (n % 10) as char]
  }

  function Value(s: string): nat
    requires Digits(s)
  {
    if s == "" then 0
    else 10 * Value(s[..|s| - 1]) + (s[|s| - 1] as int - '0' as int)
  }

  lemma {:induction false} ValueOfStr(n: nat)
    ensures Value(Str(n)) == n
  {
    var s := Str(n);
    if n >= 10 {
      ValueOfStr(n / 10);
      assert s[..|s| - 1] == Str(n / 10);
    } else {
      assert s[..0] == "";
    }
  }

  lemma StrInjective(m: nat, n: nat)
    requires Str(m) == Str(n)
    ensures m == n
  {
    ValueOfStr(m);
    ValueOfStr(n);
  }
}

/** JSON numerals: the lengths of their parts, and the texts that read as floating-point numbers
    (section 6 of RFC 8259, and the three names `json` adds). */
module Numerals {
  import opened Decimal

  function DigitRun(s: string): (n: nat)
    ensures n <= |s| && Digits(s[..n]) && (n < |s| ==> !Digit(s[n]))
  {
    if s != "" && Digit(s[0]) then 1 + DigitRun(s[1..]) else 0
  }

  /** `-?(0|[1-9][0-9]*)` at the start of `s`; 0 when there is none. */
  function IntLength(s: string): (n: nat)
    ensures n <= |s|
    ensures n > 0 ==> (s[0] == '-' && n > 1 && Digits(s[1..n])) || Digits(s[..n])
  {
    if s != "" && s[0] == '-' then
      var d := if |s| > 1 && s[1] == '0' then 1 else DigitRun(s[1..]);
      assert s[1..1 + d] == s[1..][..d];
      if d == 0 then 0 else 1 + d
    else if s != "" && s[0] == '0' then 1
    else DigitRun(s)
  }

  function FractionLength(s: string): (n: nat)
    ensures n <= |s|
  {
    if s != "" && s[0] == '.' && DigitRun(s[1..]) > 0 then 1 + DigitRun(s[1..]) else 0
  }

  function ExponentLength(s: string): (n: nat)
    ensures n <= |s|
  {
    if s != "" && (s[0] == 'e' || s[0] == 'E') then
      var sign := if |s| > 1 && (s[1] == '+' || s[1] == '-') then 1 else 0;
      if DigitRun(s[1 + sign..]) > 0 then 1 + sign + DigitRun(s[1 + sign..]) else 0
    else 0
  }

  /** No character of `b` could extend a number. */
  predicate NumberStops(b: string) {
    b == "" || (!Digit(b[0]) && b[0] != '.' && b[0] != 'e' && b[0] != 'E')
  }

  lemma {:induction false} DigitRunOver(a: string, b: string)
    requires Digits(a) && (b == "" || !Digit(b[0]))
    ensures DigitRun(a + b) == |a|
  {
    if a == "" {
      assert a + b == b;
    } else {
      assert (a + b)[0] == a[0] && (a + b)[1..] == a[1..] + b;
      DigitRunOver(a[1..], b);
    }
  }

  predicate FloatName(n: string) {
    n == "NaN" || n == "Infinity" || n == "-Infinity"
  }

  /** An integer part, and a fraction or an exponent, and nothing else. */
  predicate FloatDigits(n: string) {
    var i := IntLength(n);
    var f := FractionLength(n[i..]);
    var e := ExponentLength(n[i + f..]);
    i > 0 && f + e > 0 && i + f + e == |n|
  }

  /** A float is known by the text it reads from and prints as. */
  type Numeral = n: string | FloatName(n) || FloatDigits(n) witness "NaN"

  // ---------------------------------------------------------------- the parts of a prefix

  lemma {:induction false} DigitRunPrefix(s: string, k: nat)
    requires DigitRun(s) <= k <= |s|
    ensures DigitRun(s[..k]) == DigitRun(s)
  {
    if s != "" && Digit(s[0]) {
      assert s[..k][1..] == s[1..][..k - 1];
      DigitRunPrefix(s[1..], k - 1);
    }
  }

  lemma IntLengthPrefix(s: string, k: nat)
    requires 0 < IntLength(s) <= k <= |s|
    ensures IntLength(s[..k]) == IntLength(s)
  {
    hide DigitRun;
    if s[0] == '-' {
      assert s[..k][1..] == s[1..][..k - 1];
      if s[1] != '0' {
        DigitRunPrefix(s[1..], k - 1);
      }
    } else if s[0] != '0' {
      DigitRunPrefix(s, k);
    }
  }

  lemma FractionPrefix(s: string, k: nat)
    requires FractionLength(s) <= k <= |s|
    ensures FractionLength(s[..k]) == FractionLength(s)
  {
    hide DigitRun;
    if k > 0 && s[0] == '.' {
      assert s[..k][1..] == s[1..][..k - 1];
      DigitRunPrefix(s[1..], k - 1);
    }
  }

  lemma ExponentPrefix(s: string, k: nat)
    requires 0 < ExponentLength(s) <= k <= |s|
    ensures ExponentLength(s[..k]) == ExponentLength(s)
  {
    hide DigitRun;
    var sign := if |s| > 1 && (s[1] == '+' || s[1] == '-') then 1 else 0;
    assert s[..k][1 + sign..] == s[1 + sign..][..k - 1 - sign];
    DigitRunPrefix(s[1 + sign..], k - 1 - sign);
  }

  /** What the scan of a number stops at is a numeral. */
  lemma ScannedIsNumeral(s: string)
    ensures var i := IntLength(s);
            var f := FractionLength(s[i..]);
            var e := ExponentLength(s[i + f..]);
            i > 0 && f + e > 0 ==> FloatDigits(s[..i + f + e])
  {
    hide IntLength, FractionLength, ExponentLength;
    var i := IntLength(s);
    var f := FractionLength(s[i..]);
    var e := ExponentLength(s[i + f..]);
    if i > 0 && f + e > 0 {
      var n := s[..i + f + e];
      IntLengthPrefix(s, i + f + e);
      assert n[i..] == s[i..][..f + e];
      FractionPrefix(s[i..], f + e);
      assert n[i + f..] == s[i + f..][..e];
      if e > 0 {
        ExponentPrefix(s[i + f..], e);
      } else {
        NoExponent();
      }
    }
  }

  lemma NoExponent()
    ensures ExponentLength("") == 0
  {
  }

  // ---------------------------------------------------------------- the parts of a longer text

  lemma IntLengthOver(a: string, b: string)
    requires IntLength(a) > 0 && NumberStops(b)
    ensures IntLength(a + b) == IntLength(a)
  {
    hide DigitRun;
    var s := a + b;
    assert s[0] == a[0];
    if a[0] == '-' {
      assert s[1..] == a[1..] + b && s[1] == a[1];
      RunOver(a[1..], b);
    } else {
      RunOver(a, b);
    }
  }

  lemma {:induction false} RunOver(a: string, b: string)
    requires NumberStops(b)
    ensures DigitRun(a + b) == DigitRun(a)
  {
    if a == "" {
      assert a + b == b;
    } else {
      assert (a + b)[0] == a[0] && (a + b)[1..] == a[1..] + b;
      if Digit(a[0]) {
        RunOver(a[1..], b);
      }
    }
  }

  lemma FractionOver(a: string, b: string)
    requires NumberStops(b)
    ensures FractionLength(a + b) == FractionLength(a)
  {
    hide DigitRun;
    if a == "" {
      assert a + b == b;
    } else {
      assert (a + b)[0] == a[0] && (a + b)[1..] == a[1..] + b;
      RunOver(a[1..], b);
    }
  }

  lemma ExponentOver(a: string, b: string)
    requires NumberStops(b) && (a == "" || ExponentLength(a) > 0)
    ensures ExponentLength(a + b) == ExponentLength(a)
  {
    hide DigitRun;
    if a == "" {
      assert a + b == b;
    } else {
      var s := a + b;
      var sign := if |a| > 1 && (a[1] == '+' || a[1] == '-') then 1 else 0;
      assert s[0] == a[0] && s[1..] == a[1..] + b;
      assert |a| > 1;
      assert s[1] == a[1] && s[1 + sign..] == a[1 + sign..] + b;
      RunOver(a[1 + sign..], b);
    }
  }

  /** A numeral is scanned whole, whatever follows that could not extend a number. */
  lemma NumeralOver(n: string, b: string)
    requires FloatDigits(n) && NumberStops(b)
    ensures var s := n + b;
            var i := IntLength(s);
            i > 0 && (var f := FractionLength(s[i..]); var e := ExponentLength(s[i + f..]); f + e > 0 && i + f + e == |n|)
  {
    hide IntLength, FractionLength, ExponentLength, NumberStops;
    var i := IntLength(n);
    var f := FractionLength(n[i..]);
    var s := n + b;
    IntLengthOver(n, b);
    assert s[i..] == n[i..] + b;
    FractionOver(n[i..], b);
    assert s[i + f..] == n[i + f..] + b;
    PartIsExponent(n[i + f..]);
    ExponentOver(n[i + f..], b);
  }

  lemma PartIsExponent(x: string)
    requires ExponentLength(x) == |x|
    ensures x == "" || ExponentLength(x) > 0
  {
  }
}

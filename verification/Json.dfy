/** JSON text: a printer in any of `json.dumps`'s layouts, and the decoder of `raw_decode`,
    which reads one value at the start of a text and leaves the rest (RFC 8259). */
module Json {
  import opened Decimal
  import opened Numerals

  /** Fields keep their order; a reader takes the last of two fields with one name. */
  datatype Json =
    | Null
    | Bool(b: bool)
    | Int(n: int)
    | Float(numeral: Numeral)
    | Text(s: string)
    | Arr(items: seq<Json>)
    | Obj(fields: seq<(string, Json)>)

  datatype Parsed<+T> = Got(value: T, rest: string) | Bad

  // ---------------------------------------------------------------- layout

  predicate Blank(c: char) {
    c == ' ' || c == '\t' || c == '\n' || c == '\r'
  }

  predicate AllBlank(s: string) {
    forall i :: 0 <= i < |s| ==> Blank(s[i])
  }

  function SkipBlank(s: string): (r: string)
    ensures |r| <= |s|
    ensures r == "" || !Blank(r[0])
  {
    if s != "" && Blank(s[0]) then SkipBlank(s[1..]) else s
  }

  lemma {:induction false} SkipBlankOver(a: string, b: string)
    requires AllBlank(a) && (b == "" || !Blank(b[0]))
    ensures SkipBlank(a + b) == b
  {
    if a == "" {
      assert a + b == b;
    } else {
      assert (a + b)[0] == a[0] && (a + b)[1..] == a[1..] + b;
      SkipBlankOver(a[1..], b);
    }
  }

  // ---------------------------------------------------------------- strings

  function HexDigit(n: nat): char
    requires n < 16
  {
    if n < 10 then '0' + n as char else 'a' + (n - 10) as char
  }

  function HexValue(c: char): int {
    if '0' <= c <= '9' then c as int - '0' as int
    else if 'a' <= c <= 'f' then c as int - 'a' as int + 10
    else if 'A' <= c <= 'F' then c as int - 'A' as int + 10
    else -1
  }

  function Hex4(n: nat): (s: string)
    requires n < 0x10000
    ensures |s| == 4
  {
    [HexDigit(n / 0x1000), HexDigit(n / 0x100 % 16), HexDigit(n / 16 % 16), HexDigit(n % 16)]
  }

  /** Four hexadecimal digits at the start of `s`; -1 when they are not there. */
  function Unhex4(s: string): int {
    if |s| < 4 then -1
    else
      var a, b, c, d := HexValue(s[0]), HexValue(s[1]), HexValue(s[2]), HexValue(s[3]);
      if a < 0 || b < 0 || c < 0 || d < 0 then -1 else a * 0x1000 + b * 0x100 + c * 16 + d
  }

  lemma HexDigitValue(n: nat)
    requires n < 16
    ensures HexValue(HexDigit(n)) == n
  {
  }

  lemma HexParts(n: nat)
    requires n < 0x10000
    ensures n == n / 0x1000 * 0x1000 + n / 0x100 % 16 * 0x100 + n / 16 % 16 * 16 + n % 16
    ensures n / 0x1000 < 16
  {
  }

  lemma Unhex4OfHex4(n: nat, b: string)
    requires n < 0x10000
    ensures Unhex4(Hex4(n) + b) == n
  {
    HexParts(n);
    HexDigitValue(n / 0x1000);
    HexDigitValue(n / 0x100 % 16);
    HexDigitValue(n / 16 % 16);
    HexDigitValue(n % 16);
    Unhex4Of(HexDigit(n / 0x1000), HexDigit(n / 0x100 % 16), HexDigit(n / 16 % 16), HexDigit(n % 16), b);
    hide HexDigit, HexValue, Unhex4;
  }

  lemma Unhex4Of(a: char, b: char, c: char, d: char, tail: string)
    requires HexValue(a) >= 0 && HexValue(b) >= 0 && HexValue(c) >= 0 && HexValue(d) >= 0
    ensures Unhex4([a, b, c, d] + tail) == HexValue(a) * 0x1000 + HexValue(b) * 0x100 + HexValue(c) * 16 + HexValue(d)
  {
    hide HexValue;
  }

  /** One character as `json.dumps` escapes it, in ASCII. */
  function Escaped(c: char): string {
    if c == '"' then "\\\""
    else if c == '\\' then "\\\\"
    else if c == '\n' then "\\n"
    else if c == '\r' then "\\r"
    else if c == '\t' then "\\t"
    else if c as int == 8 then "\\b"
    else if c as int == 12 then "\\f"
    else if ' ' <= c <= '~' then [c]
    else if c as int < 0x10000 then "\\u" + Hex4(c as int)
    else
      var m := c as int - 0x10000;
      "\\u" + Hex4(0xd800 + m / 0x400) + "\\u" + Hex4(0xdc00 + m % 0x400)
  }

  function EscapedAll(s: string): string {
    if s == "" then "" else Escaped(s[0]) + EscapedAll(s[1..])
  }

  function Quoted(s: string): string {
    "\"" + EscapedAll(s) + "\""
  }

  /** One character of a string literal; `s` is not empty and does not start with a quote. */
  function DecodeChar(s: string): (r: Parsed<char>)
    ensures r.Got? ==> |r.rest| < |s|
  {
    if s == "" || s[0] == '"' || s[0] < ' ' then Bad
    else if s[0] != '\\' then Got(s[0], s[1..])
    else if |s| < 2 then Bad
    else if s[1] == '"' || s[1] == '\\' || s[1] == '/' then Got(s[1], s[2..])
    else if s[1] == 'n' then Got('\n', s[2..])
    else if s[1] == 'r' then Got('\r', s[2..])
    else if s[1] == 't' then Got('\t', s[2..])
    else if s[1] == 'b' then Got(8 as char, s[2..])
    else if s[1] == 'f' then Got(12 as char, s[2..])
    else if s[1] == 'u' then DecodeUnicode(s[2..])
    else Bad
  }

  /** The digits after `\u`, and for a high surrogate the low one after it. */
  function DecodeUnicode(s: string): (r: Parsed<char>)
    ensures r.Got? ==> |r.rest| < |s|
  {
    var n := Unhex4(s);
    if n < 0 then Bad
    else if n < 0xd800 || 0xe000 <= n < 0x10000 then Got(n as char, s[4..])
    else if n < 0xdc00 && |s| >= 6 && s[4] == '\\' && s[5] == 'u' && 0xdc00 <= Unhex4(s[6..]) < 0xe000 then
      Got((0x10000 + (n - 0xd800) * 0x400 + (Unhex4(s[6..]) - 0xdc00)) as char, s[10..])
    else Bad
  }

  /** A string literal, after its opening quote. */
  function DecodeString(s: string): (r: Parsed<string>)
    ensures r.Got? ==> |r.rest| < |s|
    decreases |s|
  {
    if s == "" then Bad
    else if s[0] == '"' then Got("", s[1..])
    else
      var c := DecodeChar(s);
      if c.Bad? then Bad
      else
        var tail := DecodeString(c.rest);
        if tail.Bad? then Bad else Got([c.value] + tail.value, tail.rest)
  }

  lemma PlainChar(c: char, b: string)
    requires ' ' <= c <= '~' && c != '"' && c != '\\'
    ensures DecodeChar([c] + b) == Got(c, b)
  {
    assert ([c] + b)[1..] == b;
  }

  lemma ShortEscape(e: char, b: string)
    ensures var s := ['\\', e] + b;
            && |s| >= 2 && s[0] == '\\' && s[1] == e && s[2..] == b
  {
  }

  lemma UnicodeEscape(n: nat, b: string)
    requires n < 0x10000 && (n < 0xd800 || 0xe000 <= n)
    ensures DecodeUnicode(Hex4(n) + b) == Got(n as char, b)
  {
    Unhex4OfHex4(n, b);
    assert (Hex4(n) + b)[4..] == b;
  }

  /** A surrogate pair, for a character outside the basic plane. */
  lemma PairEscape(hi: nat, lo: nat, b: string)
    requires 0xd800 <= hi < 0xdc00 <= lo < 0xe000
    ensures DecodeUnicode(Hex4(hi) + "\\u" + Hex4(lo) + b) ==
            Got((0x10000 + (hi - 0xd800) * 0x400 + (lo - 0xdc00)) as char, b)
  {
    var tail := "\\u" + Hex4(lo) + b;
    var s := Hex4(hi) + "\\u" + Hex4(lo) + b;
    Unhex4OfHex4(hi, tail);
    Unhex4OfHex4(lo, b);
    hide Hex4, Unhex4;
    assert s == Hex4(hi) + tail;
    assert s[4] == '\\' && s[5] == 'u' && s[6..] == Hex4(lo) + b && s[10..] == b;
  }

  lemma UnicodeAfter(tail: string)
    ensures DecodeChar("\\u" + tail) == DecodeUnicode(tail)
  {
    hide DecodeUnicode;
    ShortEscape('u', tail);
  }

  lemma PairParts(n: nat)
    requires 0x10000 <= n < 0x110000
    ensures var (hi, lo) := (0xd800 + (n - 0x10000) / 0x400, 0xdc00 + (n - 0x10000) % 0x400);
            hi < 0xdc00 && lo < 0xe000 && 0x10000 + (hi - 0xd800) * 0x400 + (lo - 0xdc00) == n
  {
  }

  lemma EscapedBasic(c: char, b: string)
    requires 0x7e < c as int < 0x10000
    ensures Escaped(c) != "" && DecodeChar(Escaped(c) + b) == Got(c, b) && Escaped(c)[0] != '"'
  {
    var n := c as int;
    assert Escaped(c) == "\\u" + Hex4(n);
    UnicodeEscape(n, b);
    UnicodeAfter(Hex4(n) + b);
    hide Hex4, DecodeUnicode, DecodeChar, Escaped;
    assert Escaped(c) + b == "\\u" + (Hex4(n) + b);
  }

  lemma EscapedPair(c: char, b: string)
    requires 0x10000 <= c as int
    ensures Escaped(c) != "" && DecodeChar(Escaped(c) + b) == Got(c, b) && Escaped(c)[0] != '"'
  {
    hide Hex4, DecodeUnicode, DecodeChar, Unhex4;
    PairParts(c as int);
    var hi, lo := 0xd800 + (c as int - 0x10000) / 0x400, 0xdc00 + (c as int - 0x10000) % 0x400;
    EscapedAsPair(c, hi, lo);
    hide Escaped;
    PairEscape(hi, lo, b);
    var tail := Hex4(hi) + "\\u" + Hex4(lo) + b;
    UnicodeAfter(tail);
    assert Escaped(c) + b == "\\u" + tail;
  }

  lemma EscapedAsPair(c: char, hi: nat, lo: nat)
    requires 0x10000 <= c as int
    requires hi == 0xd800 + (c as int - 0x10000) / 0x400 && lo == 0xdc00 + (c as int - 0x10000) % 0x400
    ensures hi < 0x10000 && lo < 0x10000 && Escaped(c) == "\\u" + Hex4(hi) + "\\u" + Hex4(lo)
  {
    PairParts(c as int);
    hide Hex4;
  }

  predicate ShortEscaped(c: char) {
    c == '"' || c == '\\' || c == '\n' || c == '\r' || c == '\t' || c as int == 8 || c as int == 12
  }

  lemma EscapedShort(c: char, b: string)
    requires ShortEscaped(c)
    ensures Escaped(c) != "" && DecodeChar(Escaped(c) + b) == Got(c, b) && Escaped(c)[0] != '"'
  {
    assert Escaped(c) == ['\\', Escaped(c)[1]];
    ShortEscape(Escaped(c)[1], b);
  }

  lemma EscapedControl(c: char, b: string)
    requires c < ' ' && !ShortEscaped(c)
    ensures Escaped(c) != "" && DecodeChar(Escaped(c) + b) == Got(c, b) && Escaped(c)[0] != '"'
  {
    hide Hex4, DecodeUnicode, DecodeChar;
    var n := c as int;
    assert Escaped(c) == "\\u" + Hex4(n);
    UnicodeEscape(n, b);
    UnicodeAfter(Hex4(n) + b);
    hide Escaped;
    assert Escaped(c) + b == "\\u" + (Hex4(n) + b);
  }

  lemma EscapedNarrow(c: char, b: string)
    requires c as int <= 0x7e
    ensures Escaped(c) != "" && DecodeChar(Escaped(c) + b) == Got(c, b) && Escaped(c)[0] != '"'
  {
    hide DecodeChar;
    if ShortEscaped(c) {
      EscapedShort(c, b);
    } else if ' ' <= c {
      assert Escaped(c) == [c];
      PlainChar(c, b);
    } else {
      EscapedControl(c, b);
    }
  }

  /** Every character survives its escape. */
  lemma CharRoundTrip(c: char, b: string)
    ensures Escaped(c) != ""
    ensures DecodeChar(Escaped(c) + b) == Got(c, b)
    ensures Escaped(c)[0] != '"'
  {
    EscapedNotEmpty(c);
    hide Escaped, DecodeChar;
    if c as int >= 0x10000 {
      EscapedPair(c, b);
    } else if c as int > 0x7e {
      EscapedBasic(c, b);
    } else {
      EscapedNarrow(c, b);
    }
  }

  lemma {:induction false} StringRoundTrip(s: string, b: string)
    ensures DecodeString(EscapedAll(s) + "\"" + b) == Got(s, b)
  {
    hide Escaped, DecodeChar;
    if s == "" {
      assert EscapedAll(s) + "\"" + b == ['"'] + b;
      assert (['"'] + b)[1..] == b;
    } else {
      var tail := EscapedAll(s[1..]) + "\"" + b;
      StringRoundTrip(s[1..], b);
      CharRoundTrip(s[0], tail);
      assert EscapedAll(s) + "\"" + b == Escaped(s[0]) + tail;
      assert (Escaped(s[0]) + tail)[0] == Escaped(s[0])[0];
      assert s == [s[0]] + s[1..];
    }
  }

  lemma EscapedNotEmpty(c: char)
    ensures Escaped(c) != ""
  {
  }
}

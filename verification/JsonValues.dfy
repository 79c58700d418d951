/** JSON values: printing in any layout, decoding, and the round trip between them. */
module JsonValues {
  import opened Lists
  import opened Decimal
  import opened Numerals
  import opened Json

  // ---------------------------------------------------------------- decoding

  function IntValue(s: string): int
    requires s != "" && ((s[0] == '-' && Digits(s[1..])) || Digits(s))
  {
    if s[0] == '-' then 0 - Value(s[1..]) else Value(s)
  }

  function DecodeNumber(s: string): (r: Parsed<Json>)
    ensures r.Got? ==> |r.rest| < |s|
  {
    var i := IntLength(s);
    if i == 0 then Bad
    else
      var f := FractionLength(s[i..]);
      var e := ExponentLength(s[i + f..]);
      ScannedIsNumeral(s);
      if f + e == 0 then Got(Int(IntValue(s[..i])), s[i..]) else Got(Float(s[..i + f + e]), s[i + f + e..])
  }

  predicate Starts(s: string, word: string) {
    |word| <= |s| && s[..|word|] == word
  }

  /** `scan_once`: one value at the very start of `s`. */
  function DecodeValue(s: string): (r: Parsed<Json>)
    ensures r.Got? ==> |r.rest| < |s|
    decreases |s|, 1
  {
    if s == "" then Bad
    else if s[0] == '"' then
      var t := DecodeString(s[1..]);
      if t.Bad? then Bad else Got(Text(t.value), t.rest)
    else if s[0] == '[' then
      var t := DecodeArray(s[1..]);
      if t.Bad? then Bad else Got(Arr(t.value), t.rest)
    else if s[0] == '{' then
      var t := DecodeObject(s[1..]);
      if t.Bad? then Bad else Got(Obj(t.value), t.rest)
    else if Starts(s, "null") then Got(Null, s[4..])
    else if Starts(s, "true") then Got(Bool(true), s[4..])
    else if Starts(s, "false") then Got(Bool(false), s[5..])
    else if Starts(s, "NaN") then Got(Float("NaN"), s[3..])
    else if Starts(s, "Infinity") then Got(Float("Infinity"), s[8..])
    else if Starts(s, "-Infinity") then Got(Float("-Infinity"), s[9..])
    else DecodeNumber(s)
  }

  /** After the opening bracket. */
  function DecodeArray(s: string): (r: Parsed<seq<Json>>)
    ensures r.Got? ==> |r.rest| < |s|
    decreases |s|, 3
  {
    var t := SkipBlank(s);
    if t != "" && t[0] == ']' then Got([], t[1..]) else DecodeItems(t)
  }

  function DecodeItems(s: string): (r: Parsed<seq<Json>>)
    ensures r.Got? ==> |r.rest| < |s|
    decreases |s|, 2
  {
    var v := DecodeValue(s);
    if v.Bad? then Bad
    else
      var t := SkipBlank(v.rest);
      if t == "" then Bad
      else if t[0] == ']' then Got([v.value], t[1..])
      else if t[0] != ',' then Bad
      else
        var more := DecodeItems(SkipBlank(t[1..]));
        if more.Bad? then Bad else Got([v.value] + more.value, more.rest)
  }

  /** After the opening brace. */
  function DecodeObject(s: string): (r: Parsed<seq<(string, Json)>>)
    ensures r.Got? ==> |r.rest| < |s|
    decreases |s|, 3
  {
    var t := SkipBlank(s);
    if t != "" && t[0] == '}' then Got([], t[1..]) else DecodeFields(t)
  }

  function DecodeField(s: string): (r: Parsed<(string, Json)>)
    ensures r.Got? ==> |r.rest| < |s|
    decreases |s|, 1
  {
    if s == "" || s[0] != '"' then Bad
    else
      var k := DecodeString(s[1..]);
      if k.Bad? then Bad
      else
        var t := SkipBlank(k.rest);
        if t == "" || t[0] != ':' then Bad
        else
          var v := DecodeValue(SkipBlank(t[1..]));
          if v.Bad? then Bad else Got((k.value, v.value), v.rest)
  }

  function DecodeFields(s: string): (r: Parsed<seq<(string, Json)>>)
    ensures r.Got? ==> |r.rest| < |s|
    decreases |s|, 2
  {
    var f := DecodeField(s);
    if f.Bad? then Bad
    else
      var t := SkipBlank(f.rest);
      if t == "" then Bad
      else if t[0] == '}' then Got([f.value], t[1..])
      else if t[0] != ',' then Bad
      else
        var more := DecodeFields(SkipBlank(t[1..]));
        if more.Bad? then Bad else Got([f.value] + more.value, more.rest)
  }

  /** `json.loads`: one value, and nothing but blanks around it. */
  function Loads(s: string): Parsed<Json> {
    var v := DecodeValue(SkipBlank(s));
    if v.Got? && SkipBlank(v.rest) == "" then Got(v.value, "") else Bad
  }

  // ---------------------------------------------------------------- fields of an object

  /** `d.get(key)` on a decoded object: the last field of that name. */
  function Field(fields: seq<(string, Json)>, key: string): Option<Json> {
    if fields == [] then None
    else
      var last := |fields| - 1;
      if fields[last].0 == key then Some(fields[last].1) else Field(fields[..last], key)
  }

  lemma FieldLast(fields: seq<(string, Json)>, f: (string, Json), key: string)
    ensures Field(fields + [f], key) == if f.0 == key then Some(f.1) else Field(fields, key)
  {
    assert (fields + [f])[..|fields|] == fields;
  }

  /** The last field of that name counts. */
  lemma {:induction false} FieldIsLast(fields: seq<(string, Json)>, key: string)
    ensures Field(fields, key).Some? <==> exists n: nat :: n < |fields| && fields[n].0 == key
    ensures forall n: nat :: n < |fields| && fields[n].0 == key && (forall m :: n < m < |fields| ==> fields[m].0 != key) ==>
              Field(fields, key) == Some(fields[n].1)
    ensures Field(fields, key).Some? ==>
              exists n: nat :: n < |fields| && fields[n].0 == key && Field(fields, key) == Some(fields[n].1) &&
                forall m :: n < m < |fields| ==> fields[m].0 != key
  {
    if fields != [] {
      var last := |fields| - 1;
      FieldIsLast(fields[..last], key);
      if fields[last].0 != key && Field(fields[..last], key).Some? {
        var n: nat :| n < last && fields[..last][n].0 == key && Field(fields[..last], key) == Some(fields[..last][n].1) &&
          forall m :: n < m < last ==> fields[..last][m].0 != key;
        assert fields[n].0 == key && forall m :: n < m < |fields| ==> m == last || fields[m] == fields[..last][m];
      }
    }
  }

  // ---------------------------------------------------------------- printing

  /** What a layout puts after an opening bracket, after a comma, before a closing bracket -
      by depth - and after a colon. */
  datatype Style = Style(open: nat -> string, comma: nat -> string, close: nat -> string, colon: string)

  ghost predicate StyleOk(st: Style) {
    AllBlank(st.colon) && forall l :: AllBlank(st.open(l)) && AllBlank(st.comma(l)) && AllBlank(st.close(l))
  }

  function PrintInt(n: int): string {
    if n < 0 then "-" + Str(-n) else Str(n)
  }

  function Print(v: Json, st: Style, l: nat): string
    decreases v, 1
  {
    match v
    case Null => "null"
    case Bool(b) => if b then "true" else "false"
    case Int(n) => PrintInt(n)
    case Float(numeral) => numeral
    case Text(s) => Quoted(s)
    case Arr(items) =>
      if items == [] then "[]" else "[" + st.open(l) + PrintItems(items, st, l) + st.close(l) + "]"
    case Obj(fields) =>
      if fields == [] then "{}" else "{" + st.open(l) + PrintFields(fields, st, l) + st.close(l) + "}"
  }

  function PrintItems(items: seq<Json>, st: Style, l: nat): string
    requires items != []
    decreases items, 0
  {
    if |items| == 1 then Print(items[0], st, l + 1)
    else Print(items[0], st, l + 1) + "," + st.comma(l) + PrintItems(items[1..], st, l)
  }

  function PrintField(f: (string, Json), st: Style, l: nat): string
    decreases f, 0
  {
    Quoted(f.0) + ":" + st.colon + Print(f.1, st, l + 1)
  }

  function PrintFields(fields: seq<(string, Json)>, st: Style, l: nat): string
    requires fields != []
    decreases fields, 0
  {
    if |fields| == 1 then PrintField(fields[0], st, l)
    else PrintField(fields[0], st, l) + "," + st.comma(l) + PrintFields(fields[1..], st, l)
  }

  // ---------------------------------------------------------------- numbers

  lemma {:induction false} StrNoLeadingZero(n: nat)
    ensures Str(n)[0] == '0' ==> n == 0
    ensures n < 10 ==> |Str(n)| == 1
  {
    if n >= 10 {
      StrNoLeadingZero(n / 10);
    }
  }

  lemma IntLengthOf(n: int, b: string)
    requires NumberStops(b)
    ensures IntLength(PrintInt(n) + b) == |PrintInt(n)|
  {
    var m := if n < 0 then -n else n;
    var d := Str(m);
    StrNoLeadingZero(m);
    DigitRunOver(d, b);
    hide Str, DigitRun;
    var s := PrintInt(n) + b;
    if n < 0 {
      assert s == "-" + (d + b);
      assert s[0] == '-' && s[1..] == d + b && s[1] == d[0];
    } else {
      assert s[0] == d[0];
      if d[0] == '0' {
        assert d == Str(0);
        assert |d| == 1;
      }
    }
  }

  lemma NumberRoundTrip(n: int, b: string)
    requires NumberStops(b)
    ensures DecodeNumber(PrintInt(n) + b) == Got(Int(n), b)
  {
    var p := PrintInt(n);
    var s := p + b;
    IntLengthOf(n, b);
    ValueOfStr(if n < 0 then -n else n);
    assert s[..|p|] == p && s[|p|..] == b;
    NothingMore(b);
    IntValueOf(n);
    hide IntLength, PrintInt, FractionLength, ExponentLength, IntValue;
    assert b[0..] == b;
  }

  lemma NothingMore(b: string)
    requires NumberStops(b)
    ensures FractionLength(b) == 0 && ExponentLength(b) == 0
  {
  }

  lemma IntValueOf(n: int)
    ensures var p := PrintInt(n);
            p != "" && ((p[0] == '-' && Digits(p[1..])) || Digits(p)) && IntValue(p) == n
  {
    var d := Str(if n < 0 then -n else n);
    ValueOfStr(if n < 0 then -n else n);
    hide Str, Value;
    if n < 0 {
      assert PrintInt(n)[1..] == d;
    } else {
      assert Digit(d[0]);
    }
  }

  // ---------------------------------------------------------------- the round trip

  /** The first character of a printed value is neither blank nor a closing bracket. */
  predicate Opens(s: string) {
    s != "" && !Blank(s[0]) && s[0] != ']' && s[0] != '}' && s[0] != ','
  }

  lemma PrintOpens(v: Json, st: Style, l: nat)
    ensures Opens(Print(v, st, l))
    ensures v.Int? ==> Print(v, st, l)[0] == '-' || Digit(Print(v, st, l)[0])
  {
    hide PrintInt, Quoted, PrintItems, PrintFields, FloatName, FloatDigits;
    match v
    case Int(n) => IntOpens(n);
    case Float(n) => NumeralOpens(n);
    case Text(s) => QuotedOpens(s);
    case _ =>
  }

  lemma NumeralOpens(n: Numeral)
    ensures Opens(n)
  {
    if FloatDigits(n) {
      DigitsOpen(n);
    }
    hide FloatDigits;
  }

  lemma IntOpens(n: int)
    ensures PrintInt(n) != "" && (PrintInt(n)[0] == '-' || Digit(PrintInt(n)[0]))
    ensures n >= 0 ==> Digits(PrintInt(n))
    ensures n < 0 ==> |PrintInt(n)| > 1 && Digit(PrintInt(n)[1])
  {
  }

  lemma QuotedOpens(s: string)
    ensures Quoted(s) != "" && Quoted(s)[0] == '"'
  {
  }

  lemma OpensOver(a: string, b: string)
    requires Opens(a)
    ensures Opens(a + b) && (a + b)[0] == a[0]
  {
  }

  /** A blank run, then something that opens: skipping lands on it. */
  lemma SkipTo(blank: string, a: string, b: string)
    requires AllBlank(blank) && a != "" && !Blank(a[0])
    ensures SkipBlank(blank + a + b) == a + b
  {
    SkipBlankOver(blank, a + b);
    assert blank + a + b == blank + (a + b);
  }

  lemma ItemsOpen(items: seq<Json>, st: Style, l: nat)
    requires items != []
    ensures Opens(PrintItems(items, st, l))
  {
    PrintOpens(items[0], st, l + 1);
    hide Print;
  }

  lemma FieldOpens(f: (string, Json), st: Style, l: nat)
    ensures PrintField(f, st, l) != "" && PrintField(f, st, l)[0] == '"' && Opens(PrintField(f, st, l))
  {
    QuotedOpens(f.0);
    hide Quoted, Print;
  }

  lemma FieldsOpen(fields: seq<(string, Json)>, st: Style, l: nat)
    requires fields != []
    ensures Opens(PrintFields(fields, st, l))
  {
    FieldOpens(fields[0], st, l);
    hide PrintField;
  }

  /** Whatever the layout, the depth and the text that follows, a printed value decodes to
      itself and leaves exactly what followed it. */
  lemma {:induction false} ValueRoundTrip(v: Json, st: Style, l: nat, b: string)
    requires StyleOk(st) && (v.Int? || v.Float? ==> NumberStops(b))
    ensures DecodeValue(Print(v, st, l) + b) == Got(v, b)
    decreases v, 1
  {
    hide DecodeString, DecodeArray, DecodeObject, DecodeNumber, PrintItems, PrintFields, Quoted, PrintInt, StyleOk;
    match v
    case Null => assert "null" + b != "" && ("null" + b)[..4] == "null" && ("null" + b)[4..] == b;
    case Bool(x) =>
      assert ("true" + b)[..4] == "true" && ("true" + b)[4..] == b;
      assert ("false" + b)[..5] == "false" && ("false" + b)[5..] == b;
      assert ("false" + b)[0] == 'f' && ("true" + b)[0] == 't';
    case Int(n) =>
      NumberRoundTrip(n, b);
      IntIsNumber(n, b);
    case Float(numeral) =>
      FloatRoundTrip(numeral, b);
    case Text(s) =>
      StringRoundTrip(s, b);
      QuotedTail(s, b);
    case Arr(items) =>
      ArrayRoundTrip(items, st, l, b);
    case Obj(fields) =>
      ObjectRoundTrip(fields, st, l, b);
  }

  lemma FloatRoundTrip(n: Numeral, b: string)
    requires NumberStops(b)
    ensures DecodeValue(n + b) == Got(Float(n), b)
  {
    if FloatName(n) {
      FloatNameReads(n, b);
    } else {
      DigitsOpen(n);
      NumberIsNumber(n, b);
      NumeralOver(n, b);
      hide IntLength, FractionLength, ExponentLength, DecodeValue;
      assert (n + b)[..|n|] == n && (n + b)[|n|..] == b;
    }
  }

  lemma FloatNameReads(n: string, b: string)
    requires FloatName(n)
    ensures DecodeValue(n + b) == Got(Float(n), b)
  {
    var s := n + b;
    assert s[0] == n[0];
    StartsAt(s, "null", 0);
    StartsAt(s, "true", 0);
    StartsAt(s, "false", 0);
    StartsAt(s, "NaN", 0);
    StartsAt(s, "Infinity", 0);
    assert s[..|n|] == n && s[|n|..] == b;
    hide DecodeNumber, DecodeString, DecodeArray, DecodeObject;
  }

  /** A floating-point number starts as an integer does. */
  lemma DigitsOpen(n: string)
    requires FloatDigits(n)
    ensures |n| > 1 && (n[0] == '-' || Digit(n[0])) && (n[0] == '-' ==> Digit(n[1]))
  {
    hide FractionLength, ExponentLength;
  }

  /** A numeral is not mistaken for another kind of value. */
  lemma NumberIsNumber(n: string, b: string)
    requires n != "" && (n[0] == '-' || Digit(n[0])) && (n[0] == '-' ==> |n| > 1 && Digit(n[1]))
    ensures DecodeValue(n + b) == DecodeNumber(n + b)
  {
    hide DecodeNumber, DecodeString, DecodeArray, DecodeObject;
    var s := n + b;
    assert s[0] == n[0];
    if n[0] == '-' {
      assert s[1] == n[1];
    }
    StartsAt(s, "-Infinity", 0);
    StartsAt(s, "-Infinity", 1);
    StartsAt(s, "null", 0);
    StartsAt(s, "true", 0);
    StartsAt(s, "false", 0);
    StartsAt(s, "NaN", 0);
    StartsAt(s, "Infinity", 0);
    hide Starts, DecodeValue;
    assert s[0] == '-' || Digit(s[0]);
    assert !Starts(s, "null") && !Starts(s, "true") && !Starts(s, "false") && !Starts(s, "NaN");
    assert !Starts(s, "Infinity") && !Starts(s, "-Infinity");
    PlainNumber(s);
  }

  lemma IntIsNumber(n: int, b: string)
    ensures DecodeValue(PrintInt(n) + b) == DecodeNumber(PrintInt(n) + b)
  {
    IntOpens(n);
    hide DecodeNumber, PrintInt, DecodeValue;
    NumberIsNumber(PrintInt(n), b);
  }

  lemma PlainNumber(s: string)
    requires s != "" && (s[0] == '-' || Digit(s[0]))
    requires !Starts(s, "null") && !Starts(s, "true") && !Starts(s, "false") && !Starts(s, "NaN")
    requires !Starts(s, "Infinity") && !Starts(s, "-Infinity")
    ensures DecodeValue(s) == DecodeNumber(s)
  {
    hide DecodeNumber, Starts, DecodeString, DecodeArray, DecodeObject;
  }

  lemma StartsAt(s: string, word: string, i: nat)
    requires i < |word|
    ensures Starts(s, word) ==> i < |s| && s[i] == word[i]
  {
    if Starts(s, word) {
      assert s[..|word|][i] == word[i];
    }
  }

  lemma QuotedTail(s: string, b: string)
    ensures var q := Quoted(s) + b;
            q != "" && q[0] == '"' && q[1..] == EscapedAll(s) + "\"" + b
  {
    hide EscapedAll;
  }

  lemma {:induction false} ArrayRoundTrip(items: seq<Json>, st: Style, l: nat, b: string)
    requires StyleOk(st)
    ensures DecodeValue(Print(Arr(items), st, l) + b) == Got(Arr(items), b)
    decreases items, 1
  {
    hide DecodeItems, PrintItems, DecodeString, DecodeObject, DecodeNumber;
    if items == [] {
      assert ("[]" + b)[0] == '[' && ("[]" + b)[1..] == "]" + b;
      assert SkipBlank("]" + b) == "]" + b && ("]" + b)[1..] == b;
    } else {
      var body := PrintItems(items, st, l);
      var tail := st.close(l) + "]" + b;
      var s := Print(Arr(items), st, l) + b;
      assert s == "[" + (st.open(l) + body + tail);
      assert s[0] == '[' && s[1..] == st.open(l) + body + tail;
      ItemsOpen(items, st, l);
      SkipTo(st.open(l), body, tail);
      OpensOver(body, tail);
      ItemsRoundTrip(items, st, l, b);
    }
  }

  lemma {:induction false} ItemsRoundTrip(items: seq<Json>, st: Style, l: nat, b: string)
    requires items != [] && StyleOk(st)
    ensures DecodeItems(PrintItems(items, st, l) + (st.close(l) + "]" + b)) == Got(items, b)
    decreases items, 0
  {
    hide DecodeValue, Print, DecodeString;
    var first := Print(items[0], st, l + 1);
    var close := st.close(l) + "]" + b;
    if |items| == 1 {
      BlankStops(st.close(l), "]" + b);
      assert close == st.close(l) + ("]" + b);
      ValueRoundTrip(items[0], st, l + 1, close);
      SkipTo(st.close(l), "]", b);
      assert ("]" + b)[0] == ']' && ("]" + b)[1..] == b;
      assert items == [items[0]];
    } else {
      var rest := PrintItems(items[1..], st, l);
      var after := "," + (st.comma(l) + rest + close);
      assert PrintItems(items, st, l) + close == first + after;
      ValueRoundTrip(items[0], st, l + 1, after);
      assert SkipBlank(after) == after && after[1..] == st.comma(l) + rest + close;
      ItemsOpen(items[1..], st, l);
      SkipTo(st.comma(l), rest, close);
      ItemsRoundTrip(items[1..], st, l, b);
      assert items == [items[0]] + items[1..];
    }
  }

  lemma BlankStops(blank: string, s: string)
    requires AllBlank(blank) && NumberStops(s)
    ensures NumberStops(blank + s)
  {
    if blank == "" {
      assert blank + s == s;
    } else {
      assert (blank + s)[0] == blank[0];
    }
  }

  lemma {:induction false} ObjectRoundTrip(fields: seq<(string, Json)>, st: Style, l: nat, b: string)
    requires StyleOk(st)
    ensures DecodeValue(Print(Obj(fields), st, l) + b) == Got(Obj(fields), b)
    decreases fields, 1
  {
    hide DecodeFields, PrintFields, DecodeString, DecodeArray, DecodeNumber;
    if fields == [] {
      assert ("{}" + b)[0] == '{' && ("{}" + b)[1..] == "}" + b;
      assert SkipBlank("}" + b) == "}" + b && ("}" + b)[1..] == b;
    } else {
      var body := PrintFields(fields, st, l);
      var tail := st.close(l) + "}" + b;
      var s := Print(Obj(fields), st, l) + b;
      assert s == "{" + (st.open(l) + body + tail);
      assert s[0] == '{' && s[1..] == st.open(l) + body + tail;
      FieldsOpen(fields, st, l);
      SkipTo(st.open(l), body, tail);
      OpensOver(body, tail);
      FieldsRoundTrip(fields, st, l, b);
    }
  }

  lemma {:induction false} FieldRoundTrip(f: (string, Json), st: Style, l: nat, b: string)
    requires StyleOk(st) && NumberStops(b)
    ensures DecodeField(PrintField(f, st, l) + b) == Got(f, b)
    decreases f, 0
  {
    hide DecodeValue, Print, DecodeString, Quoted, EscapedAll, NumberStops;
    var value := Print(f.1, st, l + 1);
    var tail := ":" + (st.colon + value + b);
    assert PrintField(f, st, l) + b == Quoted(f.0) + tail;
    QuotedTail(f.0, tail);
    StringRoundTrip(f.0, tail);
    assert SkipBlank(tail) == tail && tail[1..] == st.colon + value + b;
    PrintOpens(f.1, st, l + 1);
    SkipTo(st.colon, value, b);
    ValueRoundTrip(f.1, st, l + 1, b);
  }

  lemma {:induction false} FieldsRoundTrip(fields: seq<(string, Json)>, st: Style, l: nat, b: string)
    requires fields != [] && StyleOk(st)
    ensures DecodeFields(PrintFields(fields, st, l) + (st.close(l) + "}" + b)) == Got(fields, b)
    decreases fields, 0
  {
    hide DecodeField, PrintField, DecodeString;
    var first := PrintField(fields[0], st, l);
    var close := st.close(l) + "}" + b;
    if |fields| == 1 {
      BlankStops(st.close(l), "}" + b);
      assert close == st.close(l) + ("}" + b);
      FieldRoundTrip(fields[0], st, l, close);
      SkipTo(st.close(l), "}", b);
      assert ("}" + b)[0] == '}' && ("}" + b)[1..] == b;
      assert fields == [fields[0]];
    } else {
      var rest := PrintFields(fields[1..], st, l);
      var after := "," + (st.comma(l) + rest + close);
      assert PrintFields(fields, st, l) + close == first + after;
      FieldRoundTrip(fields[0], st, l, after);
      assert SkipBlank(after) == after && after[1..] == st.comma(l) + rest + close;
      FieldsOpen(fields[1..], st, l);
      SkipTo(st.comma(l), rest, close);
      FieldsRoundTrip(fields[1..], st, l, b);
      assert fields == [fields[0]] + fields[1..];
    }
  }

  /** `json.loads(json.dumps(v))` is `v`, for every value and every layout; so no two values
      print alike. */
  lemma LoadsOfPrint(v: Json, st: Style)
    requires StyleOk(st)
    ensures Loads(Print(v, st, 0)) == Got(v, "")
  {
    LoadsOfPrintAt(v, st, 0);
  }

  lemma LoadsOfPrintAt(v: Json, st: Style, l: nat)
    requires StyleOk(st)
    ensures Loads(Print(v, st, l)) == Got(v, "")
  {
    hide DecodeValue, Print;
    PrintOpens(v, st, l);
    var s := Print(v, st, l);
    assert SkipBlank(s) == s;
    assert s + "" == s;
    ValueRoundTrip(v, st, l, "");
  }
}

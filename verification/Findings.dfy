/** Finding the findings: the scan for a JSON array of objects in an agent's reply, and the
    reading of its items. `repr` is Python's `str` on values that are not strings. */
module Findings {
  import opened Lists
  import opened Text
  import opened Decimal
  import opened Numerals
  import opened Json
  import opened JsonValues

  // ---------------------------------------------------------------- the scan

  /** A JSON array decodes at `i`. */
  predicate ArrayAt(text: string, i: nat) {
    i < |text| && text[i] == '[' && DecodeValue(text[i..]).Got? && DecodeValue(text[i..]).value.Arr?
  }

  function ItemsAt(text: string, i: nat): seq<Json>
    requires ArrayAt(text, i)
  {
    DecodeValue(text[i..]).value.items
  }

  /** `text[idx:end]` */
  function SpanAt(text: string, i: nat): string
    requires ArrayAt(text, i)
  {
    text[i..|text| - |DecodeValue(text[i..]).rest|]
  }

  predicate FindingsAt(text: string, i: nat) {
    ArrayAt(text, i) && ItemsAt(text, i) != [] && forall k :: 0 <= k < |ItemsAt(text, i)| ==> ItemsAt(text, i)[k].Obj?
  }

  predicate EmptyAt(text: string, i: nat) {
    ArrayAt(text, i) && ItemsAt(text, i) == []
  }

  /** The scan from position `i` on. */
  function Extract(text: string, i: nat, fallback: Option<string>): Option<string>
    decreases |text| - i
  {
    if i >= |text| then fallback
    else if FindingsAt(text, i) then Some(SpanAt(text, i))
    else Extract(text, i + 1, if EmptyAt(text, i) && fallback.None? then Some(SpanAt(text, i)) else fallback)
  }

  /** `_extract_array`; None is the FindingsParseError. */
  method ExtractArray(text: string) returns (r: Option<string>)
    ensures r == Extract(text, 0, None)
  {
    hide FindingsAt, EmptyAt, DecodeValue;
    var emptyFallback: Option<string> := None;
    var idx := Find(text, '[');
    SkipToBracket(text, 0, idx, emptyFallback);
    while idx < |text|
      invariant idx <= |text| && (idx < |text| ==> text[idx] == '[')
      invariant Extract(text, 0, None) == Extract(text, idx, emptyFallback)
    {
      ghost var was := emptyFallback;
      if ArrayAt(text, idx) {
        KindsAt(text, idx);
        var items := ItemsAt(text, idx);
        if items != [] && forall k :: 0 <= k < |items| ==> items[k].Obj? {
          return Some(SpanAt(text, idx));
        }
        if items == [] && emptyFallback.None? {
          emptyFallback := Some(SpanAt(text, idx));
        }
      } else {
        KindsNowhere(text, idx);
      }
      ScanNext(text, idx, was);
      var next := idx + 1 + Find(text[idx + 1..], '[');
      SkipToBracket(text, idx + 1, next, emptyFallback);
      idx := next;
    }
    r := emptyFallback;
  }

  lemma KindsAt(text: string, i: nat)
    requires ArrayAt(text, i)
    ensures FindingsAt(text, i) <==> ItemsAt(text, i) != [] && forall k :: 0 <= k < |ItemsAt(text, i)| ==> ItemsAt(text, i)[k].Obj?
    ensures EmptyAt(text, i) <==> ItemsAt(text, i) == []
  {
  }

  lemma KindsNowhere(text: string, i: nat)
    requires !ArrayAt(text, i)
    ensures !FindingsAt(text, i) && !EmptyAt(text, i)
  {
  }

  lemma ScanNext(text: string, i: nat, fallback: Option<string>)
    requires i < |text| && !FindingsAt(text, i)
    ensures Extract(text, i, fallback) ==
            Extract(text, i + 1, if EmptyAt(text, i) && fallback.None? then Some(SpanAt(text, i)) else fallback)
  {
  }

  /** Positions without a bracket are passed over. */
  lemma {:induction false} SkipToBracket(text: string, i: nat, next: nat, fallback: Option<string>)
    requires i <= |text| && next == i + Find(text[i..], '[')
    ensures next <= |text| && (next < |text| ==> text[next] == '[')
    ensures Extract(text, i, fallback) == Extract(text, next, fallback)
    decreases |text| - i
  {
    hide DecodeValue, FindingsAt, EmptyAt;
    if i < |text| && text[i] != '[' {
      assert text[i..][1..] == text[i + 1..];
      KindsNowhere(text, i);
      SkipToBracket(text, i + 1, next, fallback);
    }
  }

  /** What the scan finds: the first non-empty array of objects, wherever it is; only when
      there is none, the first empty array; and nothing only when there is neither. */
  lemma {:induction false} ExtractMeaning(text: string, i: nat, at: nat, fallback: Option<string>)
    requires i <= at
    ensures FindingsAt(text, at) && (forall j :: i <= j < at ==> !FindingsAt(text, j)) ==>
              Extract(text, i, fallback) == Some(SpanAt(text, at))
    ensures (forall j :: i <= j ==> !FindingsAt(text, j)) && fallback.None? &&
            EmptyAt(text, at) && (forall j :: i <= j < at ==> !EmptyAt(text, j)) ==>
              Extract(text, i, fallback) == Some(SpanAt(text, at))
    ensures (forall j :: i <= j ==> !FindingsAt(text, j)) && fallback.Some? ==> Extract(text, i, fallback) == fallback
    decreases |text| - i
  {
    hide DecodeValue;
    if i < |text| {
      var fallback' := if EmptyAt(text, i) && fallback.None? then Some(SpanAt(text, i)) else fallback;
      ExtractMeaning(text, i + 1, if i < at then at else i + 1, fallback');
    }
  }

  lemma {:induction false} ExtractFails(text: string, i: nat, fallback: Option<string>)
    requires i <= |text|
    ensures Extract(text, i, fallback).None? <==>
              fallback.None? && forall j :: i <= j < |text| ==> !FindingsAt(text, j) && !EmptyAt(text, j)
    decreases |text| - i
  {
    hide DecodeValue, FindingsAt;
    if i < |text| {
      ExtractFails(text, i + 1, if EmptyAt(text, i) && fallback.None? then Some(SpanAt(text, i)) else fallback);
    }
  }

  // ---------------------------------------------------------------- reading the items

  datatype Finding = Finding(
    path: string, line: int, severity: string, message: string,
    suggestion: Option<string>, acknowledged: Option<string>, stale: Option<string>)

  const SEVERITIES: set<string> := {"info", "low", "medium", "high", "critical"}

  /** `Uncaught` is the TypeError of a severity that cannot be a dictionary key. */
  datatype Result<T> = Ok(value: T) | ParseError | Uncaught

  function Truthy(v: Json): bool {
    match v
    case Null => false
    case Bool(b) => b
    case Int(n) => n != 0
    case Float(numeral) => numeral != "" && (Nonzero(numeral) || numeral[|numeral| - 1] in {'N', 'y'})
    case Text(s) => s != ""
    case Arr(items) => items != []
    case Obj(fields) => fields != []
  }

  /** A digit other than 0 before any exponent. */
  predicate Nonzero(numeral: string) {
    numeral != "" && numeral[0] != 'e' && numeral[0] != 'E' && ('1' <= numeral[0] <= '9' || Nonzero(numeral[1..]))
  }

  /** What Python takes for false. */
  ghost predicate CountsAsFalse(v: Json) {
    || v == Bool(false) || v == Null || v == Int(0) || v == Json.Text("") || v == Arr([]) || v == Obj([])
    || (v.Float? && ZeroNumeral(v.numeral))
  }

  /** No digit but 0 before the exponent, and neither `NaN` nor an infinity. */
  ghost predicate ZeroNumeral(numeral: string) {
    && (forall i :: 0 <= i < |numeral| && '1' <= numeral[i] <= '9' ==> exists j :: 0 <= j < i && numeral[j] in {'e', 'E'})
    && (numeral != "" ==> numeral[|numeral| - 1] !in {'N', 'y'})
  }

  lemma {:induction false} NonzeroIff(numeral: string)
    ensures Nonzero(numeral) <==>
            exists i :: 0 <= i < |numeral| && '1' <= numeral[i] <= '9' && forall j :: 0 <= j < i ==> numeral[j] !in {'e', 'E'}
  {
    if numeral != "" {
      var rest := numeral[1..];
      NonzeroIff(rest);
      if i :| 0 <= i < |rest| && '1' <= rest[i] <= '9' && forall j :: 0 <= j < i ==> rest[j] !in {'e', 'E'} {
        if numeral[0] !in {'e', 'E'} {
          assert numeral[i + 1] == rest[i] && forall j :: 0 < j < i + 1 ==> numeral[j] == rest[j - 1];
        }
      }
      if i :| 0 <= i < |numeral| && '1' <= numeral[i] <= '9' && forall j :: 0 <= j < i ==> numeral[j] !in {'e', 'E'} {
        if i > 0 {
          assert rest[i - 1] == numeral[i] && forall j :: 0 <= j < i - 1 ==> rest[j] == numeral[j + 1];
        }
      }
    }
  }

  lemma FalseIffNotTruthy(v: Json)
    ensures CountsAsFalse(v) <==> !Truthy(v)
  {
    if v.Float? {
      NonzeroIff(v.numeral);
    }
  }

  /** `str(v)` */
  function PyStr(repr: Json -> string, v: Json): string {
    if v.Text? then v.s else repr(v)
  }

  function OptionalText(repr: Json -> string, fields: seq<(string, Json)>, key: string): Option<string> {
    var v := Field(fields, key);
    if v.Some? && Truthy(v.value) then Some(PyStr(repr, v.value)) else None
  }

  /** `_coerce_line`: an int as it is, the leading digits of a string, else 0. */
  function CoerceLine(v: Json): int {
    match v
    case Int(n) => n
    case Text(s) =>
      var t := StripLeft(s);
      var n := DigitRun(t);
      if n > 0 then Value(t[..n]) else 0
    case _ => 0
  }

  function ReadItem(repr: Json -> string, item: Json): Result<Finding> {
    if !item.Obj? then ParseError
    else
      var fields := item.fields;
      var severity := Field(fields, "severity");
      if severity.None? then ParseError
      else if severity.value.Arr? || severity.value.Obj? then Uncaught
      else if !severity.value.Text? || severity.value.s !in SEVERITIES then ParseError
      else
        var path, message := Field(fields, "path"), Field(fields, "message");
        if path.None? || message.None? then ParseError
        else
          var line := Field(fields, "line");
          Ok(Finding(PyStr(repr, path.value),
                     if line.Some? then CoerceLine(line.value) else 0,
                     severity.value.s,
                     PyStr(repr, message.value),
                     OptionalText(repr, fields, "suggestion"),
                     OptionalText(repr, fields, "acknowledged"),
                     OptionalText(repr, fields, "stale")))
  }

  function ReadItems(repr: Json -> string, items: seq<Json>): Result<seq<Finding>> {
    if items == [] then Ok([])
    else
      match ReadItem(repr, items[0])
      case ParseError => ParseError
      case Uncaught => Uncaught
      case Ok(f) =>
        match ReadItems(repr, items[1..])
        case ParseError => ParseError
        case Uncaught => Uncaught
        case Ok(fs) => Ok([f] + fs)
  }

  function Parse(repr: Json -> string, text: string): Result<seq<Finding>> {
    var found := Extract(text, 0, None);
    if found.None? then ParseError
    else
      var data := Loads(found.value);
      if data.Bad? || !data.value.Arr? then ParseError else ReadItems(repr, data.value.items)
  }

  /** `parse_findings` */
  method ParseFindings(repr: Json -> string, text: string) returns (r: Result<seq<Finding>>)
    ensures r == Parse(repr, text)
  {
    hide ReadItem, Extract, Loads;
    var found := ExtractArray(text);
    if found.None? {
      return ParseError;
    }
    var data := Loads(found.value);
    if data.Bad? || !data.value.Arr? {
      return ParseError;
    }
    var items := data.value.items;
    var findings: seq<Finding> := [];
    assert items[0..] == items;
    PrependNothing(ReadItems(repr, items));
    for k := 0 to |items|
      invariant ReadItems(repr, items) == Prepend(findings, ReadItems(repr, items[k..]))
    {
      assert items[k..][1..] == items[k + 1..];
      match ReadItem(repr, items[k])
      case ParseError => return ParseError;
      case Uncaught => return Uncaught;
      case Ok(f) =>
        PrependShift(findings, f, ReadItems(repr, items[k + 1..]));
        findings := findings + [f];
    }
    assert items[|items|..] == [] && findings + [] == findings;
    r := Ok(findings);
  }

  function Prepend(fs: seq<Finding>, r: Result<seq<Finding>>): Result<seq<Finding>> {
    if r.Ok? then Ok(fs + r.value) else r
  }

  lemma PrependNothing(r: Result<seq<Finding>>)
    ensures Prepend([], r) == r
  {
    if r.Ok? {
      assert [] + r.value == r.value;
    }
  }

  lemma PrependShift(fs: seq<Finding>, f: Finding, r: Result<seq<Finding>>)
    ensures Prepend(fs + [f], r) == Prepend(fs, if r.Ok? then Ok([f] + r.value) else r)
  {
    if r.Ok? {
      assert fs + [f] + r.value == fs + ([f] + r.value);
    }
  }

  // ---------------------------------------------------------------- printed findings read back

  function OptionalJson(s: Option<string>): Json {
    if s.Some? then Json.Text(s.value) else Null
  }

  /** A finding as its JSON object, in field order. */
  function ToObject(f: Finding): Json {
    Obj([] + [("path", Json.Text(f.path))] + [("line", Int(f.line))] + [("severity", Json.Text(f.severity))]
        + [("message", Json.Text(f.message))] + [("suggestion", OptionalJson(f.suggestion))]
        + [("acknowledged", OptionalJson(f.acknowledged))] + [("stale", OptionalJson(f.stale))])
  }

  function ToObjects(fs: seq<Finding>): seq<Json> {
    if fs == [] then [] else [ToObject(fs[0])] + ToObjects(fs[1..])
  }

  /** An empty optional text reads back as none at all. */
  function NonEmpty(s: Option<string>): Option<string> {
    if s == Some("") then None else s
  }

  function Normal(f: Finding): Finding {
    f.(suggestion := NonEmpty(f.suggestion), acknowledged := NonEmpty(f.acknowledged), stale := NonEmpty(f.stale))
  }

  function Normals(fs: seq<Finding>): seq<Finding> {
    if fs == [] then [] else [Normal(fs[0])] + Normals(fs[1..])
  }

  lemma ObjectFields(f: Finding, key: string)
    ensures Field(ToObject(f).fields, key) ==
            (if key == "stale" then Some(OptionalJson(f.stale))
             else if key == "acknowledged" then Some(OptionalJson(f.acknowledged))
             else if key == "suggestion" then Some(OptionalJson(f.suggestion))
             else if key == "message" then Some(Json.Text(f.message))
             else if key == "severity" then Some(Json.Text(f.severity))
             else if key == "line" then Some(Int(f.line))
             else if key == "path" then Some(Json.Text(f.path)) else None)
  {
    var f1 := [] + [("path", Json.Text(f.path))];
    var f2 := f1 + [("line", Int(f.line))];
    var f3 := f2 + [("severity", Json.Text(f.severity))];
    var f4 := f3 + [("message", Json.Text(f.message))];
    var f5 := f4 + [("suggestion", OptionalJson(f.suggestion))];
    var f6 := f5 + [("acknowledged", OptionalJson(f.acknowledged))];
    FieldLast([], ("path", Json.Text(f.path)), key);
    FieldLast(f1, ("line", Int(f.line)), key);
    FieldLast(f2, ("severity", Json.Text(f.severity)), key);
    FieldLast(f3, ("message", Json.Text(f.message)), key);
    FieldLast(f4, ("suggestion", OptionalJson(f.suggestion)), key);
    FieldLast(f5, ("acknowledged", OptionalJson(f.acknowledged)), key);
    FieldLast(f6, ("stale", OptionalJson(f.stale)), key);
    assert Field([], key) == None;
    hide Field, OptionalJson;
  }

  lemma NamesApart()
    ensures "stale" != "acknowledged" && "stale" != "suggestion" && "stale" != "message" && "stale" != "severity"
    ensures "stale" != "line" && "stale" != "path" && "acknowledged" != "suggestion" && "acknowledged" != "message"
    ensures "acknowledged" != "severity" && "acknowledged" != "line" && "acknowledged" != "path"
    ensures "suggestion" != "message" && "suggestion" != "severity" && "suggestion" != "line" && "suggestion" != "path"
    ensures "message" != "severity" && "message" != "line" && "message" != "path"
    ensures "severity" != "line" && "severity" != "path" && "line" != "path"
  {
    assert |"stale"| == 5 && |"acknowledged"| == 12 && |"suggestion"| == 10 && |"message"| == 7 && |"severity"| == 8;
    assert |"line"| == 4 && |"path"| == 4 && "line"[0] != "path"[0];
  }

  lemma ItemReadsBack(repr: Json -> string, f: Finding)
    requires f.severity in SEVERITIES
    ensures ReadItem(repr, ToObject(f)) == Ok(Normal(f))
  {
    ObjectFields(f, "path");
    ObjectFields(f, "line");
    ObjectFields(f, "severity");
    ObjectFields(f, "message");
    ObjectFields(f, "suggestion");
    ObjectFields(f, "acknowledged");
    ObjectFields(f, "stale");
    NamesApart();
    hide Field;
    assert ToObject(f).Obj?;
    hide ToObject;
  }

  lemma {:induction false} ItemsReadBack(repr: Json -> string, fs: seq<Finding>)
    requires forall i :: 0 <= i < |fs| ==> fs[i].severity in SEVERITIES
    ensures ReadItems(repr, ToObjects(fs)) == Ok(Normals(fs))
    ensures |ToObjects(fs)| == |fs|
    ensures forall i :: 0 <= i < |fs| ==> ToObjects(fs)[i].Obj?
  {
    hide ReadItem, Normal;
    if fs != [] {
      ItemReadsBack(repr, fs[0]);
      ItemsReadBack(repr, fs[1..]);
      assert ToObjects(fs)[1..] == ToObjects(fs[1..]);
      ObjectPlain(fs[0]);
      hide ToObject;
    }
  }

  lemma ObjectPlain(f: Finding)
    ensures ToObject(f).Obj?
  {
  }

  lemma {:induction false} NormalsSame(fs: seq<Finding>)
    ensures Normals(fs) == fs <==>
      forall i :: 0 <= i < |fs| ==> fs[i].suggestion != Some("") && fs[i].acknowledged != Some("") && fs[i].stale != Some("")
  {
    if fs != [] {
      NormalsSame(fs[1..]);
      assert fs == [fs[0]] + fs[1..];
      assert forall i :: 1 <= i < |fs| ==> fs[i] == fs[1..][i - 1];
      assert Normals(fs)[0] == Normal(fs[0]) && Normals(fs)[1..] == Normals(fs[1..]);
    }
  }

  lemma PrintedAt(prefix: string, items: seq<Json>, st: Style, suffix: string)
    requires '[' !in prefix && items != [] && StyleOk(st)
    requires forall i :: 0 <= i < |items| ==> items[i].Obj?
    ensures var text := prefix + Print(Arr(items), st, 0) + suffix;
            && FindingsAt(text, |prefix|) && SpanAt(text, |prefix|) == Print(Arr(items), st, 0)
            && forall j :: 0 <= j < |prefix| ==> !FindingsAt(text, j)
  {
    var printed := Print(Arr(items), st, 0);
    var text := prefix + printed + suffix;
    ValueRoundTrip(Arr(items), st, 0, suffix);
    ArrayOpens(items, st);
    hide DecodeValue, Print;
    assert text[|prefix|..] == printed + suffix;
    assert text[|prefix|] == printed[0];
    assert text[|prefix|..|prefix| + |printed|] == printed;
    assert forall j :: 0 <= j < |prefix| ==> text[j] == prefix[j] && prefix[j] in prefix;
  }

  lemma ArrayOpens(items: seq<Json>, st: Style)
    ensures Print(Arr(items), st, 0) != "" && Print(Arr(items), st, 0)[0] == '['
  {
  }

  /** For every prose before them without a bracket, every text after them and every layout,
      printed findings read back as themselves, with empty optional texts read as none. */
  lemma PrintedFindingsReadBack(repr: Json -> string, prefix: string, fs: seq<Finding>, st: Style, suffix: string)
    requires '[' !in prefix && fs != [] && StyleOk(st)
    requires forall i :: 0 <= i < |fs| ==> fs[i].severity in SEVERITIES
    ensures Parse(repr, prefix + Print(Arr(ToObjects(fs)), st, 0) + suffix) == Ok(Normals(fs))
    ensures Normals(fs) == fs <==>
      forall i :: 0 <= i < |fs| ==> fs[i].suggestion != Some("") && fs[i].acknowledged != Some("") && fs[i].stale != Some("")
  {
    ItemsReadBack(repr, fs);
    NormalsSame(fs);
    hide Print, ToObjects, ReadItems, Normals, StyleOk, Parse;
    PrintedItemsAreRead(repr, prefix, ToObjects(fs), st, suffix);
  }

  // ---------------------------------------------------------------- reading any items

  /** A line given as text is read by its leading digits, blanks before them aside; without any it
      is 0. */
  lemma LineOfText(blanks: string, digits: string, rest: string)
    requires (forall i :: 0 <= i < |blanks| ==> Space(blanks[i])) && Digits(digits)
    requires rest == "" || !Digit(rest[0])
    requires digits == "" ==> rest == "" || !Space(rest[0])
    ensures CoerceLine(Json.Text(blanks + digits + rest)) == Value(digits)
  {
    var tail := digits + rest;
    assert blanks + digits + rest == blanks + tail;
    assert tail != "" ==> !Space(tail[0]) by { DigitsAreInk(); assert digits != "" ==> tail[0] == digits[0]; }
    InkAfter(blanks, tail, 0);
    assert (blanks + tail)[|blanks|..] == tail;
    hide Space, FirstInk, Value;
    DigitRunOver(digits, rest);
    assert tail[..|digits|] == digits;
    if digits == "" {
      assert Value("") == 0 by { NoDigits(); }
    }
  }

  lemma NoDigits()
    ensures Value("") == 0
  {
  }

  lemma DigitsAreInk()
    ensures forall c :: Digit(c) ==> !Space(c)
  {
  }

  lemma {:induction false} InkAfter(blanks: string, tail: string, i: nat)
    requires (forall k :: 0 <= k < |blanks| ==> Space(blanks[k])) && (tail == "" || !Space(tail[0]))
    requires i <= |blanks|
    ensures FirstInk(blanks + tail, i) == |blanks|
    decreases |blanks| - i
  {
    hide Space;
    if i < |blanks| {
      InkAfter(blanks, tail, i + 1);
    } else if tail != "" {
      assert (blanks + tail)[i] == tail[0];
    }
  }

  /** Lines given as numbers are kept, and every other kind counts as 0. */
  lemma LineOfOthers(v: Json)
    ensures v.Int? ==> CoerceLine(v) == v.n
    ensures !v.Int? && !v.Text? ==> CoerceLine(v) == 0
  {
  }

  /** A text field as it is, any other by `str`. */
  ghost predicate Stringified(repr: Json -> string, v: Json, s: string) {
    s == if v.Text? then v.s else repr(v)
  }

  ghost predicate OptionalIs(repr: Json -> string, fields: seq<(string, Json)>, key: string, s: Option<string>) {
    var v := Field(fields, key);
    if v.None? || CountsAsFalse(v.value) then s == None else s.Some? && Stringified(repr, v.value, s.value)
  }

  /** When an object is a finding, and which: its severity is one of the five words and it has a path
      and a message; other severities fail the parse, and one that cannot be hashed escapes it. */
  lemma ItemMeans(repr: Json -> string, fields: seq<(string, Json)>)
    ensures var r := ReadItem(repr, Obj(fields));
            var severity, path, message, line := Field(fields, "severity"), Field(fields, "path"), Field(fields, "message"), Field(fields, "line");
            && (r.Uncaught? <==> severity.Some? && (severity.value.Arr? || severity.value.Obj?))
            && (r.Ok? <==>
                  && severity.Some? && severity.value.Text? && severity.value.s in {"info", "low", "medium", "high", "critical"}
                  && path.Some? && message.Some?)
            && (r.Ok? ==>
                  && Stringified(repr, path.value, r.value.path) && Stringified(repr, message.value, r.value.message)
                  && r.value.severity == severity.value.s
                  && r.value.line == (if line.None? then 0 else CoerceLine(line.value))
                  && OptionalIs(repr, fields, "suggestion", r.value.suggestion)
                  && OptionalIs(repr, fields, "acknowledged", r.value.acknowledged)
                  && OptionalIs(repr, fields, "stale", r.value.stale))
  {
    hide Field, CountsAsFalse, Truthy, CoerceLine;
    forall v: Json ensures CountsAsFalse(v) <==> !Truthy(v) { FalseIffNotTruthy(v); }
  }

  /** The items are read in order; the first that is no finding decides how the parse fails. */
  lemma {:induction false} ItemsAreRead(repr: Json -> string, items: seq<Json>)
    ensures var r := ReadItems(repr, items);
            && (r.Ok? ==> |r.value| == |items| && forall i :: 0 <= i < |items| ==> ReadItem(repr, items[i]) == Ok(r.value[i]))
            && (!r.Ok? ==> exists i :: 0 <= i < |items| && (forall j :: 0 <= j < i ==> ReadItem(repr, items[j]).Ok?)
                             && !ReadItem(repr, items[i]).Ok? && (r.Uncaught? <==> ReadItem(repr, items[i]).Uncaught?))
  {
    hide ReadItem;
    if items != [] && ReadItem(repr, items[0]).Ok? {
      var rest := items[1..];
      ItemsAreRead(repr, rest);
      if !ReadItems(repr, rest).Ok? {
        var i :| 0 <= i < |rest| && (forall j :: 0 <= j < i ==> ReadItem(repr, rest[j]).Ok?)
          && !ReadItem(repr, rest[i]).Ok? && (ReadItems(repr, rest).Uncaught? <==> ReadItem(repr, rest[i]).Uncaught?);
        assert items[i + 1] == rest[i] && forall j :: 0 < j < i + 1 ==> items[j] == rest[j - 1];
      } else {
        assert forall j :: 0 < j < |items| ==> items[j] == rest[j - 1];
      }
    } else if items != [] {
      assert !ReadItem(repr, items[0]).Ok?;
    }
  }

  /** Whatever objects an agent lists, in any prose and layout, the parse is the reading of them. */
  lemma PrintedItemsAreRead(repr: Json -> string, prefix: string, items: seq<Json>, st: Style, suffix: string)
    requires '[' !in prefix && items != [] && StyleOk(st)
    requires forall i :: 0 <= i < |items| ==> items[i].Obj?
    ensures Parse(repr, prefix + Print(Arr(items), st, 0) + suffix) == ReadItems(repr, items)
  {
    var text := prefix + Print(Arr(items), st, 0) + suffix;
    PrintedAt(prefix, items, st, suffix);
    hide Print, ReadItems, FindingsAt, EmptyAt, Loads, StyleOk, SpanAt;
    LoadsOfPrint(Arr(items), st);
    ExtractMeaning(text, 0, |prefix|, None);
  }
}

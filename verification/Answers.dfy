/** The answers file: the writers that own some of its fields, and the readers. A file is flat
    YAML: `key: value` lines, and `key:` lines followed by `- item` lines. Of two lines with one
    key the reader takes the last, as PyYAML does. */
module Answers {
  import opened Lists
  import opened Text
  import opened Json
  import opened JsonValues

  const BATTERIES := "batteries"
  const CHANNELS := "alert_channels"
  const IDENTITY: seq<string> := ["project_name", "project_slug", "package_name", "python_version"]
  const SOURCE := "_src_path"
  const COMMIT := "_commit"
  const REPO := "gh:cdowell-swtr/swiftwater-framework"

  predicate HasKey(line: string, key: string) {
    Starts(line, key + ":")
  }

  predicate IsItem(line: string) {
    |line| >= 2 && line[..2] == "- "
  }

  // ---------------------------------------------------------------- readers

  function ItemRun(ls: seq<string>): seq<string> {
    if ls == [] || !IsItem(ls[0]) then [] else [ls[0]] + ItemRun(ls[1..])
  }

  /** The last line of `key`: what follows its colon, and the items under it. */
  function Block(ls: seq<string>, key: string): Option<(string, seq<string>)> {
    if ls == [] then None
    else
      var later := Block(ls[1..], key);
      if later.Some? then later
      else if HasKey(ls[0], key) then Some((ls[0][|key| + 1..], ItemRun(ls[1..]))) else None
  }

  // YAML 1.1 as PyYAML resolves it.
  const NULLS: set<string> := {"", "~", "null", "Null", "NULL"}
  const TRUES: set<string> := {"true", "True", "TRUE", "yes", "Yes", "YES", "on", "On", "ON"}
  const FALSES: set<string> := {"false", "False", "FALSE", "no", "No", "NO", "off", "Off", "OFF"}

  /** What a plain scalar is read as, and `str` makes of that; None is null. */
  function PlainScalar(v: string): Option<string> {
    if v in NULLS then None else if v in TRUES then Some("True") else if v in FALSES then Some("False") else Some(v)
  }

  /** `str` of a list item. */
  function ItemText(v: string): string {
    if PlainScalar(v).Some? then PlainScalar(v).value else "None"
  }

  function ItemTexts(items: seq<string>): seq<string>
    requires forall i :: 0 <= i < |items| ==> IsItem(items[i])
  {
    if items == [] then []
    else
      assert IsItem(items[0]);
      [ItemText(Strip(items[0][2..]))] + ItemTexts(items[1..])
  }

  lemma {:induction false} RunOfItems(ls: seq<string>)
    ensures forall i :: 0 <= i < |ItemRun(ls)| ==> IsItem(ItemRun(ls)[i])
  {
    if ls != [] && IsItem(ls[0]) {
      RunOfItems(ls[1..]);
    }
  }

  lemma {:induction false} BlockItems(ls: seq<string>, key: string)
    ensures Block(ls, key).Some? ==> forall i :: 0 <= i < |Block(ls, key).value.1| ==> IsItem(Block(ls, key).value.1[i])
  {
    if ls != [] {
      BlockItems(ls[1..], key);
      RunOfItems(ls[1..]);
    }
  }

  /** The field as a list; None when it is absent or something else. */
  function ReadList(ls: seq<string>, key: string): Option<seq<string>> {
    var b := Block(ls, key);
    if b.None? then None
    else if Strip(b.value.0) == "[]" then Some([])
    else if Strip(b.value.0) == "" && b.value.1 != [] then
      BlockItems(ls, key);
      Some(ItemTexts(b.value.1))
    else None
  }

  /** A double-quoted scalar, after its opening quote. YAML has JSON's escapes, but does not join a
      pair of surrogates: an escape beyond the basic plane does not read as its character, which
      is `Bad` here. */
  function YamlString(s: string): (r: Parsed<string>)
    decreases |s|
  {
    if s == "" then Bad
    else if s[0] == '"' then Got("", s[1..])
    else
      var c := DecodeChar(s);
      if c.Bad? || (s[0] == '\\' && c.value as int >= 0x10000) then Bad
      else
        var tail := YamlString(c.rest);
        if tail.Bad? then Bad else Got([c.value] + tail.value, tail.rest)
  }

  /** The text after a key's colon: a double-quoted scalar, or a plain one; None when null. */
  function TextOf(after: string): Option<string> {
    var v := Strip(after);
    if v == "" then None
    else if v[0] == '"' then
      var t := YamlString(v[1..]);
      if t.Got? then Some(t.value) else None
    else PlainScalar(v)
  }

  /** The field as a text; None when it is absent or empty. */
  function ReadText(ls: seq<string>, key: string): Option<string> {
    var b := Block(ls, key);
    if b.None? then None else TextOf(b.value.0)
  }

  function ReadBatteries(ls: seq<string>): seq<string> {
    var v := ReadList(ls, BATTERIES);
    if v.Some? then v.value else []
  }

  function ReadChannels(ls: seq<string>): seq<string> {
    var v := ReadList(ls, CHANNELS);
    if v.Some? && v.value != [] then v.value else ["webhook"]
  }

  function ReadIdentity(ls: seq<string>): map<string, string> {
    map k | k in IDENTITY && ReadText(ls, k).Some? :: ReadText(ls, k).value
  }

  function ReadCommit(ls: seq<string>): Option<string> {
    ReadText(ls, COMMIT)
  }

  /** What Copier updates from. */
  function ReadSource(ls: seq<string>): Option<string> {
    ReadText(ls, SOURCE)
  }

  // ---------------------------------------------------------------- writers

  /** The lines outside the blocks of `key`. */
  function DropBlock(ls: seq<string>, key: string, skipping: bool): seq<string> {
    if ls == [] then []
    else if HasKey(ls[0], key) then DropBlock(ls[1..], key, true)
    else if skipping && IsItem(ls[0]) then DropBlock(ls[1..], key, true)
    else [ls[0]] + DropBlock(ls[1..], key, false)
  }

  function ItemLines(items: seq<string>): seq<string> {
    if items == [] then [] else ["- " + items[0]] + ItemLines(items[1..])
  }

  function ListLines(key: string, items: seq<string>): seq<string> {
    if items == [] then [key + ": []"] else [key + ":"] + ItemLines(items)
  }

  function RecordList(ls: seq<string>, key: string, items: seq<string>): seq<string> {
    DropBlock(ls, key, false) + ListLines(key, items)
  }

  function Effective(channels: seq<string>): seq<string> {
    if channels == [] then ["webhook"] else channels
  }

  predicate HasAnyKey(line: string, keys: seq<string>) {
    exists i :: 0 <= i < |keys| && HasKey(line, keys[i])
  }

  function DropLines(ls: seq<string>, keys: seq<string>): seq<string> {
    if ls == [] then [] else (if HasAnyKey(ls[0], keys) then [] else [ls[0]]) + DropLines(ls[1..], keys)
  }

  /** `key: value` for each of `keys` that has one. */
  function TextLines(keys: seq<string>, values: map<string, string>): seq<string> {
    if keys == [] then []
    else (if keys[0] in values then [keys[0] + ": " + values[keys[0]]] else []) + TextLines(keys[1..], values)
  }

  function RecordTexts(ls: seq<string>, keys: seq<string>, values: map<string, string>): seq<string> {
    DropLines(ls, keys) + TextLines(keys, values)
  }

  function QuotedValues(identity: map<string, string>): map<string, string> {
    map k | k in identity :: Quoted(identity[k])
  }

  function PortableValues(version: string): map<string, string> {
    map[SOURCE := REPO, COMMIT := "v" + version]
  }

  /** The loop `record_batteries` and `record_alert_channels` share. */
  method DropBlockLines(ls: seq<string>, key: string) returns (out: seq<string>)
    ensures out == DropBlock(ls, key, false)
  {
    hide HasKey, IsItem;
    out := [];
    var skipping := false;
    assert ls[0..] == ls;
    for i := 0 to |ls|
      invariant out + DropBlock(ls[i..], key, skipping) == DropBlock(ls, key, false)
    {
      assert ls[i..][1..] == ls[i + 1..];
      if HasKey(ls[i], key) {
        skipping := true;
      } else if skipping && IsItem(ls[i]) {
      } else {
        skipping := false;
        out := out + [ls[i]];
      }
    }
    assert ls[|ls|..] == [] && out + [] == out;
  }

  lemma NextText(keys: seq<string>, values: map<string, string>, i: nat)
    requires i < |keys|
    ensures keys[i] in values ==> forall out: seq<string> ::
              out + [keys[i] + ": " + values[keys[i]]] + TextLines(keys[i + 1..], values) == out + TextLines(keys[i..], values)
    ensures keys[i] !in values ==> TextLines(keys[i..], values) == TextLines(keys[i + 1..], values)
  {
    assert keys[i..][1..] == keys[i + 1..];
    if keys[i] in values {
      var line, rest := keys[i] + ": " + values[keys[i]], TextLines(keys[i + 1..], values);
      assert TextLines(keys[i..], values) == [line] + rest;
      forall out: seq<string> ensures out + [line] + rest == out + ([line] + rest) {}
    }
  }

  lemma NoText(values: map<string, string>)
    ensures forall out: seq<string> :: out + TextLines([], values) == out
  {
    forall out: seq<string> ensures out + TextLines([], values) == out { assert out + [] == out; }
  }

  class AnswersFile {
    var text: string

    constructor (text: string)
      ensures this.text == text
    {
      this.text := text;
    }

    method RecordBatteries(batteries: seq<string>)
      modifies this
      ensures text == Join(RecordList(Lines(old(text)), BATTERIES, batteries)) + [LF]
    {
      hide Lines, Join, DropBlock;
      var out := DropBlockLines(Lines(text), BATTERIES);
      text := Join(out + ListLines(BATTERIES, batteries)) + [LF];
    }

    method RecordAlertChannels(channels: seq<string>)
      modifies this
      ensures text == Join(RecordList(Lines(old(text)), CHANNELS, Effective(channels))) + [LF]
    {
      hide Lines, Join, DropBlock;
      var out := DropBlockLines(Lines(text), CHANNELS);
      text := Join(out + ListLines(CHANNELS, Effective(channels))) + [LF];
    }

    method RecordIdentity(identity: map<string, string>)
      modifies this
      ensures text == Join(RecordTexts(Lines(old(text)), IDENTITY, QuotedValues(identity))) + [LF]
    {
      hide Lines, Join, DropLines, Quoted;
      var out := DropLines(Lines(text), IDENTITY);
      ghost var kept := out;
      assert IDENTITY[0..] == IDENTITY;
      for i := 0 to |IDENTITY|
        invariant out + TextLines(IDENTITY[i..], QuotedValues(identity)) == kept + TextLines(IDENTITY, QuotedValues(identity))
      {
        var key := IDENTITY[i];
        NextText(IDENTITY, QuotedValues(identity), i);
        if key in identity {
          out := out + [key + ": " + Quoted(identity[key])];
        }
      }
      assert IDENTITY[|IDENTITY|..] == [];
      NoText(QuotedValues(identity));
      text := Join(out) + [LF];
    }

    method RecordPortableSource(version: string)
      modifies this
      ensures text == Join(RecordTexts(Lines(old(text)), [SOURCE, COMMIT], PortableValues(version))) + [LF]
    {
      hide Lines, Join, HasAnyKey, DropLines;
      var ls := Lines(text);
      var kept: seq<string> := [];
      var keys := [SOURCE, COMMIT];
      assert ls[0..] == ls;
      for i := 0 to |ls|
        invariant kept + DropLines(ls[i..], keys) == DropLines(ls, keys)
      {
        NextLine(ls, keys, i);
        if !HasAnyKey(ls[i], keys) {
          kept := kept + [ls[i]];
        }
      }
      NoLines(keys);
      assert ls[|ls|..] == [];
      PortableLines(version);
      text := Join(kept + [SOURCE + ": " + REPO, COMMIT + ": v" + version]) + [LF];
    }
  }

  lemma NextLine(ls: seq<string>, keys: seq<string>, i: nat)
    requires i < |ls|
    ensures HasAnyKey(ls[i], keys) ==> DropLines(ls[i..], keys) == DropLines(ls[i + 1..], keys)
    ensures !HasAnyKey(ls[i], keys) ==>
              forall out: seq<string> :: out + [ls[i]] + DropLines(ls[i + 1..], keys) == out + DropLines(ls[i..], keys)
  {
    hide HasAnyKey;
    assert ls[i..][1..] == ls[i + 1..];
    var rest := DropLines(ls[i + 1..], keys);
    forall out: seq<string> ensures out + [ls[i]] + rest == out + ([ls[i]] + rest) {}
  }

  lemma NoLines(keys: seq<string>)
    ensures forall out: seq<string> :: out + DropLines([], keys) == out
  {
    forall out: seq<string> ensures out + DropLines([], keys) == out { assert out + [] == out; }
  }

  /** The two lines, as the lines of the two fields. */
  lemma PortableLines(version: string)
    ensures TextLines([SOURCE, COMMIT], PortableValues(version)) == [SOURCE + ": " + REPO, COMMIT + ": v" + version]
  {
    var values := PortableValues(version);
    var keys := [SOURCE, COMMIT];
    assert SOURCE != COMMIT by { assert |SOURCE| == 9 && |COMMIT| == 7; }
    assert values[SOURCE] == REPO && values[COMMIT] == "v" + version;
    assert keys[1..] == [COMMIT] && keys[1..][1..] == [];
    assert TextLines([COMMIT], values) == [COMMIT + ": " + values[COMMIT]];
    assert COMMIT + ": " + ("v" + version) == COMMIT + ": v" + version;
  }

  // ---------------------------------------------------------------- keys

  /** A key is a word: no colon in it, and it is no item. */
  predicate Key(k: string) {
    k != "" && ':' !in k && k[0] != '-'
  }

  lemma HasKeyAt(line: string, key: string)
    requires HasKey(line, key) && Key(key)
    ensures Find(line, ':') == |key| < |line| && line[..|key|] == key && !IsItem(line)
  {
    assert line[..|key| + 1] == key + ":";
    assert line[|key|] == line[..|key| + 1][|key|];
    assert line[..|key|] == line[..|key| + 1][..|key|] == key;
    assert line == key + [':'] + line[|key| + 1..];
    FindIn(key, ':', line[|key| + 1..]);
    assert line[0] == key[0];
    ItemDash(line);
  }

  lemma ItemDash(line: string)
    ensures IsItem(line) ==> line[0] == '-'
  {
    if IsItem(line) {
      assert line[..2][0] == '-';
    }
  }

  lemma OneKey(line: string, k: string, k': string)
    requires HasKey(line, k) && HasKey(line, k') && Key(k) && Key(k')
    ensures k == k'
  {
    HasKeyAt(line, k);
    HasKeyAt(line, k');
  }

  lemma OwnKey(k: string, tail: string)
    ensures HasKey(k + ":" + tail, k) && (k + ":" + tail)[|k| + 1..] == tail
  {
    var line := k + ":" + tail;
    assert line[..|k| + 1] == k + ":";
  }

  lemma OwnItem(x: string)
    ensures IsItem("- " + x) && ("- " + x)[2..] == x
  {
    assert ("- " + x)[..2] == "- ";
  }

  lemma ItemHasNoKey(line: string, k: string)
    requires IsItem(line) && Key(k)
    ensures !HasKey(line, k)
  {
    if HasKey(line, k) {
      HasKeyAt(line, k);
    }
  }
}

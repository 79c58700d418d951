/** The answers file as all its readers see it, through any number of writes. */
module AnswersView {
  import opened Lists
  import opened Text
  import opened Json
  import opened JsonValues
  import opened Answers
  import opened AnswersLaws

  /** All that the readers say of a file. */
  datatype Seen = Seen(batteries: seq<string>, channels: seq<string>, identity: map<string, string>, commit: Option<string>,
                       source: Option<string>)

  function LinesSee(ls: seq<string>): Seen {
    Seen(ReadBatteries(ls), ReadChannels(ls), ReadIdentity(ls), ReadCommit(ls), ReadSource(ls))
  }

  function Sees(text: string): Seen {
    LinesSee(Lines(text))
  }

  const PORTABLE: seq<string> := [SOURCE, COMMIT]
  const OWNED: seq<string> := IDENTITY + PORTABLE

  /** One call of a writer. */
  datatype Write =
    | Batteries(names: seq<string>)
    | Channels(channels: seq<string>)
    | Identity(identity: map<string, string>)
    | Source(version: string)

  /** What the call leaves, before the lines are joined. */
  function Written(ls: seq<string>, w: Write): seq<string> {
    match w
    case Batteries(names) => RecordList(ls, BATTERIES, names)
    case Channels(channels) => RecordList(ls, CHANNELS, Effective(channels))
    case Identity(identity) => RecordTexts(ls, IDENTITY, QuotedValues(identity))
    case Source(version) => RecordTexts(ls, PORTABLE, PortableValues(version))
  }

  function After(text: string, w: Write): string {
    Join(Written(Lines(text), w)) + [LF]
  }

  /** What the call should change in the view, and nothing else. */
  function Updated(s: Seen, w: Write): Seen {
    match w
    case Batteries(names) => s.(batteries := names)
    case Channels(channels) => s.(channels := if channels == [] then ["webhook"] else channels)
    case Identity(identity) => s.(identity := map k | k in IDENTITY && k in identity :: identity[k])
    case Source(version) => s.(commit := Some("v" + version), source := Some("gh:cdowell-swtr/swiftwater-framework"))
  }

  /** Inside the basic plane: beyond it the written escape is a pair of surrogates. */
  predicate Basic(s: string) {
    forall c :: c in s ==> c as int < 0x10000
  }

  /** A tag that is a plain scalar. */
  predicate Version(s: string) {
    Phrase("v" + s)
  }

  /** Values that YAML reads as the text they are. */
  predicate WriteOk(w: Write) {
    match w
    case Batteries(names) => forall i :: 0 <= i < |names| ==> Plain(names[i])
    case Channels(channels) => forall i :: 0 <= i < |channels| ==> Plain(channels[i])
    case Identity(identity) => forall k :: k in identity ==> Basic(identity[k])
    case Source(version) => Version(version)
  }

  /** Values of one line. */
  predicate WriteTidy(w: Write) {
    match w
    case Batteries(names) => forall i :: 0 <= i < |names| ==> Tidy(names[i])
    case Channels(channels) => forall i :: 0 <= i < |channels| ==> Tidy(channels[i])
    case Identity(_) => true
    case Source(version) => OneLine(version)
  }

  /** Single-line fields are single-line: no list item stands under one. */
  ghost predicate Flat(ls: seq<string>) {
    SingleLine(ls, OWNED)
  }

  /** What is read where nothing is recorded: no battery, the one default channel, no text. A project
      always has a channel. */
  lemma NothingRecorded(ls: seq<string>, key: string)
    requires NoKey(ls, key)
    ensures ReadText(ls, key) == None && ReadList(ls, key) == None && key !in ReadIdentity(ls)
    ensures key == "batteries" ==> ReadBatteries(ls) == []
    ensures key == "alert_channels" ==> ReadChannels(ls) == ["webhook"]
    ensures key == "_commit" ==> ReadCommit(ls) == None
    ensures ReadChannels(ls) != []
  {
    BlockNone(ls, key);
    hide Block, Strip, ItemTexts, TextOf;
  }

  // ---------------------------------------------------------------- the keys

  lemma ListKeys()
    ensures Key(BATTERIES) && OneLine(BATTERIES) && Key(CHANNELS) && OneLine(CHANNELS) && BATTERIES != CHANNELS
  {
    Differ(BATTERIES, CHANNELS, 0);
  }

  lemma OwnedKeyWords()
    ensures forall i :: 0 <= i < |OWNED| ==> Key(OWNED[i]) && OneLine(OWNED[i])
  {
    assert Key("project_name") && OneLine("project_name");
    assert Key("project_slug") && OneLine("project_slug");
    assert Key("package_name") && OneLine("package_name");
    assert Key("python_version") && OneLine("python_version");
    assert Key(SOURCE) && OneLine(SOURCE);
    assert Key(COMMIT) && OneLine(COMMIT);
    hide Key, OneLine;
    assert OWNED == ["project_name", "project_slug", "package_name", "python_version", SOURCE, COMMIT];
  }

  lemma OwnedApart()
    ensures forall i, j :: 0 <= i < j < |OWNED| ==> OWNED[i] != OWNED[j]
  {
    var o := OWNED;
    assert o == ["project_name", "project_slug", "package_name", "python_version", SOURCE, COMMIT];
    Differ(o[0], o[1], 8);
    Differ(o[0], o[2], 1);
    Differ(o[1], o[2], 1);
    forall i, j | 0 <= i < j < |o| ensures o[i] != o[j] {
      if j == 3 { Differ(o[i], o[j], 0); }
      if j >= 4 { Differ(o[i], o[j], 0); }
    }
  }

  lemma NotOwned()
    ensures BATTERIES !in OWNED && CHANNELS !in OWNED
  {
    var o := OWNED;
    assert o == ["project_name", "project_slug", "package_name", "python_version", SOURCE, COMMIT];
    forall i | 0 <= i < |o| ensures o[i] != BATTERIES && o[i] != CHANNELS {
      Differ(o[i], BATTERIES, 0);
      Differ(o[i], CHANNELS, 0);
    }
  }

  lemma OwnedKeys()
    ensures Keys(IDENTITY) && Keys(PORTABLE) && Keys(OWNED)
    ensures forall k :: k in IDENTITY ==> k in OWNED && k !in PORTABLE
    ensures forall k :: k in PORTABLE ==> k in OWNED && k !in IDENTITY
    ensures COMMIT in PORTABLE && Key(COMMIT) && SOURCE in PORTABLE && Key(SOURCE)
  {
    OwnedKeyWords();
    OwnedApart();
    hide Key, OneLine;
    var o := OWNED;
    assert forall i :: 0 <= i < |IDENTITY| ==> IDENTITY[i] == o[i];
    assert forall i :: 0 <= i < |PORTABLE| ==> PORTABLE[i] == o[i + 4];
    assert PORTABLE[1] == COMMIT == o[5] && PORTABLE[0] == SOURCE == o[4];
  }

  // ---------------------------------------------------------------- what single values read as

  lemma QuotedIsStripped(v: string)
    ensures Stripped(Quoted(v)) && |Quoted(v)| >= 2 && Quoted(v)[0] == '"'
  {
    hide EscapedAll;
  }

  lemma FarIsEscaped(c: char)
    ensures c as int >= 0x10000 ==> Escaped(c) != "" && Escaped(c)[0] == '\\'
  {
    hide Hex4;
  }

  lemma BasicCons(s: string)
    requires s != ""
    ensures Basic(s) <==> s[0] as int < 0x10000 && Basic(s[1..])
  {
    assert s[0] in s;
    assert forall c :: c in s <==> c == s[0] || c in s[1..];
  }

  /** What was quoted for JSON reads back from YAML exactly when it is in the basic plane. */
  lemma {:induction false} YamlReads(s: string, b: string)
    ensures YamlString(EscapedAll(s) + "\"" + b) == if Basic(s) then Got(s, b) else Bad
  {
    hide Escaped, DecodeChar, Basic;
    if s == "" {
      assert EscapedAll(s) + "\"" + b == ['"'] + b;
      assert (['"'] + b)[1..] == b;
      assert Basic("") by { NothingIsFar(); }
    } else {
      var tail := EscapedAll(s[1..]) + "\"" + b;
      YamlReads(s[1..], b);
      CharRoundTrip(s[0], tail);
      FarIsEscaped(s[0]);
      BasicCons(s);
      assert EscapedAll(s) + "\"" + b == Escaped(s[0]) + tail;
      assert (Escaped(s[0]) + tail)[0] == Escaped(s[0])[0];
      assert s == [s[0]] + s[1..];
    }
  }

  lemma NothingIsFar()
    ensures Basic("")
  {
  }

  lemma QuotedDecodes(v: string)
    ensures YamlString(Quoted(v)[1..]) == if Basic(v) then Got(v, "") else Bad
  {
    YamlReads(v, "");
    hide YamlString, EscapedAll, Basic;
    assert Quoted(v)[1..] == EscapedAll(v) + "\"" + "";
  }

  /** A quoted value reads as itself. */
  lemma QuotedReads(v: string)
    ensures TextOf(" " + Quoted(v)) == if Basic(v) then Some(v) else None
  {
    hide Quoted, Strip, YamlString, Stripped, Basic;
    var q := Quoted(v);
    QuotedIsStripped(v);
    StripIsStripped(q);
    StripBlank(' ', q);
    QuotedDecodes(v);
    assert [' '] + q == " " + q;
  }

  lemma TagIsNoWord(t: string)
    requires t != "" && t[0] == 'v'
    ensures PlainScalar(t) == Some(t)
  {
    assert forall w :: w in NULLS + TRUES + FALSES ==> w == "" || w[0] != 'v';
  }

  lemma TagReads(version: string)
    requires Version(version)
    ensures TextOf(" " + ("v" + version)) == Some("v" + version)
  {
    var t := "v" + version;
    VersionIsTidy(version);
    assert t[0] == 'v';
    StripIsStripped(t);
    StripBlank(' ', t);
    TagIsNoWord(t);
    hide Strip, PlainScalar;
    assert [' '] + t == " " + t;
  }

  lemma VersionIsTidy(version: string)
    requires Version(version)
    ensures Tidy("v" + version) && OneLine(version)
  {
    PhraseIsTidy("v" + version);
    assert forall c :: c in version ==> c in "v" + version;
    hide Stripped, Phrase;
  }

  lemma OkIsTidy(w: Write)
    requires WriteOk(w)
    ensures WriteTidy(w)
  {
    hide Phrase, Changed, Tidy, OneLine, Version;
    match w
    case Batteries(names) =>
      forall i | 0 <= i < |names| ensures Tidy(names[i]) { PhraseIsTidy(names[i]); }
    case Channels(channels) =>
      forall i | 0 <= i < |channels| ensures Tidy(channels[i]) { PhraseIsTidy(channels[i]); }
    case Identity(_) =>
    case Source(version) => VersionOneLine(version);
  }

  lemma VersionOneLine(version: string)
    requires Version(version)
    ensures OneLine(version)
  {
    VersionIsTidy(version);
  }

  // ---------------------------------------------------------------- one write

  lemma ReadersFollowBlocks(ls: seq<string>, ls': seq<string>, key: string)
    requires Block(ls, key) == Block(ls', key)
    ensures ReadText(ls, key) == ReadText(ls', key) && ReadList(ls, key) == ReadList(ls', key)
  {
    hide Block, Strip, ItemTexts, TextOf;
  }

  lemma TextsFollowBlocks(ls: seq<string>, ls': seq<string>)
    requires forall k :: k in OWNED ==> Block(ls, k) == Block(ls', k)
    ensures ReadIdentity(ls) == ReadIdentity(ls') && ReadCommit(ls) == ReadCommit(ls') && ReadSource(ls) == ReadSource(ls')
  {
    OwnedKeys();
    hide Block, ReadText, ReadList, Keys;
    forall k | k in OWNED ensures ReadText(ls, k) == ReadText(ls', k) { ReadersFollowBlocks(ls, ls', k); }
  }

  lemma PlainIsTidy(x: string)
    requires Plain(x)
    ensures Tidy(x)
  {
    PhraseIsTidy(x);
  }

  lemma ListSeen(ls: seq<string>, key: string, items: seq<string>)
    requires (key == BATTERIES || key == CHANNELS) && forall i :: 0 <= i < |items| ==> Plain(items[i])
    ensures var out := RecordList(ls, key, items);
            && ReadList(out, key) == Some(items)
            && (forall other :: Key(other) && other != key ==> Block(out, other) == Block(ls, other))
  {
    ListKeys();
    hide Key, Plain, Tidy, OneLine, Block, ReadList, RecordList;
    ListReadsBack(ls, key, items);
    forall i | 0 <= i < |items| ensures Tidy(items[i]) { PlainIsTidy(items[i]); }
    forall other | Key(other) && other != key ensures Block(RecordList(ls, key, items), other) == Block(ls, other) {
      ListFrame(ls, key, items, other);
    }
  }

  lemma ListSees(ls: seq<string>, key: string, items: seq<string>)
    requires (key == BATTERIES || key == CHANNELS) && forall i :: 0 <= i < |items| ==> Plain(items[i])
    ensures var out := RecordList(ls, key, items);
            && ReadList(out, key) == Some(items)
            && (key == BATTERIES ==> ReadList(out, CHANNELS) == ReadList(ls, CHANNELS))
            && (key == CHANNELS ==> ReadList(out, BATTERIES) == ReadList(ls, BATTERIES))
            && ReadIdentity(out) == ReadIdentity(ls) && ReadCommit(out) == ReadCommit(ls) && ReadSource(out) == ReadSource(ls)
  {
    ListSeen(ls, key, items);
    ListKeys();
    NotOwned();
    OwnedKeyWords();
    var out := RecordList(ls, key, items);
    hide Key, OneLine, Plain, Block, ReadList, RecordList, ReadIdentity, ReadCommit, ReadSource;
    ReadersAgree(out, ls, key);
    TextsFollowBlocks(out, ls);
  }

  lemma ReadersAgree(out: seq<string>, ls: seq<string>, key: string)
    requires forall other :: Key(other) && other != key ==> Block(out, other) == Block(ls, other)
    ensures key == BATTERIES ==> ReadList(out, CHANNELS) == ReadList(ls, CHANNELS)
    ensures key == CHANNELS ==> ReadList(out, BATTERIES) == ReadList(ls, BATTERIES)
  {
    ListKeys();
    hide Key, Block, ReadList;
    if key == BATTERIES { ReadersFollowBlocks(out, ls, CHANNELS); }
    if key == CHANNELS { ReadersFollowBlocks(out, ls, BATTERIES); }
  }

  lemma OwnedPart(ls: seq<string>, keys: seq<string>)
    requires Flat(ls) && forall k :: k in keys ==> k in OWNED
    ensures SingleLine(ls, keys)
  {
    hide HasKey, IsItem;
    forall i | 0 <= i < |ls| - 1 && HasAnyKey(ls[i], keys) ensures !IsItem(ls[i + 1]) {
      var j :| 0 <= j < |keys| && HasKey(ls[i], keys[j]);
      assert keys[j] in OWNED;
      var k :| 0 <= k < |OWNED| && OWNED[k] == keys[j];
      assert HasAnyKey(ls[i], OWNED);
    }
  }

  lemma TextSees(ls: seq<string>, keys: seq<string>, values: map<string, string>, key: string)
    requires keys == IDENTITY || keys == PORTABLE
    requires Flat(ls) && Key(key)
    ensures ReadText(RecordTexts(ls, keys, values), key) ==
            (if key !in keys then ReadText(ls, key)
             else if key in values then TextOf(" " + values[key]) else None)
    ensures key !in keys ==> ReadList(RecordTexts(ls, keys, values), key) == ReadList(ls, key)
  {
    OwnedKeys();
    OwnedPart(ls, keys);
    TextsBlock(ls, keys, values, key);
    if key !in keys {
      ReadersFollowBlocks(RecordTexts(ls, keys, values), ls, key);
    }
    hide Block, TextOf, RecordTexts, Key, ReadList, Keys;
  }

  /** What each identity key reads as afterwards. */
  lemma IdentityReads(ls: seq<string>, identity: map<string, string>, k: string)
    requires Flat(ls) && k in IDENTITY
    ensures ReadText(Written(ls, Identity(identity)), k) ==
            if k in identity && Basic(identity[k]) then Some(identity[k]) else None
  {
    OwnedKeys();
    OwnedKeyWords();
    hide Key, OneLine, ReadText, ReadList, RecordTexts, Keys, TextOf, Quoted, Flat, Basic;
    TextSees(ls, IDENTITY, QuotedValues(identity), k);
    if k in identity {
      QuotedReads(identity[k]);
    }
  }

  lemma IdentitySees(ls: seq<string>, identity: map<string, string>)
    requires Flat(ls) && forall k :: k in identity ==> Basic(identity[k])
    ensures LinesSee(Written(ls, Identity(identity))) == Updated(LinesSee(ls), Identity(identity))
  {
    OwnedKeys();
    OwnedKeyWords();
    NotOwned();
    ListKeys();
    hide Key, OneLine, ReadText, ReadList, RecordTexts, Keys, TextOf, Quoted, Flat, Basic;
    TextSees(ls, IDENTITY, QuotedValues(identity), BATTERIES);
    TextSees(ls, IDENTITY, QuotedValues(identity), CHANNELS);
    TextSees(ls, IDENTITY, QuotedValues(identity), COMMIT);
    TextSees(ls, IDENTITY, QuotedValues(identity), SOURCE);
    forall k | k in IDENTITY
      ensures ReadText(Written(ls, Identity(identity)), k) == if k in identity then Some(identity[k]) else None
    {
      IdentityReads(ls, identity, k);
    }
  }

  lemma PortableCommit(version: string)
    ensures COMMIT in PortableValues(version) && PortableValues(version)[COMMIT] == "v" + version
    ensures SOURCE in PortableValues(version) && PortableValues(version)[SOURCE] == "gh:cdowell-swtr/swiftwater-framework"
  {
    assert SOURCE != COMMIT by { assert |SOURCE| == 9 && |COMMIT| == 7; }
  }

  lemma PlainReads(t: string)
    requires t != "" && Stripped(t) && t[0] != '"' && PlainScalar(t) == Some(t)
    ensures TextOf(" " + t) == Some(t)
  {
    StripIsStripped(t);
    StripBlank(' ', t);
    hide Strip, PlainScalar, Stripped;
    assert [' '] + t == " " + t;
  }

  lemma LongIsNoWord(t: string)
    requires |t| > 5
    ensures PlainScalar(t) == Some(t)
  {
    assert forall w :: w in NULLS + TRUES + FALSES ==> |w| <= 5;
  }

  lemma EndsAreInk(t: string)
    requires t != "" && t[0] == 'g' && t[|t| - 1] == 'k'
    ensures Stripped(t)
  {
  }

  lemma RepoReads()
    ensures TextOf(" " + "gh:cdowell-swtr/swiftwater-framework") == Some("gh:cdowell-swtr/swiftwater-framework")
  {
    var t := "gh:cdowell-swtr/swiftwater-framework";
    assert |t| == 36 && t[0] == 'g' && t[35] == 'k';
    EndsAreInk(t);
    LongIsNoWord(t);
    hide *;
    PlainReads(t);
  }

  lemma SourceSees(ls: seq<string>, version: string)
    requires Flat(ls) && Version(version)
    ensures LinesSee(Written(ls, Source(version))) == Updated(LinesSee(ls), Source(version))
  {
    hide Key, OneLine, ReadText, ReadList, RecordTexts, Keys, TextOf, Flat, Version, PortableValues, Block;
    OwnedKeys();
    OwnedKeyWords();
    NotOwned();
    ListKeys();
    TagReads(version);
    RepoReads();
    PortableCommit(version);
    var values := PortableValues(version);
    TextSees(ls, PORTABLE, values, BATTERIES);
    TextSees(ls, PORTABLE, values, CHANNELS);
    TextSees(ls, PORTABLE, values, COMMIT);
    TextSees(ls, PORTABLE, values, SOURCE);
    IdentityKept(ls, RecordTexts(ls, PORTABLE, values)) by {
      forall k | k in IDENTITY ensures ReadText(RecordTexts(ls, PORTABLE, values), k) == ReadText(ls, k) {
        TextSees(ls, PORTABLE, values, k);
      }
    }
  }

  lemma IdentityKept(ls: seq<string>, out: seq<string>)
    requires forall k :: k in IDENTITY ==> ReadText(out, k) == ReadText(ls, k)
    ensures ReadIdentity(out) == ReadIdentity(ls)
  {
    hide ReadText;
  }

  /** A write changes its own field to what was asked, and no other. */
  lemma WriteSees(ls: seq<string>, w: Write)
    requires Flat(ls) && WriteOk(w)
    ensures LinesSee(Written(ls, w)) == Updated(LinesSee(ls), w)
  {
    hide Flat, ReadList, ReadIdentity, ReadCommit, ReadSource, RecordList, RecordTexts, Plain, Version;
    match w
    case Batteries(names) => ListSees(ls, BATTERIES, names);
    case Channels(channels) =>
      PlainWebhook();
      ListSees(ls, CHANNELS, Effective(channels));
    case Identity(identity) => IdentitySees(ls, identity);
    case Source(version) => SourceSees(ls, version);
  }

  lemma PlainWebhook()
    ensures Plain("webhook") && Tidy("webhook")
  {
    var w := "webhook";
    assert Phrase(w) by { WebhookIsPhrase(); }
    hide Phrase, Tidy;
    assert w[0] == 'w';
    assert forall x :: x in NULLS + TRUES + FALSES ==> x == "" || x[0] != 'w';
    PhraseIsTidy(w);
  }

  lemma WebhookIsPhrase()
    ensures Phrase("webhook")
  {
  }

  // ---------------------------------------------------------------- single-line fields stay so

  lemma SingleLineCons(h: string, rest: seq<string>, keys: seq<string>)
    requires SingleLine(rest, keys) && (HasAnyKey(h, keys) ==> rest == [] || !IsItem(rest[0]))
    ensures SingleLine([h] + rest, keys)
  {
    hide HasAnyKey, IsItem;
    var ls := [h] + rest;
    forall i | 0 <= i < |ls| - 1 && HasAnyKey(ls[i], keys) ensures !IsItem(ls[i + 1]) {
      if i > 0 {
        assert ls[i] == rest[i - 1] && ls[i + 1] == rest[i - 1 + 1];
      }
    }
  }

  lemma SingleLineAppend(a: seq<string>, b: seq<string>, keys: seq<string>)
    requires SingleLine(a, keys) && SingleLine(b, keys) && (b == [] || !IsItem(b[0]))
    ensures SingleLine(a + b, keys)
  {
    hide HasAnyKey, IsItem;
    var ls := a + b;
    forall i | 0 <= i < |ls| - 1 && HasAnyKey(ls[i], keys) ensures !IsItem(ls[i + 1]) {
      if i >= |a| {
        assert ls[i] == b[i - |a|] && ls[i + 1] == b[i - |a| + 1];
      } else if i + 1 < |a| {
        assert ls[i] == a[i] && ls[i + 1] == a[i + 1];
      }
    }
  }

  lemma RunHead(ls: seq<string>)
    ensures ItemRun(ls) == [] <==> ls == [] || !IsItem(ls[0])
  {
    hide IsItem;
  }

  lemma {:induction false} DropBlockFlat(ls: seq<string>, key: string, skipping: bool)
    requires Flat(ls) && Key(key)
    ensures Flat(DropBlock(ls, key, skipping))
  {
    hide HasKey, HasAnyKey, IsItem, ItemRun, Key, SingleLine;
    if ls == [] {
      assert DropBlock(ls, key, skipping) == ls;
    } else {
      SingleLineTail(ls, OWNED);
      DropBlockFlat(ls[1..], key, true);
      DropBlockFlat(ls[1..], key, false);
      var rest := DropBlock(ls[1..], key, false);
      DroppedRun(ls[1..], key, false);
      RunHead(ls[1..]);
      RunHead(rest);
      if !HasKey(ls[0], key) && !(skipping && IsItem(ls[0])) {
        SingleLineCons(ls[0], rest, OWNED);
      }
    }
  }

  lemma {:induction false} DropLinesFlat(ls: seq<string>, keys: seq<string>)
    requires Flat(ls) && Keys(keys) && forall k :: k in keys ==> k in OWNED
    ensures Flat(DropLines(ls, keys))
  {
    hide HasKey, HasAnyKey, IsItem, ItemRun, Key, SingleLine, Keys;
    if ls == [] {
      assert DropLines(ls, keys) == ls;
    } else {
      SingleLineTail(ls, OWNED);
      DropLinesFlat(ls[1..], keys);
      var rest := DropLines(ls[1..], keys);
      OwnedPart(ls[1..], keys);
      DropLinesRun(ls[1..], keys);
      RunHead(ls[1..]);
      RunHead(rest);
      if HasAnyKey(ls[0], keys) {
        assert DropLines(ls, keys) == rest;
      } else {
        SingleLineCons(ls[0], rest, OWNED);
        assert DropLines(ls, keys) == [ls[0]] + rest;
      }
    }
  }

  lemma NoItemsFlat(ls: seq<string>)
    requires forall l :: l in ls ==> !IsItem(l)
    ensures Flat(ls)
  {
    hide IsItem, HasAnyKey;
    assert forall i :: 0 <= i < |ls| ==> ls[i] in ls;
  }

  lemma NoKeysFlat(ls: seq<string>)
    requires forall k :: k in OWNED ==> NoKey(ls, k)
    ensures Flat(ls)
  {
    hide IsItem, HasKey;
    forall i | 0 <= i < |ls| ensures !HasAnyKey(ls[i], OWNED) {
      forall j | 0 <= j < |OWNED| ensures !HasKey(ls[i], OWNED[j]) {
        assert NoKey(ls, OWNED[j]);
      }
    }
  }

  lemma ListFlat(ls: seq<string>, key: string, items: seq<string>)
    requires Flat(ls) && AllOneLine(ls) && (key == BATTERIES || key == CHANNELS)
    requires forall i :: 0 <= i < |items| ==> Tidy(items[i])
    ensures var out := RecordList(ls, key, items); Flat(out) && AllOneLine(out)
  {
    ListKeys();
    NotOwned();
    OwnedKeyWords();
    hide Key, Tidy, HasKey, IsItem, OneLine, DropBlock, ListLines, SingleLine, NoKey, Block;
    DropBlockFlat(ls, key, false);
    DroppedHasNone(ls, key, false);
    ListLinesRead(key, items);
    forall k | k in OWNED ensures NoKey(ListLines(key, items), k) { ListLinesOther(key, items, k); }
    NoKeysFlat(ListLines(key, items));
    SingleLineAppend(DropBlock(ls, key, false), ListLines(key, items), OWNED);
  }

  lemma {:induction false} TextLinesOneLine(keys: seq<string>, values: map<string, string>)
    requires forall k :: k in keys ==> OneLine(k) && (k in values ==> OneLine(values[k]))
    ensures AllOneLine(TextLines(keys, values))
  {
    if keys != [] {
      TextLinesOneLine(keys[1..], values);
      assert keys[0] in keys;
      if keys[0] in values {
        OneLineField(keys[0], values[keys[0]]);
      }
    }
  }

  lemma OneLineField(a: string, b: string)
    requires OneLine(a) && OneLine(b)
    ensures OneLine(a + ": " + b)
  {
    var s := ": ";
    assert s[0] == ':' && s[1] == ' ' && |s| == 2;
    assert OneLine(s);
  }

  lemma TextFlat(ls: seq<string>, keys: seq<string>, values: map<string, string>)
    requires Flat(ls) && AllOneLine(ls) && (keys == IDENTITY || keys == PORTABLE)
    requires forall k :: k in values ==> OneLine(values[k])
    ensures var out := RecordTexts(ls, keys, values); Flat(out) && AllOneLine(out)
  {
    OwnedKeys();
    OwnedKeyWords();
    hide Key, HasKey, HasAnyKey, IsItem, OneLine, DropLines, TextLines, SingleLine;
    var kept, added := DropLines(ls, keys), TextLines(keys, values);
    DropLinesFlat(ls, keys);
    DropLinesHasNone(ls, keys);
    TextLinesKeys(keys, values);
    KeyLinesAreNothingElse(added, keys);
    TextLinesOneLine(keys, values);
    NoItemsFlat(added);
    TextsNoItems(keys, values);
    SingleLineAppend(kept, added, OWNED);
  }

  lemma EscapedOneLine(c: char)
    ensures OneLine(Escaped(c))
  {
    hide HexDigit, Hex4;
    var n := c as int;
    if ' ' <= c <= '~' || c == '\n' || c == '\r' || c == '\t' || n == 8 || n == 12 {
    } else if n < 0x10000 {
      HexOneLine(n);
    } else {
      PairParts(n);
      HexOneLine(0xd800 + (n - 0x10000) / 0x400);
      HexOneLine(0xdc00 + (n - 0x10000) % 0x400);
    }
  }

  lemma HexOneLine(n: nat)
    requires n < 0x10000
    ensures OneLine(Hex4(n)) && OneLine("\\u" + Hex4(n))
  {
    assert forall d: nat :: d < 16 ==> HexDigit(d) != LF;
    hide HexDigit;
  }

  lemma {:induction false} EscapedAllOneLine(s: string)
    ensures OneLine(EscapedAll(s))
  {
    hide Escaped;
    if s != "" {
      EscapedOneLine(s[0]);
      EscapedAllOneLine(s[1..]);
    }
  }

  lemma QuotedOneLine(s: string)
    ensures OneLine(Quoted(s))
  {
    EscapedAllOneLine(s);
    hide EscapedAll;
  }

  lemma PortableOneLine(version: string)
    requires OneLine(version)
    ensures forall k :: k in PortableValues(version) ==> OneLine(PortableValues(version)[k])
  {
    assert OneLine(REPO) && OneLine("v" + version);
    hide OneLine;
  }

  /** A write keeps the file flat. */
  lemma WriteStaysFlat(ls: seq<string>, w: Write)
    requires Flat(ls) && AllOneLine(ls) && WriteTidy(w)
    ensures Flat(Written(ls, w)) && AllOneLine(Written(ls, w))
  {
    hide Flat, RecordList, RecordTexts, Quoted;
    match w
    case Batteries(names) => ListFlat(ls, BATTERIES, names);
    case Channels(channels) =>
      PlainWebhook();
      ListFlat(ls, CHANNELS, Effective(channels));
    case Identity(identity) => IdentityStaysFlat(ls, identity);
    case Source(version) =>
      PortableOneLine(version);
      TextFlat(ls, PORTABLE, PortableValues(version));
  }

  // ---------------------------------------------------------------- the file

  /** Nothing reads differently once the lines are joined and split again. */
  lemma Reread(out: seq<string>)
    requires AllOneLine(out)
    ensures Lines(Join(out) + [LF]) == if out == [] then [""] else out
  {
    if out == [] {
      LinesCons("", "");
      assert "" + [LF] + "" == Join(out) + [LF];
    } else {
      LinesOfJoinLF(out);
    }
  }

  lemma BlankFileSeesNothing()
    ensures LinesSee([""]) == LinesSee([]) && Flat([""])
  {
    forall k | Key(k) ensures Block([""], k) == Block([], k) { BlankBlock(k); }
    ListKeys();
    OwnedKeyWords();
    hide Key, OneLine, Block, ReadList, ReadIdentity, ReadCommit;
    ReadersFollowBlocks([""], [], BATTERIES);
    ReadersFollowBlocks([""], [], CHANNELS);
    TextsFollowBlocks([""], []);
  }

  /** Whatever the file says, a write is read back by its own reader, and no other reader sees
      a change; the file stays flat for the next write. */
  lemma WriteIsReadBack(text: string, w: Write)
    requires Flat(Lines(text)) && WriteOk(w)
    ensures Sees(After(text, w)) == Updated(Sees(text), w)
    ensures Flat(Lines(After(text, w)))
  {
    hide Flat, Written, Lines, LinesSee, Updated, WriteOk, WriteTidy, AllOneLine, Join;
    OkIsTidy(w);
    LinesAreLines(text);
    WriteSees(Lines(text), w);
    WriteStaysFlat(Lines(text), w);
    Reread(Written(Lines(text), w));
    BlankFileSeesNothing();
  }

  /** An identity reads back as it was recorded exactly when none of its values has a character
      beyond the basic plane. */
  lemma IdentityReadsBackIff(text: string, identity: map<string, string>)
    requires Flat(Lines(text))
    ensures ReadIdentity(Lines(After(text, Identity(identity)))) == (map k | k in IDENTITY && k in identity :: identity[k]) <==>
            forall k :: k in IDENTITY && k in identity ==> Basic(identity[k])
  {
    hide Flat, Lines, AllOneLine, Join, Basic, Quoted, RecordTexts, ReadText;
    LinesAreLines(text);
    var out := Written(Lines(text), Identity(identity));
    IdentityStaysFlat(Lines(text), identity);
    Reread(out);
    BlankReadsNothing();
    forall k | k in IDENTITY
      ensures ReadText(Lines(After(text, Identity(identity))), k) ==
              if k in identity && Basic(identity[k]) then Some(identity[k]) else None
    {
      IdentityReads(Lines(text), identity, k);
    }
    SameIdentity(Lines(After(text, Identity(identity))), identity);
  }

  lemma SameIdentity(ls: seq<string>, identity: map<string, string>)
    requires forall k :: k in IDENTITY ==>
               ReadText(ls, k) == if k in identity && Basic(identity[k]) then Some(identity[k]) else None
    ensures ReadIdentity(ls) == (map k | k in IDENTITY && k in identity :: identity[k]) <==>
            forall k :: k in IDENTITY && k in identity ==> Basic(identity[k])
  {
    hide ReadText, Basic;
    if k :| k in IDENTITY && k in identity && !Basic(identity[k]) {
      var m := map k | k in IDENTITY && k in identity :: identity[k];
      assert k in m && k !in ReadIdentity(ls);
    }
  }

  lemma BlankReadsNothing()
    ensures forall k :: k in IDENTITY ==> ReadText([""], k) == ReadText([], k)
  {
    OwnedKeys();
    OwnedKeyWords();
    hide OneLine, Keys, ReadText, ReadList;
    forall k | k in IDENTITY ensures ReadText([""], k) == ReadText([], k) {
      assert Key(k);
      BlankBlock(k);
      ReadersFollowBlocks([""], [], k);
    }
  }

  lemma BlankBlock(k: string)
    requires Key(k)
    ensures Block([""], k) == Block([], k)
  {
    hide Key;
    assert !HasKey("", k);
    BlockNone([""], k);
    BlockNone([], k);
  }

  lemma IdentityStaysFlat(ls: seq<string>, identity: map<string, string>)
    requires Flat(ls) && AllOneLine(ls)
    ensures Flat(Written(ls, Identity(identity))) && AllOneLine(Written(ls, Identity(identity)))
  {
    hide Flat, RecordTexts, Quoted;
    forall k | k in identity ensures OneLine(QuotedValues(identity)[k]) { QuotedOneLine(identity[k]); }
    TextFlat(ls, IDENTITY, QuotedValues(identity));
  }

  /** The same write again leaves the file as it is, byte for byte. */
  lemma WriteTwice(text: string, w: Write)
    requires Flat(Lines(text)) && WriteTidy(w)
    ensures After(After(text, w), w) == After(text, w)
  {
    assert Join([]) == "";
    hide Flat, Lines, AllOneLine, Join, Written;
    LinesAreLines(text);
    WriteStaysFlat(Lines(text), w);
    Reread(Written(Lines(text), w));
    WrittenTwice(Lines(text), w);
    if Written(Lines(text), w) == [] {
      WrittenBlank(Lines(text), w);
    }
  }

  lemma WrittenTwice(ls: seq<string>, w: Write)
    requires WriteTidy(w)
    ensures Written(Written(ls, w), w) == Written(ls, w)
  {
    ListKeys();
    OwnedKeys();
    hide RecordList, RecordTexts, Key, Keys, Quoted, Plain, Tidy, OneLine;
    match w
    case Batteries(names) => ListTwice(ls, BATTERIES, names);
    case Channels(channels) =>
      PlainWebhook();
      ListTwice(ls, CHANNELS, Effective(channels));
    case Identity(identity) => TextsTwice(ls, IDENTITY, QuotedValues(identity));
    case Source(version) => TextsTwice(ls, PORTABLE, PortableValues(version));
  }

  /** A file left with nothing but a line break is a fixed point too. */
  lemma WrittenBlank(ls: seq<string>, w: Write)
    requires Written(ls, w) == []
    ensures Join(Written([""], w)) == ""
  {
  }

  // ---------------------------------------------------------------- several writes

  function AfterAll(text: string, ws: seq<Write>): string
    decreases |ws|
  {
    if ws == [] then text else AfterAll(After(text, ws[0]), ws[1..])
  }

  function UpdatedAll(s: Seen, ws: seq<Write>): Seen
    decreases |ws|
  {
    if ws == [] then s else UpdatedAll(Updated(s, ws[0]), ws[1..])
  }

  ghost predicate AllOk(ws: seq<Write>) {
    forall i :: 0 <= i < |ws| ==> WriteOk(ws[i])
  }

  predicate SameField(v: Write, w: Write) {
    v.Batteries? == w.Batteries? && v.Channels? == w.Channels? && v.Identity? == w.Identity? && v.Source? == w.Source?
  }

  /** No two of the writes are by one writer. */
  ghost predicate Separate(ws: seq<Write>) {
    forall i, j :: 0 <= i < j < |ws| ==> !SameField(ws[i], ws[j])
  }

  lemma {:induction false} WritesAreReadBack(text: string, ws: seq<Write>)
    requires Flat(Lines(text)) && AllOk(ws)
    ensures Sees(AfterAll(text, ws)) == UpdatedAll(Sees(text), ws)
    decreases |ws|
  {
    hide Flat, Lines, Sees, After, WriteOk, Updated;
    if ws != [] {
      WriteIsReadBack(text, ws[0]);
      assert forall i :: 0 <= i < |ws| - 1 ==> ws[1..][i] == ws[i + 1];
      WritesAreReadBack(After(text, ws[0]), ws[1..]);
    }
  }

  /** What the view ends with in one field, by the only write that touches it. */
  predicate Decided(s: Seen, w: Write) {
    match w
    case Batteries(names) => s.batteries == names
    case Channels(channels) => s.channels == Effective(channels)
    case Identity(_) => s.identity == Updated(s, w).identity
    case Source(version) => s.commit == Some("v" + version) && s.source == Updated(s, w).source
  }

  predicate Untouched(s: Seen, s': Seen, ws: seq<Write>) {
    && ((forall w :: w in ws ==> !w.Batteries?) ==> s'.batteries == s.batteries)
    && ((forall w :: w in ws ==> !w.Channels?) ==> s'.channels == s.channels)
    && ((forall w :: w in ws ==> !w.Identity?) ==> s'.identity == s.identity)
    && ((forall w :: w in ws ==> !w.Source?) ==> s'.commit == s.commit && s'.source == s.source)
  }

  lemma FirstDecides(s: Seen, e: Seen, w: Write, rest: seq<Write>)
    requires Untouched(Updated(s, w), e, rest) && forall v :: v in rest ==> !SameField(w, v)
    ensures Decided(e, w)
  {
  }

  lemma RestUntouched(s: Seen, e: Seen, w: Write, rest: seq<Write>)
    requires Untouched(Updated(s, w), e, rest)
    ensures Untouched(s, e, [w] + rest)
  {
    var ws := [w] + rest;
    assert forall v :: v in rest ==> v in ws;
    assert w in ws;
  }

  lemma {:induction false} UpdatesDecide(s: Seen, ws: seq<Write>)
    requires Separate(ws)
    ensures forall w :: w in ws ==> Decided(UpdatedAll(s, ws), w)
    ensures Untouched(s, UpdatedAll(s, ws), ws)
    decreases |ws|
  {
    hide Updated, Decided;
    if ws != [] {
      var rest := ws[1..];
      assert ws == [ws[0]] + rest;
      assert Separate(rest) by { assert forall i :: 0 <= i < |rest| ==> rest[i] == ws[i + 1]; }
      assert forall w :: w in rest ==> !SameField(ws[0], w);
      hide Untouched, SameField, Separate;
      UpdatesDecide(Updated(s, ws[0]), rest);
      FirstDecides(s, UpdatedAll(s, ws), ws[0], rest);
      RestUntouched(s, UpdatedAll(s, ws), ws[0], rest);
    }
  }

  /** The writes that follow an update may come in any order: every reader sees the same. */
  lemma WritesInAnyOrder(text: string, ws: seq<Write>, ws': seq<Write>)
    requires Flat(Lines(text)) && AllOk(ws) && AllOk(ws')
    requires Separate(ws) && Separate(ws') && ToSet(ws) == ToSet(ws')
    ensures Sees(AfterAll(text, ws)) == Sees(AfterAll(text, ws'))
  {
    WritesAreReadBack(text, ws);
    WritesAreReadBack(text, ws');
    UpdatesDecide(Sees(text), ws);
    UpdatesDecide(Sees(text), ws');
    DecidedAlike(Sees(text), UpdatedAll(Sees(text), ws), UpdatedAll(Sees(text), ws'), ws, ws');
  }

  lemma DecidedAlike(s: Seen, a: Seen, b: Seen, ws: seq<Write>, ws': seq<Write>)
    requires ToSet(ws) == ToSet(ws')
    requires forall w :: w in ws ==> Decided(a, w)
    requires forall w :: w in ws' ==> Decided(b, w)
    requires Untouched(s, a, ws) && Untouched(s, b, ws')
    ensures a == b
  {
    assert forall w :: w in ws <==> w in ws' by {
      assert forall w :: w in ws <==> w in ToSet(ws);
      assert forall w :: w in ws' <==> w in ToSet(ws');
    }
  }

  /** What the class's methods write is what the laws above speak of. */
  method Record(f: AnswersFile, w: Write)
    modifies f
    ensures f.text == After(old(f.text), w)
  {
    match w
    case Batteries(names) => f.RecordBatteries(names);
    case Channels(channels) => f.RecordAlertChannels(channels);
    case Identity(identity) => f.RecordIdentity(identity);
    case Source(version) => f.RecordPortableSource(version);
  }
}

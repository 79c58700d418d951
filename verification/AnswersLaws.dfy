/** Each writer of the answers file is read back, is idempotent, and changes nothing that any
    other reader sees. */
module AnswersLaws {
  import opened Lists
  import opened Text
  import opened Json
  import opened JsonValues
  import opened Answers

  // ---------------------------------------------------------------- blocks under concatenation

  ghost predicate NoKey(ls: seq<string>, key: string) {
    forall i :: 0 <= i < |ls| ==> !HasKey(ls[i], key)
  }

  lemma {:induction false} BlockNone(ls: seq<string>, key: string)
    ensures Block(ls, key).None? <==> NoKey(ls, key)
  {
    hide HasKey, ItemRun;
    if ls != [] {
      BlockNone(ls[1..], key);
      assert forall i :: 1 <= i < |ls| ==> ls[i] == ls[1..][i - 1];
    }
  }

  lemma {:induction false} RunStops(a: seq<string>, b: seq<string>)
    requires b == [] || !IsItem(b[0])
    ensures ItemRun(a + b) == ItemRun(a)
  {
    hide IsItem;
    if a == [] {
      assert a + b == b;
    } else {
      assert (a + b)[0] == a[0] && (a + b)[1..] == a[1..] + b;
      RunStops(a[1..], b);
    }
  }

  /** Lines appended with no line of `key` among them are not seen by its reader. */
  lemma {:induction false} BlockBefore(a: seq<string>, b: seq<string>, key: string)
    requires NoKey(b, key) && (b == [] || !IsItem(b[0]))
    ensures Block(a + b, key) == Block(a, key)
  {
    hide HasKey, IsItem, ItemRun;
    if a == [] {
      assert a + b == b;
      BlockNone(b, key);
    } else {
      assert (a + b)[0] == a[0] && (a + b)[1..] == a[1..] + b;
      BlockBefore(a[1..], b, key);
      RunStops(a[1..], b);
    }
  }

  lemma {:induction false} BlockAfter(a: seq<string>, b: seq<string>, key: string)
    requires Block(b, key).Some?
    ensures Block(a + b, key) == Block(b, key)
  {
    hide HasKey, ItemRun;
    if a == [] {
      assert a + b == b;
    } else {
      assert (a + b)[1..] == a[1..] + b;
      BlockAfter(a[1..], b, key);
    }
  }

  // ---------------------------------------------------------------- dropping a block

  lemma {:induction false} DroppedHasNone(ls: seq<string>, key: string, skipping: bool)
    ensures NoKey(DropBlock(ls, key, skipping), key)
    ensures forall l :: l in DropBlock(ls, key, skipping) ==> l in ls
  {
    hide HasKey, IsItem;
    if ls != [] {
      DroppedHasNone(ls[1..], key, true);
      DroppedHasNone(ls[1..], key, false);
    }
  }

  /** The run of items at the start survives when it belongs to another key. */
  lemma {:induction false} DroppedRun(ls: seq<string>, key: string, skipping: bool)
    requires Key(key)
    ensures ItemRun(DropBlock(ls, key, skipping)) == if skipping then [] else ItemRun(ls)
  {
    hide HasKey, IsItem, Key;
    if ls != [] {
      DroppedRun(ls[1..], key, true);
      DroppedRun(ls[1..], key, false);
      if HasKey(ls[0], key) && IsItem(ls[0]) {
        ItemHasNoKey(ls[0], key);
      }
      if !HasKey(ls[0], key) && !(skipping && IsItem(ls[0])) {
        var rest := DropBlock(ls[1..], key, false);
        assert DropBlock(ls, key, skipping) == [ls[0]] + rest;
        assert ([ls[0]] + rest)[1..] == rest;
      }
    }
  }

  /** Dropping one key's blocks changes no other key's field. */
  lemma {:induction false} DroppedFrame(ls: seq<string>, key: string, skipping: bool, other: string)
    requires Key(key) && Key(other) && key != other
    ensures Block(DropBlock(ls, key, skipping), other) == Block(ls, other)
  {
    hide HasKey, IsItem, Key, ItemRun;
    if ls != [] {
      DroppedFrame(ls[1..], key, true, other);
      DroppedFrame(ls[1..], key, false, other);
      if HasKey(ls[0], key) {
        if HasKey(ls[0], other) {
          OneKey(ls[0], key, other);
        }
      } else if skipping && IsItem(ls[0]) {
        ItemHasNoKey(ls[0], other);
      } else {
        var rest := DropBlock(ls[1..], key, false);
        assert DropBlock(ls, key, skipping) == [ls[0]] + rest;
        assert ([ls[0]] + rest)[1..] == rest;
        DroppedRun(ls[1..], key, false);
      }
    }
  }

  lemma {:induction false} DropNothing(ls: seq<string>, key: string)
    requires NoKey(ls, key)
    ensures DropBlock(ls, key, false) == ls
  {
    hide HasKey, IsItem;
    if ls != [] {
      assert forall i :: 0 <= i < |ls| - 1 ==> ls[1..][i] == ls[i + 1];
      DropNothing(ls[1..], key);
      assert [ls[0]] + ls[1..] == ls;
    }
  }

  lemma {:induction false} DropTail(a: seq<string>, b: seq<string>, key: string)
    requires NoKey(a, key) && DropBlock(b, key, false) == []
    ensures DropBlock(a + b, key, false) == a
  {
    hide HasKey, IsItem;
    if a == [] {
      assert a + b == b;
    } else {
      assert (a + b)[0] == a[0] && (a + b)[1..] == a[1..] + b;
      assert forall i :: 0 <= i < |a| - 1 ==> a[1..][i] == a[i + 1];
      DropTail(a[1..], b, key);
      assert [a[0]] + a[1..] == a;
    }
  }

  // ---------------------------------------------------------------- the written block

  /** One line without blanks around it. */
  predicate Tidy(x: string) {
    Stripped(x) && OneLine(x)
  }

  /** A plain scalar to YAML: a letter first, printable ASCII, no `: ` that would make a mapping, no
      ` #` that would start a comment, and neither a blank nor a colon at the end. */
  predicate Phrase(x: string) {
    && x != "" && ('a' <= x[0] <= 'z' || 'A' <= x[0] <= 'Z')
    && (forall i :: 0 <= i < |x| ==> ' ' <= x[i] <= '~')
    && x[|x| - 1] != ' ' && x[|x| - 1] != ':'
    && (forall i :: 0 <= i < |x| - 1 && x[i] == ':' ==> x[i + 1] != ' ')
    && (forall i :: 0 <= i < |x| - 1 && x[i] == ' ' ==> x[i + 1] != '#')
  }

  /** A word that YAML takes for null or a truth value, and that `str` then spells otherwise. */
  predicate Changed(x: string) {
    x in NULLS || (x in TRUES && x != "True") || (x in FALSES && x != "False")
  }

  /** A scalar that reads back as itself. */
  predicate Plain(x: string) {
    Phrase(x) && !Changed(x)
  }

  lemma PhraseIsTidy(x: string)
    requires Phrase(x)
    ensures Tidy(x)
  {
    assert forall c :: ' ' < c <= '~' ==> !Space(c);
    hide Space;
  }

  lemma ReadsAsItselfIff(x: string)
    ensures ItemText(x) == x <==> !Changed(x)
  {
    assert "None" !in NULLS by { assert |"None"| == 4 && "None"[0] == 'N' && "None"[1] == 'o'; }
  }

  function AsRead(items: seq<string>): seq<string> {
    seq(|items|, i requires 0 <= i < |items| => ItemText(items[i]))
  }

  lemma ItemLine(x: string, key: string)
    requires Key(key) && Tidy(x)
    ensures var line := "- " + x;
            IsItem(line) && !HasKey(line, key) && OneLine(line) && line[2..] == x && Strip(line[2..]) == x
  {
    OwnItem(x);
    ItemHasNoKey("- " + x, key);
    StripIsStripped(x);
    hide HasKey, IsItem, Key, Strip;
  }

  lemma {:induction false} ItemLinesShape(items: seq<string>, key: string)
    requires Key(key) && forall i :: 0 <= i < |items| ==> Tidy(items[i])
    ensures var ls := ItemLines(items);
            && ItemRun(ls) == ls && NoKey(ls, key) && AllOneLine(ls)
            && (forall i :: 0 <= i < |ls| ==> IsItem(ls[i]))
            && DropBlock(ls, key, true) == []
  {
    hide HasKey, IsItem, Key, OneLine, Tidy;
    if items != [] {
      ItemLinesShape(items[1..], key);
      ItemLine(items[0], key);
      var rest := ItemLines(items[1..]);
      assert ItemLines(items) == ["- " + items[0]] + rest;
      assert (["- " + items[0]] + rest)[1..] == rest;
    }
  }

  lemma {:induction false} ItemLinesRead(items: seq<string>, key: string)
    requires Key(key) && forall i :: 0 <= i < |items| ==> Tidy(items[i])
    ensures var ls := ItemLines(items);
            && ItemRun(ls) == ls && NoKey(ls, key) && AllOneLine(ls)
            && (forall i :: 0 <= i < |ls| ==> IsItem(ls[i]))
            && DropBlock(ls, key, true) == []
            && ItemTexts(ls) == AsRead(items)
  {
    hide HasKey, IsItem, Key, OneLine, Tidy, Strip, ItemRun, DropBlock, ItemText;
    ItemLinesShape(items, key);
    if items != [] {
      ItemLinesRead(items[1..], key);
      ItemLine(items[0], key);
      var rest := ItemLines(items[1..]);
      assert ItemLines(items) == ["- " + items[0]] + rest;
      assert (["- " + items[0]] + rest)[1..] == rest;
      assert [ItemText(items[0])] + AsRead(items[1..]) == AsRead(items);
    }
  }

  /** The header line of a written list. */
  function Head(items: seq<string>): string {
    if items == [] then " []" else ""
  }

  lemma ListLinesShape(key: string, items: seq<string>)
    requires Key(key)
    ensures ListLines(key, items) == [key + ":" + Head(items)] + ItemLines(items)
    ensures HasKey(key + ":" + Head(items), key) && !IsItem(key + ":" + Head(items))
    ensures (key + ":" + Head(items))[|key| + 1..] == Head(items)
  {
    OwnKey(key, Head(items));
    HasKeyAt(key + ":" + Head(items), key);
    hide HasKey, IsItem;
    if items == [] {
      assert key + ":" + " []" == key + ": []";
      assert [key + ": []"] + [] == [key + ": []"];
    } else {
      assert key + ":" + "" == key + ":";
    }
  }

  lemma HeaderBlock(head: string, items: seq<string>, key: string, tail: string)
    requires HasKey(head, key) && head[|key| + 1..] == tail && NoKey(items, key) && ItemRun(items) == items
    ensures Block([head] + items, key) == Some((tail, items))
  {
    BlockNone(items, key);
    hide HasKey;
    assert ([head] + items)[1..] == items;
  }

  lemma ListLinesRead(key: string, items: seq<string>)
    requires Key(key) && OneLine(key) && forall i :: 0 <= i < |items| ==> Tidy(items[i])
    ensures var ls := ListLines(key, items);
            && Block(ls, key) == Some((Head(items), ItemLines(items)))
            && AllOneLine(ls) && !IsItem(ls[0]) && DropBlock(ls, key, false) == []
  {
    ItemLinesRead(items, key);
    ListLinesShape(key, items);
    HeaderBlock(key + ":" + Head(items), ItemLines(items), key, Head(items));
    hide HasKey, IsItem, Key, ItemLines, ListLines, Block;
    assert ListLines(key, items)[1..] == ItemLines(items);
  }

  lemma NoKeyCons(head: string, rest: seq<string>, key: string)
    requires !HasKey(head, key) && NoKey(rest, key)
    ensures NoKey([head] + rest, key)
  {
    hide HasKey;
  }

  lemma ListLinesOther(key: string, items: seq<string>, other: string)
    requires Key(key) && Key(other) && other != key && forall i :: 0 <= i < |items| ==> Tidy(items[i])
    ensures NoKey(ListLines(key, items), other)
  {
    hide HasKey, IsItem, Key, Tidy, OneLine, ItemLines, ListLines, NoKey, ItemRun, DropBlock;
    ItemLinesShape(items, other);
    ListLinesShape(key, items);
    var head := key + ":" + Head(items);
    assert !HasKey(head, other) by {
      if HasKey(head, other) {
        OneKey(head, key, other);
      }
    }
    NoKeyCons(head, ItemLines(items), other);
  }

  // ---------------------------------------------------------------- list writers

  /** A recorded list is read as the `str` of what YAML makes of its items, whatever the file held
      before. */
  lemma ListReadsAs(ls: seq<string>, key: string, items: seq<string>)
    requires Key(key) && OneLine(key) && forall i :: 0 <= i < |items| ==> Tidy(items[i])
    ensures ReadList(RecordList(ls, key, items), key) == Some(AsRead(items))
  {
    ListLinesRead(key, items);
    ItemLinesRead(items, key);
    BlockAfter(DropBlock(ls, key, false), ListLines(key, items), key);
    BracketsStrip();
    hide HasKey, IsItem, DropBlock, ListLines, ItemLines, Strip, Block, ItemText;
  }

  /** A recorded list of plain scalars is read back exactly when none is a word that YAML takes for
      null or a truth value, and `str` spells otherwise. */
  lemma ListReadsBackIff(ls: seq<string>, key: string, items: seq<string>)
    requires Key(key) && OneLine(key) && forall i :: 0 <= i < |items| ==> Phrase(items[i])
    ensures ReadList(RecordList(ls, key, items), key) == Some(items) <==> forall i :: 0 <= i < |items| ==> !Changed(items[i])
  {
    hide Phrase, Tidy, ReadList, RecordList, Changed, Key, OneLine, ItemText;
    forall i | 0 <= i < |items| ensures Tidy(items[i]) && (ItemText(items[i]) == items[i] <==> !Changed(items[i])) {
      PhraseIsTidy(items[i]);
      ReadsAsItselfIff(items[i]);
    }
    ListReadsAs(ls, key, items);
    if AsRead(items) == items {
      assert forall i :: 0 <= i < |items| ==> AsRead(items)[i] == ItemText(items[i]);
    }
  }

  /** So a recorded list without such words is read back. */
  lemma ListReadsBack(ls: seq<string>, key: string, items: seq<string>)
    requires Key(key) && OneLine(key) && forall i :: 0 <= i < |items| ==> Plain(items[i])
    ensures ReadList(RecordList(ls, key, items), key) == Some(items)
  {
    hide Phrase, ReadList, RecordList, Changed, Key, OneLine;
    ListReadsBackIff(ls, key, items);
  }

  lemma {:induction false} FirstInkShift(c: char, s: string, i: nat)
    requires i <= |s|
    ensures FirstInk([c] + s, i + 1) == FirstInk(s, i) + 1
    decreases |s| - i
  {
    hide Space;
    assert i < |s| ==> ([c] + s)[i + 1] == s[i];
    if i < |s| && Space(s[i]) {
      FirstInkShift(c, s, i + 1);
    }
  }

  lemma {:induction false} InkEndShift(c: char, s: string, a: nat, i: nat)
    requires a <= i <= |s|
    ensures InkEnd([c] + s, a + 1, i + 1) == InkEnd(s, a, i) + 1
    decreases i
  {
    hide Space;
    assert i > 0 ==> ([c] + s)[i] == s[i - 1];
    if a < i && Space(s[i - 1]) {
      InkEndShift(c, s, a, i - 1);
    }
  }

  lemma BlankFirst(c: char, s: string)
    requires Space(c)
    ensures FirstInk([c] + s, 0) == FirstInk([c] + s, 1)
  {
    hide Space;
    assert ([c] + s)[0] == c;
  }

  lemma StripBlank(c: char, s: string)
    requires Space(c)
    ensures Strip([c] + s) == Strip(s)
  {
    hide Space, FirstInk, InkEnd;
    var t := [c] + s;
    BlankFirst(c, s);
    FirstInkShift(c, s, 0);
    var a := FirstInk(s, 0);
    InkEndShift(c, s, a, |s|);
    assert t[a + 1..InkEnd(s, a, |s|) + 1] == s[a..InkEnd(s, a, |s|)];
  }

  lemma BracketsStripped()
    ensures Stripped("[]") && Stripped("") && Space(' ') && [' '] + "[]" == " []"
  {
    var b := "[]";
    assert b[0] == '[' && b[1] == ']' && |b| == 2;
  }

  lemma BracketsStrip()
    ensures Strip(" []") == "[]" && Strip("") == ""
  {
    hide Strip, Stripped, Space;
    BracketsStripped();
    StripIsStripped("[]");
    StripIsStripped("");
    StripBlank(' ', "[]");
  }

  /** Recording a list changes no other field. */
  lemma ListFrame(ls: seq<string>, key: string, items: seq<string>, other: string)
    requires Key(key) && OneLine(key) && (forall i :: 0 <= i < |items| ==> Tidy(items[i])) && Key(other) && other != key
    ensures Block(RecordList(ls, key, items), other) == Block(ls, other)
  {
    ListLinesRead(key, items);
    ListLinesOther(key, items, other);
    DroppedFrame(ls, key, false, other);
    BlockBefore(DropBlock(ls, key, false), ListLines(key, items), other);
  }

  /** Recording the same list again changes nothing. */
  lemma ListTwice(ls: seq<string>, key: string, items: seq<string>)
    requires Key(key) && OneLine(key) && forall i :: 0 <= i < |items| ==> Tidy(items[i])
    ensures RecordList(RecordList(ls, key, items), key, items) == RecordList(ls, key, items)
  {
    ListLinesRead(key, items);
    DroppedHasNone(ls, key, false);
    DropTail(DropBlock(ls, key, false), ListLines(key, items), key);
  }

  // ---------------------------------------------------------------- text writers

  ghost predicate Keys(keys: seq<string>) {
    && (forall i :: 0 <= i < |keys| ==> Key(keys[i]) && OneLine(keys[i]))
    && (forall i, j :: 0 <= i < j < |keys| ==> keys[i] != keys[j])
  }

  /** No line of these keys heads a list: their values are single-line. */
  ghost predicate SingleLine(ls: seq<string>, keys: seq<string>) {
    forall i :: 0 <= i < |ls| - 1 && HasAnyKey(ls[i], keys) ==> !IsItem(ls[i + 1])
  }

  lemma {:induction false} DropLinesHasNone(ls: seq<string>, keys: seq<string>)
    ensures forall l :: l in DropLines(ls, keys) ==> l in ls && !HasAnyKey(l, keys)
  {
    hide HasAnyKey;
    if ls != [] {
      DropLinesHasNone(ls[1..], keys);
    }
  }

  lemma KeyLineIsNoItem(line: string, keys: seq<string>)
    requires Keys(keys) && HasAnyKey(line, keys)
    ensures !IsItem(line)
    ensures forall other :: Key(other) && other !in keys ==> !HasKey(line, other)
  {
    var i :| 0 <= i < |keys| && HasKey(line, keys[i]);
    HasKeyAt(line, keys[i]);
    hide HasKey, IsItem, Key;
    forall other | Key(other) && other !in keys ensures !HasKey(line, other) {
      if HasKey(line, other) {
        OneKey(line, keys[i], other);
      }
    }
  }

  lemma SingleLineTail(ls: seq<string>, keys: seq<string>)
    requires SingleLine(ls, keys) && ls != []
    ensures SingleLine(ls[1..], keys)
    ensures |ls| > 1 && HasAnyKey(ls[0], keys) ==> !IsItem(ls[1..][0])
  {
    hide HasAnyKey, IsItem;
    forall i | 0 <= i < |ls[1..]| - 1 && HasAnyKey(ls[1..][i], keys) ensures !IsItem(ls[1..][i + 1]) {
      assert ls[1..][i] == ls[i + 1] && ls[1..][i + 1] == ls[i + 1 + 1];
    }
  }

  lemma {:induction false} DropLinesRun(ls: seq<string>, keys: seq<string>)
    requires Keys(keys) && SingleLine(ls, keys)
    ensures ItemRun(DropLines(ls, keys)) == ItemRun(ls)
  {
    hide HasAnyKey, IsItem, Keys;
    if ls != [] {
      SingleLineTail(ls, keys);
      DropLinesRun(ls[1..], keys);
      if HasAnyKey(ls[0], keys) {
        KeyLineIsNoItem(ls[0], keys);
        assert DropLines(ls, keys) == DropLines(ls[1..], keys);
      } else {
        assert DropLines(ls, keys) == [ls[0]] + DropLines(ls[1..], keys);
        assert ([ls[0]] + DropLines(ls[1..], keys))[1..] == DropLines(ls[1..], keys);
      }
    }
  }

  lemma {:induction false} DropLinesFrame(ls: seq<string>, keys: seq<string>, other: string)
    requires Keys(keys) && SingleLine(ls, keys) && Key(other) && other !in keys
    ensures Block(DropLines(ls, keys), other) == Block(ls, other)
  {
    hide HasAnyKey, IsItem, Keys, HasKey, ItemRun;
    if ls != [] {
      SingleLineTail(ls, keys);
      DropLinesFrame(ls[1..], keys, other);
      if HasAnyKey(ls[0], keys) {
        KeyLineIsNoItem(ls[0], keys);
        assert DropLines(ls, keys) == DropLines(ls[1..], keys);
      } else {
        DropLinesRun(ls[1..], keys);
        assert DropLines(ls, keys) == [ls[0]] + DropLines(ls[1..], keys);
        assert ([ls[0]] + DropLines(ls[1..], keys))[1..] == DropLines(ls[1..], keys);
      }
    }
  }

  /** The lines written for `keys` are lines of those keys. */
  lemma {:induction false} TextLinesKeys(keys: seq<string>, values: map<string, string>)
    ensures forall l :: l in TextLines(keys, values) ==> HasAnyKey(l, keys)
  {
    hide HasKey, HasAnyKey;
    if keys != [] {
      var rest := keys[1..];
      TextLinesKeys(rest, values);
      forall l | l in TextLines(rest, values) ensures HasAnyKey(l, keys) { AnyOfMore(l, keys); }
      if keys[0] in values {
        TextLineKey(keys, values[keys[0]]);
      }
    }
  }

  /** So they are no items, and no lines of another key. */
  lemma KeyLinesAreNothingElse(ls: seq<string>, keys: seq<string>)
    requires Keys(keys) && forall l :: l in ls ==> HasAnyKey(l, keys)
    ensures forall l :: l in ls ==> !IsItem(l)
    ensures forall l, other :: l in ls && Key(other) && other !in keys ==> !HasKey(l, other)
  {
    hide HasKey, HasAnyKey, IsItem, Key, Keys;
    forall l | l in ls ensures !IsItem(l) && forall other :: Key(other) && other !in keys ==> !HasKey(l, other) {
      KeyLineIsNoItem(l, keys);
    }
  }

  lemma AnyOfMore(line: string, keys: seq<string>)
    requires keys != [] && HasAnyKey(line, keys[1..])
    ensures HasAnyKey(line, keys)
  {
    hide HasKey;
    var i :| 0 <= i < |keys[1..]| && HasKey(line, keys[1..][i]);
    assert keys[i + 1] == keys[1..][i];
  }

  lemma TextLineKey(keys: seq<string>, value: string)
    requires keys != []
    ensures var line := keys[0] + ": " + value;
            HasAnyKey(line, keys) && HasKey(line, keys[0]) && line[|keys[0]| + 1..] == " " + value
  {
    OwnKey(keys[0], " " + value);
    hide HasKey;
    assert keys[0] + ": " + value == keys[0] + ":" + (" " + value);
  }

  lemma KeysTail(keys: seq<string>)
    requires Keys(keys) && keys != []
    ensures Keys(keys[1..]) && keys[0] !in keys[1..] && Key(keys[0])
    ensures forall k :: k in keys <==> k == keys[0] || k in keys[1..]
  {
    hide Key, OneLine;
    var rest := keys[1..];
    assert forall i :: 0 <= i < |rest| ==> rest[i] == keys[i + 1];
  }

  /** What the appended lines say: a key's own value, and nothing for a key without one. */
  lemma {:induction false} TextLinesBlock(keys: seq<string>, values: map<string, string>, key: string)
    requires Keys(keys) && Key(key)
    ensures Block(TextLines(keys, values), key) ==
            (if key in keys && key in values then Some((" " + values[key], [])) else None)
  {
    hide HasKey, IsItem, Key, HasAnyKey, Keys, Block;
    if keys == [] {
      BlockNone([], key);
    } else {
      var rest := keys[1..];
      KeysTail(keys);
      TextLinesBlock(rest, values, key);
      TextsNoItems(rest, values);
      if keys[0] in values {
        var line := keys[0] + ": " + values[keys[0]];
        TextLineKey(keys, values[keys[0]]);
        BlockCons(line, TextLines(rest, values), key);
        assert TextLines(keys, values) == [line] + TextLines(rest, values);
        assert HasKey(line, key) <==> key == keys[0] by {
          if HasKey(line, key) {
            OneKey(line, keys[0], key);
          }
        }
      } else {
        assert TextLines(keys, values) == TextLines(rest, values);
      }
    }
  }

  lemma BlockCons(line: string, tail: seq<string>, key: string)
    requires tail == [] || !IsItem(tail[0])
    ensures Block([line] + tail, key) ==
            if Block(tail, key).Some? then Block(tail, key)
            else if HasKey(line, key) then Some((line[|key| + 1..], [])) else None
  {
    hide HasKey, IsItem;
    assert ([line] + tail)[1..] == tail;
  }

  lemma TextsNoItems(keys: seq<string>, values: map<string, string>)
    requires Keys(keys)
    ensures TextLines(keys, values) == [] || !IsItem(TextLines(keys, values)[0])
  {
    TextLinesKeys(keys, values);
    KeyLinesAreNothingElse(TextLines(keys, values), keys);
    hide IsItem, HasKey, HasAnyKey, TextLines;
  }

  /** After recording texts each key reads as its new value, or not at all when it has none;
      every other field is what it was. */
  lemma TextsBlock(ls: seq<string>, keys: seq<string>, values: map<string, string>, key: string)
    requires Keys(keys) && SingleLine(ls, keys) && Key(key)
    ensures Block(RecordTexts(ls, keys, values), key) ==
            (if key !in keys then Block(ls, key)
             else if key in values then Some((" " + values[key], [])) else None)
  {
    var kept, added := DropLines(ls, keys), TextLines(keys, values);
    TextLinesBlock(keys, values, key);
    TextsNoItems(keys, values);
    BlockNone(added, key);
    if Block(added, key).Some? {
      BlockAfter(kept, added, key);
    } else {
      BlockBefore(kept, added, key);
      if key in keys {
        DropLinesHasNone(ls, keys);
        KeptHasNone(kept, keys, key);
        BlockNone(kept, key);
      } else {
        DropLinesFrame(ls, keys, key);
      }
    }
  }

  lemma KeptHasNone(kept: seq<string>, keys: seq<string>, key: string)
    requires key in keys && forall l :: l in kept ==> !HasAnyKey(l, keys)
    ensures NoKey(kept, key)
  {
    hide HasKey;
    var i :| 0 <= i < |keys| && keys[i] == key;
    forall j | 0 <= j < |kept| ensures !HasKey(kept[j], key) {
      assert kept[j] in kept;
    }
  }

  /** Recording the same texts again changes nothing. */
  lemma TextsTwice(ls: seq<string>, keys: seq<string>, values: map<string, string>)
    requires Keys(keys)
    ensures RecordTexts(RecordTexts(ls, keys, values), keys, values) == RecordTexts(ls, keys, values)
  {
    DropLinesHasNone(ls, keys);
    TextLinesKeys(keys, values);
    hide HasAnyKey;
    DropLinesTail(DropLines(ls, keys), TextLines(keys, values), keys);
  }

  lemma {:induction false} DropLinesTail(a: seq<string>, b: seq<string>, keys: seq<string>)
    requires forall l :: l in a ==> !HasAnyKey(l, keys)
    requires forall l :: l in b ==> HasAnyKey(l, keys)
    ensures DropLines(a + b, keys) == a
    decreases |a| + |b|
  {
    hide HasAnyKey;
    if a != [] {
      assert (a + b)[0] == a[0] && (a + b)[1..] == a[1..] + b;
      DropLinesTail(a[1..], b, keys);
      assert [a[0]] + a[1..] == a;
    } else {
      assert a + b == b;
      if b != [] {
        DropLinesTail([], b[1..], keys);
        assert [] + b[1..] == b[1..];
      }
    }
  }
}

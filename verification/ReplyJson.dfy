/** Finding the JSON in a model's reply: bare, in a code fence, or among prose. */
module ReplyJson {
  import opened Lists
  import opened Text
  import opened Json
  import opened JsonValues

  const FENCE := "```"

  predicate Letter(c: char) {
    'a' <= c <= 'z' || 'A' <= c <= 'Z'
  }

  function DropLetters(s: string): string {
    if s != "" && Letter(s[0]) then DropLetters(s[1..]) else s
  }

  /** `str.rstrip("`")` */
  function DropTicks(s: string): string {
    if s != "" && s[|s| - 1] == '`' then DropTicks(s[..|s| - 1]) else s
  }

  /** `str.rstrip` */
  function StripEnd(s: string): string {
    s[..InkEnd(s, 0, |s|)]
  }

  /** Without the fence's first line and its closing ticks. */
  function Unfenced(t: string): string {
    if !Starts(t, FENCE) then t
    else
      var body := DropLetters(t[3..]);
      StripEnd(DropTicks(if body != "" && body[0] == LF then body[1..] else body))
  }

  /** The index after the last `c`; 0 when there is none. */
  function AfterLast(s: string, c: char): (j: nat)
    ensures j <= |s| && c !in s[j..] && (j > 0 ==> s[j - 1] == c)
  {
    if s == "" then 0
    else if s[|s| - 1] == c then |s|
    else
      var j := AfterLast(s[..|s| - 1], c);
      assert forall k :: j <= k < |s| ==> s[k] != c by {
        assert forall k :: j <= k < |s| - 1 ==> s[k] == s[..|s| - 1][j..][k - j];
      }
      j
  }

  /** The outermost span from the first `open` to the last `close`. */
  function Between(t: string, open: char, close: char): Option<string> {
    var i, j := Find(t, open), AfterLast(t, close);
    if i + 1 < j then Some(t[i..j]) else None
  }

  function Loaded(t: string): Option<Json> {
    var v := Loads(t);
    if v.Got? then Some(v.value) else None
  }

  /** `_extract_json`; None is the JSONDecodeError. */
  function ExtractJson(text: string): Option<Json> {
    var t := Unfenced(Strip(text));
    if Loaded(t).Some? then Loaded(t)
    else if Between(t, '{', '}').Some? then Loaded(Between(t, '{', '}').value)
    else if Between(t, '[', ']').Some? then Loaded(Between(t, '[', ']').value)
    else None
  }

  // ---------------------------------------------------------------- printed objects and arrays

  /** An object or an array, which prints between its brackets. */
  predicate Bracketed(v: Json) {
    v.Obj? || v.Arr?
  }

  predicate OpensAndCloses(p: string) {
    |p| >= 2 && ((p[0] == '{' && p[|p| - 1] == '}') || (p[0] == '[' && p[|p| - 1] == ']'))
  }

  lemma PrintedBrackets(v: Json, st: Style, l: nat)
    requires Bracketed(v)
    ensures OpensAndCloses(Print(v, st, l)) && (v.Obj? <==> Print(v, st, l)[0] == '{')
  {
    hide PrintItems, PrintFields;
  }

  lemma PrintedLoads(v: Json, st: Style, l: nat)
    requires StyleOk(st)
    ensures Loaded(Print(v, st, l)) == Some(v)
  {
    hide Print, Loads, StyleOk;
    LoadsOfPrintAt(v, st, l);
  }

  lemma BracketsAreInk()
    ensures forall c :: c in "{}[]" ==> !Space(c) && !Letter(c) && c != '`' && c != LF
  {
    assert "{}[]" == ['{', '}', '[', ']'];
  }

  /** Blanks around a bracketed text are stripped, and nothing of it. */
  lemma StripOver(a: string, p: string, b: string)
    requires AllSpace(a) && AllSpace(b) && OpensAndCloses(p)
    ensures Strip(a + p + b) == p
  {
    BracketsAreInk();
    StripOff(a, p, b);
    hide Strip;
  }

  lemma BracketsAreNoFence(p: string)
    requires OpensAndCloses(p)
    ensures Unfenced(p) == p
  {
    StartsAt(p, FENCE, 0);
    hide DropLetters, DropTicks, StripEnd;
  }

  /** A printed object or array reads back, whatever blanks are around it. */
  lemma BareReads(v: Json, st: Style, a: string, b: string)
    requires Bracketed(v) && StyleOk(st) && AllSpace(a) && AllSpace(b)
    ensures ExtractJson(a + Print(v, st, 0) + b) == Some(v)
  {
    PrintedBrackets(v, st, 0);
    PrintedLoads(v, st, 0);
    hide Print, Loaded, Strip, Unfenced, Between, StyleOk;
    StripOver(a, Print(v, st, 0), b);
    BracketsAreNoFence(Print(v, st, 0));
  }

  // ---------------------------------------------------------------- in a fence

  lemma {:induction false} DropLettersOver(a: string, b: string)
    requires (forall i :: 0 <= i < |a| ==> Letter(a[i])) && (b == "" || !Letter(b[0]))
    ensures DropLetters(a + b) == b
  {
    hide Letter;
    if a == "" {
      assert a + b == b;
    } else {
      assert (a + b)[0] == a[0] && (a + b)[1..] == a[1..] + b;
      DropLettersOver(a[1..], b);
    }
  }

  lemma ThreeTicks(s: string)
    requires s == "" || s[|s| - 1] != '`'
    ensures DropTicks(s + FENCE) == s
  {
    var f := s + FENCE;
    assert f == s + ['`', '`', '`'];
    assert f[..|f| - 1] == s + ['`', '`'] && (s + ['`', '`'])[..|s| + 1] == s + ['`'] && (s + ['`'])[..|s|] == s;
    assert DropTicks(s + ['`']) == DropTicks(s) == s;
    assert DropTicks(s + ['`', '`']) == s;
  }

  lemma FencedStrips(p: string, lang: string)
    requires OpensAndCloses(p) && forall i :: 0 <= i < |lang| ==> Letter(lang[i])
    ensures Unfenced(FENCE + lang + [LF] + p + [LF] + FENCE) == p
  {
    BracketsAreInk();
    var tail := [LF] + (p + [LF] + FENCE);
    var t := FENCE + lang + [LF] + p + [LF] + FENCE;
    assert t == FENCE + (lang + tail);
    assert t[..3] == FENCE && t[3..] == lang + tail;
    DropLettersOver(lang, tail);
    assert tail[0] == LF && tail[1..] == (p + [LF]) + FENCE;
    ThreeTicks(p + [LF]);
    LastBreakStrips(p);
    hide DropLetters, DropTicks, StripEnd;
  }

  lemma LastBreakStrips(p: string)
    requires OpensAndCloses(p)
    ensures StripEnd(p + [LF]) == p
  {
    BracketsAreInk();
    hide Space, InkEnd;
    var q := p + [LF];
    assert q[|p| - 1] == p[|p| - 1];
    assert Space(LF) by { LfIsSpace(); }
    InkEndOver(q, 0, |q|, |p|);
    assert q[..|p|] == p;
  }

  lemma LfIsSpace()
    ensures Space(LF)
  {
  }

  lemma FenceIsInk(s: string)
    requires |s| >= 6 && s[..3] == FENCE && s[|s| - 3..] == FENCE
    ensures Strip(s) == s
  {
    assert s[0] == s[..3][0] == '`' && s[|s| - 1] == s[|s| - 3..][2] == '`';
    StripIsStripped(s);
    hide Strip;
  }

  /** A printed object or array in a code fence, with or without a language, reads back. */
  lemma FencedReads(v: Json, st: Style, lang: string)
    requires Bracketed(v) && StyleOk(st) && forall i :: 0 <= i < |lang| ==> Letter(lang[i])
    ensures ExtractJson(FENCE + lang + [LF] + Print(v, st, 0) + [LF] + FENCE) == Some(v)
  {
    PrintedBrackets(v, st, 0);
    PrintedLoads(v, st, 0);
    hide Print, Loaded, Strip, Unfenced, Between, StyleOk, Letter;
    var p := Print(v, st, 0);
    var s := FENCE + lang + [LF] + p + [LF] + FENCE;
    assert s[..3] == FENCE && s[|s| - 3..] == FENCE;
    FenceIsInk(s);
    FencedStrips(p, lang);
  }

  // ---------------------------------------------------------------- among prose

  lemma {:induction false} AfterLastIs(s: string, c: char, n: nat)
    requires 0 < n <= |s| && s[n - 1] == c && forall k :: n <= k < |s| ==> s[k] != c
    ensures AfterLast(s, c) == n
  {
    if n < |s| {
      AfterLastIs(s[..|s| - 1], c, n);
    }
  }

  lemma AfterLastIn(a: string, c: char, b: string)
    requires c !in b
    ensures AfterLast(a + [c] + b, c) == |a| + 1
  {
    var s := a + [c] + b;
    hide AfterLast;
    assert s[|a|] == c && s[|a| + 1..] == b;
    forall k | |a| + 1 <= k < |s|
      ensures s[k] != c
    {
      assert s[|a| + 1..][k - |a| - 1] == s[k];
    }
    AfterLastIs(s, c, |a| + 1);
  }

  /** The brackets of a text between prose without them are the outermost. */
  lemma BracketsFound(a: string, p: string, b: string, open: char, close: char)
    requires |p| >= 2 && p[0] == open && p[|p| - 1] == close && open !in a && close !in b
    ensures Between(a + p + b, open, close) == Some(p)
  {
    var t := a + p + b;
    assert t == a + [open] + (p[1..] + b);
    FindIn(a, open, p[1..] + b);
    assert t == (a + p[..|p| - 1]) + [close] + b;
    AfterLastIn(a + p[..|p| - 1], close, b);
    hide Find, AfterLast;
    assert t[|a|..|a| + |p|] == p;
  }

  /** Stripping a reply takes nothing of the object in it. */
  lemma StripAround(a: string, p: string, b: string)
    requires OpensAndCloses(p)
    ensures exists a', b' :: Strip(a + p + b) == a' + p + b' && (forall c :: c in a' ==> c in a) && (forall c :: c in b' ==> c in b)
  {
    BracketsAreInk();
    hide Space, InkEnd, FirstInk;
    var s := a + p + b;
    assert s[|a|] == p[0] && s[|a| + |p| - 1] == p[|p| - 1];
    InkStarts(s, 0, |a|);
    var i := FirstInk(s, 0);
    InkStops(s, i, |s|, |a| + |p|);
    var e := InkEnd(s, i, |s|);
    var a', b' := a[i..], b[..e - |a| - |p|];
    assert Strip(s) == s[i..e];
    assert s[i..e] == a' + p + b';
  }

  lemma {:induction false} InkStarts(s: string, i: nat, n: nat)
    requires i <= n < |s| && !Space(s[n])
    ensures FirstInk(s, i) <= n
    decreases n - i
  {
    hide Space;
    if i < n && Space(s[i]) {
      InkStarts(s, i + 1, n);
    }
  }

  lemma {:induction false} InkStops(s: string, a: nat, i: nat, n: nat)
    requires a < n <= i <= |s| && !Space(s[n - 1])
    ensures InkEnd(s, a, i) >= n
    decreases i
  {
    hide Space;
    if i > n && Space(s[i - 1]) {
      InkStops(s, a, i - 1, n);
    }
  }

  /** The reply as a whole is no JSON, and no fence. */
  predicate Prose(reply: string) {
    !Starts(Strip(reply), FENCE) && Loaded(Strip(reply)).None?
  }

  lemma ProseReadsAt(v: Json, st: Style, l: nat, a: string, b: string)
    requires v.Obj? && StyleOk(st) && '{' !in a && '}' !in b && Prose(a + Print(v, st, l) + b)
    ensures ExtractJson(a + Print(v, st, l) + b) == Some(v)
  {
    PrintedBrackets(v, st, l);
    PrintedLoads(v, st, l);
    hide Print, Loaded, Strip, Between, StyleOk;
    var p := Print(v, st, l);
    StripAround(a, p, b);
    var a', b' :| Strip(a + p + b) == a' + p + b' && (forall c :: c in a' ==> c in a) && (forall c :: c in b' ==> c in b);
    BracketsFound(a', p, b', '{', '}');
  }

  /** An object among prose reads back: no `{` before it and no `}` after it. */
  lemma ProseReads(v: Json, st: Style, a: string, b: string)
    requires v.Obj? && StyleOk(st) && '{' !in a && '}' !in b && Prose(a + Print(v, st, 0) + b)
    ensures ExtractJson(a + Print(v, st, 0) + b) == Some(v)
  {
    ProseReadsAt(v, st, 0, a, b);
  }

  /** So does an array, when no pair of braces is there: no `[` before it and no `]` after it. */
  lemma ListReads(v: Json, st: Style, a: string, b: string)
    requires v.Arr? && StyleOk(st) && '[' !in a && ']' !in b && Prose(a + Print(v, st, 0) + b)
    requires Between(Strip(a + Print(v, st, 0) + b), '{', '}').None?
    ensures ExtractJson(a + Print(v, st, 0) + b) == Some(v)
  {
    PrintedBrackets(v, st, 0);
    PrintedLoads(v, st, 0);
    hide Print, Loaded, Strip, Between, StyleOk;
    var p := Print(v, st, 0);
    StripAround(a, p, b);
    var a', b' :| Strip(a + p + b) == a' + p + b' && (forall c :: c in a' ==> c in a) && (forall c :: c in b' ==> c in b);
    BracketsFound(a', p, b', '[', ']');
  }

  lemma BlankHasNoBrace(s: string)
    requires AllBlank(s)
    ensures '{' !in s && '}' !in s
  {
  }

  lemma ListOfOnePrinted(o: Json, st: Style)
    ensures Print(Arr([o]), st, 0) == ("[" + st.open(0)) + Print(o, st, 1) + (st.close(0) + "]")
  {
    assert PrintItems([o], st, 0) == Print(o, st, 1);
    hide Print;
  }

  /** But a list of one object among prose is taken for the object in it. */
  lemma ListOfOneIsUnwrapped(o: Json, st: Style, a: string, b: string)
    requires o.Obj? && StyleOk(st) && '{' !in a && '}' !in b && Prose(a + Print(Arr([o]), st, 0) + b)
    ensures ExtractJson(a + Print(Arr([o]), st, 0) + b) == Some(o)
  {
    ListOfOnePrinted(o, st);
    BlankHasNoBrace(st.open(0));
    BlankHasNoBrace(st.close(0));
    hide Print, Prose, ExtractJson;
    var before, after := a + ("[" + st.open(0)), (st.close(0) + "]") + b;
    assert a + Print(Arr([o]), st, 0) + b == before + Print(o, st, 1) + after;
    ProseReadsAt(o, st, 1, before, after);
  }
}

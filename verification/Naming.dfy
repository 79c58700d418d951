/** Stack names: the DNS label of a worktree's instance, and the tier-3 namespace of the
    transient test stacks. `lower` stands for `str.lower`, which is not modelled. */
module Naming {
  import opened Lists
  import opened Text

  predicate Alphanumeric(c: char) {
    'a' <= c <= 'z' || '0' <= c <= '9'
  }

  predicate Hex(c: char) {
    '0' <= c <= '9' || 'a' <= c <= 'f'
  }

  /** `[0-9a-f]+` */
  predicate HexDigits(s: string) {
    s != "" && forall i :: 0 <= i < |s| ==> Hex(s[i])
  }

  /** `re.sub("[^a-z0-9]+", "-", s)`; `inRun` says that the run's dash is already out. */
  function Dashed(s: string, inRun: bool): string {
    if s == "" then ""
    else if Alphanumeric(s[0]) then [s[0]] + Dashed(s[1..], false)
    else (if inRun then "" else "-") + Dashed(s[1..], true)
  }

  function TrimLeft(s: string): (r: string)
    ensures r == "" || r[0] != '-'
    ensures |r| <= |s| && r == s[|s| - |r|..]
    ensures s != "" && s[0] != '-' ==> r == s
  {
    if s != "" && s[0] == '-' then TrimLeft(s[1..]) else s
  }

  function TrimRight(s: string): (r: string)
    ensures r == "" || r[|r| - 1] != '-'
    ensures |r| <= |s| && r == s[..|r|]
    ensures s != "" && s[|s| - 1] != '-' ==> r == s
  {
    if s != "" && s[|s| - 1] == '-' then TrimRight(s[..|s| - 1]) else s
  }

  /** `sanitize_instance`; None is the ValueError for a name with nothing left. */
  function Sanitize(lower: string -> string, raw: string): Option<string> {
    var tag := TrimRight(TrimLeft(Dashed(lower(raw), false)));
    if tag == "" then None else Some(tag)
  }

  /** A label: letters and digits, single dashes only between them. */
  ghost predicate Label(s: string) {
    && s != ""
    && (forall i :: 0 <= i < |s| ==> Alphanumeric(s[i]) || s[i] == '-')
    && s[0] != '-' && s[|s| - 1] != '-'
    && (forall i :: 0 <= i < |s| - 1 ==> s[i] != '-' || s[i + 1] != '-')
  }

  ghost predicate SingleDashes(s: string) {
    && (forall i :: 0 <= i < |s| ==> Alphanumeric(s[i]) || s[i] == '-')
    && (forall i :: 0 <= i < |s| - 1 ==> s[i] != '-' || s[i + 1] != '-')
  }

  lemma {:induction false} DashedShape(s: string, inRun: bool)
    ensures SingleDashes(Dashed(s, inRun))
    ensures inRun ==> Dashed(s, inRun) == "" || Dashed(s, inRun)[0] != '-'
  {
    if s != "" {
      var rest := Dashed(s[1..], !Alphanumeric(s[0]));
      DashedShape(s[1..], !Alphanumeric(s[0]));
      assert forall i :: 0 <= i < |rest| - 1 ==> rest[i] != '-' || rest[i + 1] != '-';
    }
  }

  lemma {:induction false} DashedOfLabel(s: string, inRun: bool)
    requires SingleDashes(s) && (inRun && s != "" ==> s[0] != '-')
    ensures Dashed(s, inRun) == s
  {
    if s != "" {
      var rest := s[1..];
      assert forall i {:trigger rest[i]} :: 0 <= i < |rest| ==> rest[i] == s[i + 1];
      assert rest != "" ==> rest[0] == s[1];
      DashedOfLabel(rest, !Alphanumeric(s[0]));
      assert s == [s[0]] + rest;
    }
  }

  lemma SliceShape(d: string, a: nat, b: nat)
    requires a <= b <= |d| && SingleDashes(d)
    ensures SingleDashes(d[a..b])
  {
    var r := d[a..b];
    assert forall i {:trigger r[i]} :: 0 <= i < |r| ==> r[i] == d[a + i];
  }

  lemma TrimmedShape(d: string)
    requires SingleDashes(d)
    ensures var r := TrimRight(TrimLeft(d));
            r != "" ==> Label(r)
  {
    hide TrimLeft, TrimRight, SingleDashes, Label;
    TrimmedParts(d, TrimLeft(d), TrimRight(TrimLeft(d)));
  }

  lemma TrimmedParts(d: string, l: string, r: string)
    requires SingleDashes(d) && |r| <= |l| <= |d| && l == d[|d| - |l|..] && r == l[..|r|]
    requires (l == "" || l[0] != '-') && (r == "" || r[|r| - 1] != '-')
    ensures r != "" ==> Label(r)
  {
    SliceShape(d, |d| - |l|, |d|);
    assert d[|d| - |l|..|d|] == l && l[0..|r|] == r;
    SliceShape(l, 0, |r|);
    hide SingleDashes, Label;
    if r != "" {
      ShapedLabel(r);
    }
  }

  lemma ShapedLabel(r: string)
    requires SingleDashes(r) && r != "" && r[0] != '-' && r[|r| - 1] != '-'
    ensures Label(r)
  {
  }

  lemma LabelNotEmpty(d: string)
    requires Label(d)
    ensures d != ""
  {
  }

  lemma LabelKept(d: string)
    requires Label(d)
    ensures SingleDashes(d) && TrimRight(TrimLeft(d)) == d
  {
    hide TrimLeft, TrimRight;
  }

  /** Whatever the branch is called, a sanitised instance is a label, and a label is left as
      it is: sanitising is a projection onto the labels. */
  lemma SanitizedIsLabel(lower: string -> string, raw: string)
    ensures Sanitize(lower, raw).Some? ==> Label(Sanitize(lower, raw).value)
    ensures Label(lower(raw)) ==> Sanitize(lower, raw) == Some(lower(raw))
  {
    hide TrimLeft, TrimRight, Dashed, Label, SingleDashes;
    DashedShape(lower(raw), false);
    TrimmedShape(Dashed(lower(raw), false));
    if Label(lower(raw)) {
      LabelKept(lower(raw));
      DashedOfLabel(lower(raw), false);
      LabelNotEmpty(lower(raw));
    }
  }

  // ---------------------------------------------------------------- words and separators

  predicate Word(s: string) {
    s != "" && forall i :: 0 <= i < |s| ==> 'a' <= s[i] <= 'z' || '0' <= s[i] <= '9'
  }

  predicate Separator(s: string) {
    forall i :: 0 <= i < |s| ==> !('a' <= s[i] <= 'z' || '0' <= s[i] <= '9')
  }

  /** Separators around the words, and one between any two of them that is not empty. */
  ghost predicate Spells(words: seq<string>, seps: seq<string>) {
    && |seps| == |words| + 1
    && (forall i :: 0 <= i < |words| ==> Word(words[i]))
    && (forall i :: 0 <= i < |seps| ==> Separator(seps[i]))
    && (forall i :: 0 < i < |words| ==> seps[i] != "")
  }

  function Spelling(words: seq<string>, seps: seq<string>): string
    requires |seps| == |words| + 1
  {
    if words == [] then seps[0] else seps[0] + (words[0] + Spelling(words[1..], seps[1..]))
  }

  function DashJoin(words: seq<string>): string {
    if words == [] then "" else if |words| == 1 then words[0] else words[0] + "-" + DashJoin(words[1..])
  }

  lemma {:induction false} DashedSeparator(sep: string, rest: string, inRun: bool)
    requires Separator(sep)
    ensures Dashed(sep + rest, inRun) ==
            if sep == "" then Dashed(rest, inRun) else (if inRun then "" else "-") + Dashed(rest, true)
  {
    if sep == "" {
      assert sep + rest == rest;
    } else {
      assert (sep + rest)[0] == sep[0] && (sep + rest)[1..] == sep[1..] + rest;
      DashedSeparator(sep[1..], rest, true);
    }
  }

  lemma {:induction false} DashedWord(word: string, rest: string, inRun: bool)
    requires Word(word)
    ensures Dashed(word + rest, inRun) == word + Dashed(rest, false)
  {
    assert (word + rest)[0] == word[0] && (word + rest)[1..] == word[1..] + rest;
    if |word| == 1 {
      assert word[1..] + rest == rest;
    } else {
      DashedWord(word[1..], rest, false);
      assert word + Dashed(rest, false) == [word[0]] + (word[1..] + Dashed(rest, false));
    }
  }

  function DashFor(sep: string): string {
    if sep == "" then "" else "-"
  }

  lemma RestSpells(words: seq<string>, seps: seq<string>)
    requires Spells(words, seps) && words != []
    ensures Word(words[0]) && Separator(seps[0])
    ensures |words| > 1 ==> Spells(words[1..], seps[1..]) && seps[1] != ""
    ensures |words| == 1 ==> Separator(seps[1])
  {
    hide Word, Separator;
    assert forall i :: 0 <= i < |words[1..]| ==> words[1..][i] == words[i + 1];
    assert forall i :: 0 <= i < |seps[1..]| ==> seps[1..][i] == seps[i + 1];
  }

  lemma DashedFirst(sep: string, word: string, rest: string)
    requires Separator(sep) && Word(word)
    ensures Dashed(sep + (word + rest), false) == DashFor(sep) + (word + Dashed(rest, false))
  {
    DashedSeparator(sep, word + rest, false);
    DashedWord(word, rest, false);
    DashedWord(word, rest, true);
    hide Dashed, Word, Separator;
    assert "" + (word + Dashed(rest, false)) == word + Dashed(rest, false);
  }

  lemma JoinStep(lead: string, word: string, rest: string, trail: string)
    ensures lead + (word + ("-" + rest + trail)) == lead + (word + "-" + rest) + trail
    ensures lead + (word + trail) == lead + word + trail
  {
  }

  lemma {:induction false} DashedSpelling(words: seq<string>, seps: seq<string>)
    requires Spells(words, seps) && words != []
    ensures Dashed(Spelling(words, seps), false) == DashFor(seps[0]) + DashJoin(words) + DashFor(seps[|words|])
  {
    RestSpells(words, seps);
    hide Dashed, Separator, Word, Spells;
    var rest := Spelling(words[1..], seps[1..]);
    DashedFirst(seps[0], words[0], rest);
    JoinStep(DashFor(seps[0]), words[0], DashJoin(words[1..]), DashFor(seps[|words|]));
    if |words| == 1 {
      DashedAlone(seps[1]);
    } else {
      DashedSpelling(words[1..], seps[1..]);
      assert seps[1..][0] == seps[1] && seps[1..][|words| - 1] == seps[|words|];
    }
  }

  lemma DashedAlone(sep: string)
    requires Separator(sep)
    ensures Dashed(sep, false) == DashFor(sep)
  {
    DashedSeparator(sep, "", false);
    assert sep + "" == sep;
    assert Dashed("", true) == "" && Dashed("", false) == "";
    hide Dashed;
  }

  lemma {:induction false} DashJoinEnds(words: seq<string>)
    requires words != [] && forall i :: 0 <= i < |words| ==> Word(words[i])
    ensures var j := DashJoin(words); j != "" && j[0] != '-' && j[|j| - 1] != '-'
  {
    var last := words[|words| - 1];
    assert Alphanumeric(last[|last| - 1]);
    if |words| > 1 {
      assert forall i :: 0 <= i < |words[1..]| ==> words[1..][i] == words[i + 1];
      DashJoinEnds(words[1..]);
      var rest := DashJoin(words[1..]);
      assert DashJoin(words) == words[0] + "-" + rest;
      assert DashJoin(words)[|DashJoin(words)| - 1] == rest[|rest| - 1];
    }
  }

  lemma TrimmedJoin(lead: string, j: string, trail: string)
    requires j != "" && j[0] != '-' && j[|j| - 1] != '-' && (lead == "" || lead == "-") && (trail == "" || trail == "-")
    ensures TrimRight(TrimLeft(lead + j + trail)) == j
  {
    hide TrimLeft, TrimRight;
    assert (j + trail)[0] == j[0];
    TrimLeftOver(lead, j + trail);
    TrimRightOver(j, trail);
    assert lead + j + trail == lead + (j + trail);
  }

  lemma TrimLeftOver(lead: string, s: string)
    requires s != "" && s[0] != '-' && (lead == "" || lead == "-")
    ensures TrimLeft(lead + s) == s
  {
    if lead == "-" {
      assert (lead + s)[1..] == s;
    } else {
      assert lead + s == s;
    }
  }

  lemma TrimRightOver(s: string, trail: string)
    requires s != "" && s[|s| - 1] != '-' && (trail == "" || trail == "-")
    ensures TrimRight(s + trail) == s
  {
    if trail == "-" {
      assert (s + trail)[..|s|] == s;
    } else {
      assert s + trail == s;
    }
  }

  /** Sanitising keeps the words of the lowered text and joins them by single dashes, whatever
      stands between and around them. */
  lemma WordsAreJoined(lower: string -> string, raw: string, words: seq<string>, seps: seq<string>)
    requires Spells(words, seps) && lower(raw) == Spelling(words, seps)
    ensures Sanitize(lower, raw) == if words == [] then None else Some(DashJoin(words))
  {
    if words == [] {
      DashedAlone(seps[0]);
      assert TrimLeft("-") == TrimLeft("") == "";
    } else {
      DashedSpelling(words, seps);
      DashJoinEnds(words);
      TrimmedJoin(DashFor(seps[0]), DashJoin(words), DashFor(seps[|words|]));
    }
  }

  lemma {:induction false} Decompose(s: string) returns (words: seq<string>, seps: seq<string>)
    ensures Spells(words, seps) && Spelling(words, seps) == s
    ensures words == [] <==> Separator(s)
  {
    if s == "" {
      words, seps := [], [""];
    } else {
      var ws, ss := Decompose(s[1..]);
      assert s == [s[0]] + s[1..];
      words, seps := Prepended(s[0], ws, ss);
    }
  }

  lemma WiderSeparator(c: char, ws: seq<string>, ss: seq<string>)
    requires Spells(ws, ss) && !Alphanumeric(c)
    ensures var seps := [[c] + ss[0]] + ss[1..];
            Spells(ws, seps) && Spelling(ws, seps) == [c] + Spelling(ws, ss)
  {
    var seps := [[c] + ss[0]] + ss[1..];
    assert seps[1..] == ss[1..];
    assert forall i :: 0 < i < |ss| ==> seps[i] == ss[i];
    hide Word;
  }

  lemma LongerWord(c: char, ws: seq<string>, ss: seq<string>)
    requires Spells(ws, ss) && Alphanumeric(c) && ws != [] && ss[0] == ""
    ensures var words := [[c] + ws[0]] + ws[1..];
            Spells(words, ss) && Spelling(words, ss) == [c] + Spelling(ws, ss)
  {
    var words := [[c] + ws[0]] + ws[1..];
    assert words[1..] == ws[1..];
    assert forall i :: 0 < i < |ws| ==> words[i] == ws[i];
    hide Separator;
    var rest := Spelling(ws[1..], ss[1..]);
    assert Spelling(words, ss) == "" + (([c] + ws[0]) + rest);
    assert Spelling(ws, ss) == "" + (ws[0] + rest);
  }

  lemma NewWord(c: char, ws: seq<string>, ss: seq<string>)
    requires Spells(ws, ss) && Alphanumeric(c) && (ws != [] ==> ss[0] != "")
    ensures var words, seps := [[c]] + ws, [""] + ss;
            Spells(words, seps) && Spelling(words, seps) == [c] + Spelling(ws, ss)
  {
    var words, seps := [[c]] + ws, [""] + ss;
    assert words[1..] == ws && seps[1..] == ss;
    assert forall i :: 0 < i < |words| ==> words[i] == ws[i - 1];
    assert forall i :: 0 < i < |seps| ==> seps[i] == ss[i - 1];
    assert Word([c]) && Separator("");
    hide Word, Separator;
  }

  /** One more character in front joins the first separator, or the first word, or starts a word. */
  lemma Prepended(c: char, ws: seq<string>, ss: seq<string>) returns (words: seq<string>, seps: seq<string>)
    requires Spells(ws, ss)
    ensures Spells(words, seps) && Spelling(words, seps) == [c] + Spelling(ws, ss)
    ensures words == [] <==> ws == [] && !Alphanumeric(c)
  {
    if !Alphanumeric(c) {
      WiderSeparator(c, ws, ss);
      words, seps := ws, [[c] + ss[0]] + ss[1..];
    } else if ws != [] && ss[0] == "" {
      LongerWord(c, ws, ss);
      words, seps := [[c] + ws[0]] + ws[1..], ss;
    } else {
      NewWord(c, ws, ss);
      words, seps := [[c]] + ws, [""] + ss;
    }
    hide Spells, Spelling;
  }

  /** Every text is of that form: sanitising fails exactly when it has no letter and no digit, and
      otherwise gives its words joined by dashes. */
  lemma SanitizeMeans(lower: string -> string, raw: string)
    ensures Sanitize(lower, raw).None? <==> Separator(lower(raw))
    ensures Sanitize(lower, raw).Some? ==>
              exists words, seps :: Spells(words, seps) && lower(raw) == Spelling(words, seps) && Sanitize(lower, raw) == Some(DashJoin(words))
  {
    var words, seps := Decompose(lower(raw));
    WordsAreJoined(lower, raw, words, seps);
    hide Sanitize, Spelling, DashJoin;
  }

  // ---------------------------------------------------------------- tiers

  const MARKER: string := "-t-"

  datatype Built = Instance(name: string) | Empty | Reserved

  /** `build_stack_instance` */
  function Build(lower: string -> string, slug: string, branch: string): Built {
    var inst := Sanitize(lower, branch);
    if inst.None? then Empty
    else if Contains(inst.value, MARKER) then Reserved
    else Instance(slug + "-" + inst.value)
  }

  /** A built name is the slug and the sanitised branch, unless nothing is left of the branch or
      what is left holds the marker of the test stacks. */
  lemma BuildMeans(lower: string -> string, slug: string, branch: string)
    ensures Build(lower, slug, branch) == Empty <==> Sanitize(lower, branch).None?
    ensures forall tag :: Sanitize(lower, branch) == Some(tag) ==>
              && (Build(lower, slug, branch) == Reserved <==> exists a, b :: tag == a + "-t-" + b)
              && (Build(lower, slug, branch) == Instance(slug + "-" + tag) <==> !exists a, b :: tag == a + "-t-" + b)
  {
    if Sanitize(lower, branch).Some? {
      ContainsIff(Sanitize(lower, branch).value, MARKER);
    }
    hide Sanitize, Contains;
  }

  function Tier3(slug: string, inst: string, uuid: string): string {
    slug + "-" + inst + MARKER + uuid
  }

  /** The exact-instance pattern of the finish-sweep. */
  ghost predicate Tier3Of(slug: string, inst: string, name: string) {
    exists uuid :: HexDigits(uuid) && name == Tier3(slug, inst, uuid)
  }

  /** The instance-agnostic pattern of the start-sweep. */
  ghost predicate Tier3Any(slug: string, name: string) {
    exists inst :: HexDigits(inst) && Tier3Of(slug, inst, name)
  }

  lemma MarkerInside(a: string, b: string)
    ensures Contains(a + MARKER + b, MARKER)
  {
    assert At(a + MARKER + b, MARKER, |a|);
  }

  /** For one slug, no durable stack name is in the test namespace: neither sweep can match it. */
  lemma TiersDisjoint(lower: string -> string, slug: string, branch: string)
    ensures Build(lower, slug, branch).Instance? ==> !Tier3Any(slug, Build(lower, slug, branch).name)
    ensures Build(lower, slug, branch).Instance? ==>
              forall inst :: !Tier3Of(slug, inst, Build(lower, slug, branch).name)
  {
    if Build(lower, slug, branch).Instance? {
      var tag := Sanitize(lower, branch).value;
      forall inst, uuid ensures slug + "-" + tag != Tier3(slug, inst, uuid) {
        var tail := inst + MARKER + uuid;
        assert Tier3(slug, inst, uuid) == slug + "-" + tail;
        MarkerInside(inst, uuid);
        if slug + "-" + tag == slug + "-" + tail {
          SameTail(slug + "-", tag, tail);
        }
      }
    }
  }

  lemma SameTail(head: string, a: string, b: string)
    requires head + a == head + b
    ensures a == b
  {
    assert a == (head + a)[|head|..] && b == (head + b)[|head|..];
  }

  lemma SameSplit(a: string, b: string, x: string, y: string, c: char)
    requires a + [c] + x == b + [c] + y && c !in a && c !in b
    ensures a == b && x == y
  {
    var s, t := a + [c] + x, b + [c] + y;
    assert s[|a|] == c && t[|b|] == c;
    assert forall i :: 0 <= i < |a| ==> s[i] == a[i] && s[i] in a;
    assert forall i :: 0 <= i < |b| ==> t[i] == b[i] && t[i] in b;
    assert |a| == |b|;
    assert a == s[..|a|] && b == t[..|b|];
    assert x == s[|a| + 1..] && y == t[|b| + 1..];
  }

  lemma HexHasNoDash(s: string)
    requires HexDigits(s)
    ensures '-' !in s
  {
  }

  /** A test-stack name decomposes in one way only: a worktree's exact pattern matches no
      stack of another instance. */
  lemma Tier3Decomposes(slug: string, inst: string, uuid: string, inst': string, uuid': string)
    requires HexDigits(inst) && HexDigits(inst') && Tier3(slug, inst, uuid) == Tier3(slug, inst', uuid')
    ensures inst == inst' && uuid == uuid'
  {
    HexHasNoDash(inst);
    HexHasNoDash(inst');
    assert Tier3(slug, inst, uuid) == slug + "-" + (inst + ['-'] + ("t-" + uuid));
    assert Tier3(slug, inst', uuid') == slug + "-" + (inst' + ['-'] + ("t-" + uuid'));
    SameTail(slug + "-", inst + ['-'] + ("t-" + uuid), inst' + ['-'] + ("t-" + uuid'));
    SameSplit(inst, inst', "t-" + uuid, "t-" + uuid', '-');
    SameTail("t-", uuid, uuid');
  }
}

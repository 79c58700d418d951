/** What a merge and a release of `.env` mean for whoever reads the file afterwards. */
module EnvLaws {
  import opened Lists
  import opened Text
  import opened EnvFile

  function Get(m: Env, key: string): Option<string> {
    if key in m then Some(m[key]) else None
  }

  /** How many real assignments of `key` there are. */
  function Count(ls: seq<string>, key: string): nat {
    if ls == [] then 0 else (if Assigns(ls[0], key) then 1 else 0) + Count(ls[1..], key)
  }

  /** The value the last real assignment of `key` gives. */
  function LastValue(ls: seq<string>, key: string): Option<string> {
    if ls == [] then None
    else
      var rest := LastValue(ls[1..], key);
      if rest.Some? then rest
      else if Assigns(ls[0], key) then Some(Assignment(ls[0]).value.1) else None
  }

  // ---------------------------------------------------------------- reading

  lemma {:induction false} ParseAppend(a: seq<string>, b: seq<string>)
    ensures ParseLines(a + b) == ParseLines(a) + ParseLines(b)
  {
    hide Assignment;
    if b == [] {
      assert a + b == a;
    } else {
      var last := |b| - 1;
      ParseAppend(a, b[..last]);
      assert (a + b)[..|a + b| - 1] == a + b[..last];
    }
  }

  lemma ParseOne(line: string)
    ensures ParseLines([line]) ==
            (if Assignment(line).Some? then map[Assignment(line).value.0 := Assignment(line).value.1] else map[])
  {
    hide Assignment;
    assert [line][..0] == [];
  }

  lemma ParseCons(line: string, ls: seq<string>, key: string)
    ensures Get(ParseLines([line] + ls), key) ==
            (if key in ParseLines(ls) then Some(ParseLines(ls)[key])
             else if Assigns(line, key) then Some(Assignment(line).value.1) else None)
  {
    ParseAppend([line], ls);
    ParseOne(line);
    hide Assignment, ParseLines;
  }

  /** `parse_env` gives each key its last real assignment, and no other key. */
  lemma {:induction false} ParseIsLastValue(ls: seq<string>, key: string)
    ensures Get(ParseLines(ls), key) == LastValue(ls, key)
    ensures key in ParseLines(ls) <==> Count(ls, key) > 0
  {
    hide Assignment;
    if ls != [] {
      ParseIsLastValue(ls[1..], key);
      assert [ls[0]] + ls[1..] == ls;
      ParseCons(ls[0], ls[1..], key);
    }
  }

  /** A blank line at the end, or a lost one, changes nothing that is read. */
  lemma ParseRewritten(original: string, ls: seq<string>)
    requires AllOneLine(ls)
    ensures Parse(Rewritten(original, ls)) == ParseLines(ls)
  {
    hide Assignment, Lines, Join, EndsWithLF;
    BlankAssignsNothing();
    if original == "" || EndsWithLF(original) {
      if ls == [] {
        LinesOfEmpty();
        ParseOne("");
      } else {
        LinesOfJoinLF(ls);
      }
    } else {
      LinesOfJoin(ls);
      assert Join(ls) + "" == Join(ls);
      if ls != [] && ls[|ls| - 1] == "" {
        assert ParseLines(ls) == ParseLines(ls[..|ls| - 1]);
      }
    }
  }

  lemma BlankAssignsNothing()
    ensures Assignment("").None?
  {
  }

  lemma LinesOfEmpty()
    ensures Join([]) == "" && Lines([LF]) == [""] && "" + [LF] == [LF]
    ensures Lines("") == []
  {
    LinesCons("", "");
    assert "" + [LF] + "" == [LF];
  }

  // ---------------------------------------------------------------- what a line says

  /** A key and a value, with the blanks around them. */
  ghost predicate Parted(line: string, a: string, key: string, b: string, c: string, value: string, d: string) {
    && AllSpace(a) && AllSpace(b) && AllSpace(c) && AllSpace(d)
    && line == a + key + b + "=" + c + value + d
    && Stripped(key) && '=' !in key && (key == "" || key[0] != '#') && Stripped(value)
  }

  /** The line is `key=value`, with blanks around the key and the value, and no comment. */
  ghost predicate Says(line: string, key: string, value: string) {
    exists a, b, c, d :: Parted(line, a, key, b, c, value, d)
  }

  ghost predicate SaysOf(line: string, key: string) {
    exists value :: Says(line, key, value)
  }

  /** Blanks, and then a comment sign. */
  ghost predicate Comment(line: string) {
    exists a, rest :: AllSpace(a) && line == a + "#" + rest
  }

  lemma SignsAreInk()
    ensures !Space('=') && !Space('#')
  {
  }

  lemma NoSignIn(b: string)
    requires AllSpace(b)
    ensures '=' !in b && '#' !in b
  {
    SignsAreInk();
    hide Space;
  }

  /** The part of a line left or right of the sign, without the line's outer blanks. */
  lemma StripPart(a: string, s: string, b: string)
    requires AllSpace(a) && AllSpace(b) && Stripped(s)
    ensures Strip(a + s) == s && Strip(s + b) == s && Strip("") == ""
  {
    StripOff(a, s, "");
    StripOff("", s, b);
    StripIsStripped("");
    assert a + s + "" == a + s && "" + s + b == s + b;
    hide Strip;
  }

  lemma SignSplits(left: string, right: string)
    requires '=' !in left && (left == "" || (left[0] != '#' && !Space(left[0])))
    requires right == "" || !Space(right[|right| - 1])
    ensures Stripped(left + "=" + right) && Assignment(left + "=" + right) == Some((Strip(left), Strip(right)))
  {
    SignsAreInk();
    hide Space, Strip, Find, Assignment;
    var st := left + "=" + right;
    assert st[0] == if left == "" then '=' else left[0];
    assert st[|st| - 1] == if right == "" then '=' else right[|right| - 1];
    FindIn(left, '=', right);
    assert left + ['='] + right == st && st[|left|] == '=';
    StrippedAssignment(st);
    assert st[..|left|] == left && st[|left| + 1..] == right;
  }

  /** Blanks around a line make no difference. */
  lemma OuterBlanks(a: string, st: string, d: string)
    requires AllSpace(a) && AllSpace(d) && Stripped(st)
    ensures Assignment(a + st + d) == Assignment(st)
  {
    StripOff(a, st, d);
    StripIsStripped(st);
    hide Strip;
  }

  lemma PartsAreRead(line: string, a: string, key: string, b: string, c: string, value: string, d: string)
    requires Parted(line, a, key, b, c, value, d)
    ensures Assignment(line) == Some((key, value))
  {
    NoSignIn(b);
    StripPart("", key, b);
    StripPart(c, value, "");
    AllSpaceJoins(a, b);
    AllSpaceJoins(c, d);
    var left, right := if key == "" then "" else key + b, if value == "" then "" else c + value;
    var outer, end := if key == "" then a + b else a, if value == "" then c + d else d;
    PartsRegroup(a, key, b, c, value, d);
    assert left == "" || left[0] == key[0];
    assert right == "" || right[|right| - 1] == value[|value| - 1];
    hide Strip, Space, Assignment;
    SignSplits(left, right);
    OuterBlanks(outer, left + "=" + right, end);
  }

  lemma AllSpaceJoins(a: string, b: string)
    requires AllSpace(a) && AllSpace(b)
    ensures AllSpace(a + b)
  {
    hide Space;
  }

  lemma PartsRegroup(a: string, key: string, b: string, c: string, value: string, d: string)
    ensures var left, right := if key == "" then "" else key + b, if value == "" then "" else c + value;
            var outer, end := if key == "" then a + b else a, if value == "" then c + d else d;
            a + key + b + "=" + c + value + d == outer + (left + "=" + right) + end
  {
    if key == "" {
      assert a + key + b == (a + b) + "";
    } else {
      assert a + key + b == a + (key + b);
    }
    if value == "" {
      assert c + value + d == "" + (c + d);
    } else {
      assert c + value + d == (c + value) + d;
    }
    var x, y := a + key + b, c + value + d;
    assert a + key + b + "=" + c + value + d == x + "=" + y;
  }

  lemma AtSign(st: string)
    requires '=' in st
    ensures var i := Find(st, '=');
            i < |st| && '=' !in st[..i] && st[..i] <= st && st == st[..i] + ['='] + st[i + 1..]
  {
    var i := Find(st, '=');
    assert st[..|st|] == st;
    Rejoined(st, i);
  }

  lemma Rejoined(st: string, i: nat)
    requires i < |st|
    ensures st == st[..i] + [st[i]] + st[i + 1..] && st[..i] <= st
  {
  }

  lemma ReadParts(line: string)
    requires Assignment(line).Some?
    ensures var st := Strip(line);
            var i := Find(st, '=');
            && st != "" && st[0] != '#' && !Space(st[0]) && '=' in st && i < |st|
            && Assignment(line).value == (Strip(st[..i]), Strip(st[i + 1..]))
  {
    StripIsStripped(line);
    AtSign(Strip(line));
    hide Strip, Space, Find;
  }

  lemma ReadIsSaid(line: string)
    requires Assignment(line).Some?
    ensures Says(line, Assignment(line).value.0, Assignment(line).value.1)
  {
    ReadParts(line);
    var st := Strip(line);
    AtSign(st);
    hide Space, Strip, Find, Assignment, Stripped;
    var i := Find(st, '=');
    var l, r := st[..i], st[i + 1..];
    StripParts(line);
    StripParts(l);
    StripParts(r);
    hide AllSpace;
    var a, d :| AllSpace(a) && AllSpace(d) && line == a + st + d;
    var a', b :| AllSpace(a') && AllSpace(b) && l == a' + Strip(l) + b;
    var c, d' :| AllSpace(c) && AllSpace(d') && r == c + Strip(r) + d';
    PartsAreSaid(line, st, l, a, a', Strip(l), b, c, Strip(r), d', d);
  }

  lemma PartsAreSaid(line: string, st: string, l: string, a: string, a': string, key: string, b: string, c: string, value: string, d': string, d: string)
    requires AllSpace(a) && AllSpace(a') && AllSpace(b) && AllSpace(c) && AllSpace(d') && AllSpace(d)
    requires line == a + st + d && st == l + "=" + (c + value + d') && l == a' + key + b
    requires st != "" && st[0] != '#' && !Space(st[0]) && l <= st && '=' !in l && Stripped(key) && Stripped(value)
    ensures Says(line, key, value)
  {
    NotHash(st, l, a', key, b);
    AllSpaceJoins(a, a');
    AllSpaceJoins(d', d);
    hide AllSpace, Space, Stripped;
    LineRegroups(a, a', key, b, c, value, d', d);
    assert Parted(line, a + a', key, b, c, value, d' + d);
  }

  lemma NoBlankFirst(a: string, rest: string)
    requires AllSpace(a) && a + rest != "" && !Space((a + rest)[0])
    ensures a == ""
  {
  }

  lemma NotHash(st: string, l: string, a: string, key: string, b: string)
    requires st != "" && st[0] != '#' && !Space(st[0]) && l <= st && l == a + key + b && AllSpace(a) && '=' !in l
    ensures '=' !in key && (key == "" || key[0] != '#')
  {
    hide Space;
    assert forall k :: 0 <= k < |key| ==> l[|a| + k] == key[k] && l[|a| + k] in l;
    if key != "" {
      assert l[0] == st[0] && l == a + (key + b);
      NoBlankFirst(a, key + b);
    }
  }

  lemma LineRegroups(a: string, a': string, key: string, b: string, c: string, value: string, d': string, d: string)
    ensures a + ((a' + key + b) + "=" + (c + value + d')) + d == (a + a') + key + b + "=" + c + value + (d' + d)
  {
    var x, y := key + b, c + value;
    assert a + ((a' + key + b) + "=" + (c + value + d')) + d == a + a' + x + "=" + y + d' + d;
    assert (a + a') + key + b + "=" + c + value + (d' + d) == a + a' + x + "=" + y + d' + d;
  }

  /** A line is read exactly as what it says; comments, blank lines and lines without `=` say
      nothing. */
  lemma AssignmentIff(line: string, key: string, value: string)
    ensures Assignment(line) == Some((key, value)) <==> Says(line, key, value)
    ensures Assignment(line).None? <==> '=' !in line || Comment(line)
  {
    if Assignment(line) == Some((key, value)) {
      ReadIsSaid(line);
    }
    if Says(line, key, value) {
      var a, b, c, d :| Parted(line, a, key, b, c, value, d);
      PartsAreRead(line, a, key, b, c, value, d);
    }
    NothingSaidIff(line);
    hide Assignment, Says, Comment;
  }

  lemma NothingSaidIff(line: string)
    ensures Assignment(line).None? <==> '=' !in line || Comment(line)
  {
    StripParts(line);
    var st := Strip(line);
    var a, d :| AllSpace(a) && AllSpace(d) && line == a + st + d;
    NoSignIn(a);
    NoSignIn(d);
    CommentIff(line, a, st, d);
    hide Strip, Space, Comment;
    assert '=' in line <==> '=' in st;
  }

  lemma CommentIff(line: string, a: string, st: string, d: string)
    requires AllSpace(a) && AllSpace(d) && line == a + st + d && Stripped(st)
    ensures Comment(line) <==> st != "" && st[0] == '#'
  {
    SignsAreInk();
    hide Space;
    if st != "" && st[0] == '#' {
      assert line == a + "#" + (st[1..] + d);
    }
    if a', rest :| AllSpace(a') && line == a' + "#" + rest {
      var n := |a'|;
      assert line[n] == '#';
      assert forall k :: 0 <= k < n ==> line[k] == a'[k];
      assert forall k :: 0 <= k < |a| ==> line[k] == a[k];
      assert forall k :: |a| + |st| <= k < |line| ==> line[k] == d[k - |a| - |st|];
      assert |a| <= n < |a| + |st|;
      assert line[|a|] == st[0];
    }
  }

  /** The `i`-th line says `value` of the key, and no later line says anything of it. */
  ghost predicate SaysLast(ls: seq<string>, i: int, key: string, value: string) {
    0 <= i < |ls| && Says(ls[i], key, value) && forall j :: i < j < |ls| ==> !SaysOf(ls[j], key)
  }

  /** `parse_env` on any file: a key has the value that the last line which says anything of it says. */
  lemma ParseMeans(text: string, key: string, value: string)
    ensures Get(Parse(text), key) == Some(value) <==> exists i :: SaysLast(Lines(text), i, key, value)
    ensures key in Parse(text) <==> exists i :: 0 <= i < |Lines(text)| && SaysOf(Lines(text)[i], key)
  {
    ParseIsOfLines(text);
    hide *;
    LinesMean(Lines(text), key, value);
  }

  lemma ParseIsOfLines(text: string)
    ensures Parse(text) == ParseLines(Lines(text))
  {
  }

  lemma {:induction false} LinesMean(ls: seq<string>, key: string, value: string)
    ensures Get(ParseLines(ls), key) == Some(value) <==> exists i :: SaysLast(ls, i, key, value)
    ensures key in ParseLines(ls) <==> exists i :: 0 <= i < |ls| && SaysOf(ls[i], key)
  {
    hide Assignment, Says, SaysOf;
    if ls != [] {
      var init, last := ls[..|ls| - 1], ls[|ls| - 1];
      LinesMean(init, key, value);
      LineSaysOf(last, key);
      AssignmentIff(last, key, value);
      if SaysOf(last, key) {
        assert Says(last, key, value) <==> SaysLast(ls, |ls| - 1, key, value);
      }
      forall i ensures SaysLast(ls, i, key, value) <==>
          (i == |ls| - 1 && Says(last, key, value)) || (!SaysOf(last, key) && SaysLast(init, i, key, value))
      {
        assert forall j :: 0 <= j < |init| ==> init[j] == ls[j];
      }
      hide SaysLast;
      assert forall i :: 0 <= i < |init| ==> init[i] == ls[i];
    }
  }

  /** What is read can be written back. */
  lemma ReadIsWritable(text: string, key: string)
    requires key in Parse(text)
    ensures Writable((key, Parse(text)[key]))
  {
    ParseMeans(text, key, Parse(text)[key]);
    hide Parse, Says;
    var i :| SaysLast(Lines(text), i, key, Parse(text)[key]);
    LinesAreLines(text);
    SaidIsWritable(Lines(text)[i], key, Parse(text)[key]);
  }

  lemma SaidIsWritable(line: string, key: string, value: string)
    requires Says(line, key, value) && OneLine(line)
    ensures Writable((key, value))
  {
    var a, b, c, d :| Parted(line, a, key, b, c, value, d);
    hide AllSpace, Stripped;
    assert forall x :: x in key ==> x in line;
    assert forall x :: x in value ==> x in line;
  }

  lemma LineSaysOf(line: string, key: string)
    ensures SaysOf(line, key) <==> Assigns(line, key)
  {
    if Assigns(line, key) {
      AssignmentIff(line, key, Assignment(line).value.1);
    }
    if value :| Says(line, key, value) {
      AssignmentIff(line, key, value);
    }
    hide Assignment, Says;
  }

  // ---------------------------------------------------------------- a written line reads back

  lemma RenderedReadsBack(p: (string, string))
    requires Writable(p)
    ensures Assignment(Rendered(p)) == Some(p)
    ensures OneLine(Rendered(p)) && Rendered(p) != ""
  {
    var line := Rendered(p);
    RenderedStripped(p);
    RenderedSplits(p.0, p.1);
    hide Strip, Find, Assignment, Rendered;
    StrippedAssignment(line);
    StripIsStripped(p.0);
    StripIsStripped(p.1);
  }

  lemma RenderedSplits(key: string, value: string)
    requires '=' !in key
    ensures var line := Rendered((key, value));
            && '=' in line && line != ""
            && Find(line, '=') == |key| && line[..|key|] == key && line[|key| + 1..] == value
            && line[0] == (if key == "" then '=' else key[0])
            && (OneLine(key) && OneLine(value) ==> OneLine(line))
  {
    var line := Rendered((key, value));
    assert line == key + ['='] + value;
    FindIn(key, '=', value);
    hide Find;
    assert line[|key|] == '=';
  }

  lemma StrippedAssignment(line: string)
    requires Stripped(line) && line != "" && line[0] != '#' && '=' in line
    ensures var i := Find(line, '=');
            i < |line| && Assignment(line) == Some((Strip(line[..i]), Strip(line[i + 1..])))
  {
    StripIsStripped(line);
    hide Strip;
  }

  lemma RenderedStripped(p: (string, string))
    requires Writable(p)
    ensures Stripped(Rendered(p))
  {
    var line := Rendered(p);
    assert line[0] == if p.0 == "" then '=' else p.0[0];
    assert line[|line| - 1] == if p.1 == "" then '=' else p.1[|p.1| - 1];
  }

  // ---------------------------------------------------------------- dict bookkeeping

  lemma {:induction false} LookupFacts(u: Updates, key: string)
    ensures Lookup(u, key).Some? <==> key in Keys(u)
    ensures Lookup(u, key).Some? ==> (key, Lookup(u, key).value) in u
  {
    if u != [] {
      LookupFacts(u[1..], key);
    }
  }

  lemma {:induction false} DropLookup(u: Updates, key: string, other: string)
    requires Dict(u)
    ensures Lookup(Drop(u, key), other) == if other == key then None else Lookup(u, other)
  {
    if u != [] {
      DropLookup(u[1..], key, other);
      LookupFacts(u[1..], key);
      if u[0].0 != key {
        assert Drop(u, key)[0] == u[0] && Drop(u, key)[1..] == Drop(u[1..], key);
      }
    }
  }

  lemma {:induction false} DropMembers(u: Updates, key: string)
    ensures forall p :: p in Drop(u, key) ==> p in u
    ensures Dict(u) ==> Dict(Drop(u, key))
  {
    if u != [] {
      DropMembers(u[1..], key);
      if u[0].0 != key {
        var rest := Drop(u[1..], key);
        assert Drop(u, key) == [u[0]] + rest;
        assert forall j :: 0 <= j < |rest| ==> rest[j] in u[1..];
      }
    }
  }

  lemma DropWritable(u: Updates, key: string)
    requires WritableAll(u)
    ensures WritableAll(Drop(u, key))
  {
    DropMembers(u, key);
    hide Writable, Drop;
    forall i | 0 <= i < |Drop(u, key)| ensures Writable(Drop(u, key)[i]) {
      assert Drop(u, key)[i] in u;
    }
  }

  lemma LookupWritable(u: Updates, key: string)
    requires WritableAll(u) && Lookup(u, key).Some?
    ensures Writable((key, Lookup(u, key).value))
  {
    LookupFacts(u, key);
  }

  // ---------------------------------------------------------------- merge, then read

  /** The value a reader finds for `key` in the merged lines. */
  lemma {:induction false} MergedValue(ls: seq<string>, u: Updates, key: string)
    requires WritableAll(u)
    ensures Get(ParseLines(MergeLines(ls, u)), key) ==
            (if Lookup(u, key).Some? && Count(ls, key) <= 1 then Lookup(u, key) else LastValue(ls, key))
    decreases |ls|
  {
    hide Assignment, Rendered, Writable;
    if ls == [] {
      RenderedAllValue(u, key);
    } else {
      var a := Assignment(ls[0]);
      ParseIsLastValue(ls[1..], key);
      if a.Some? && Lookup(u, a.value.0).Some? {
        var k := a.value.0;
        var p := (k, Lookup(u, k).value);
        LookupWritable(u, k);
        DropWritable(u, k);
        DropLookup(u, k, key);
        MergedValue(ls[1..], Drop(u, k), key);
        RenderedReadsBack(p);
        MergedStep(Rendered(p), MergeLines(ls[1..], Drop(u, k)), p, key);
      } else {
        MergedValue(ls[1..], u, key);
        ParseCons(ls[0], MergeLines(ls[1..], u), key);
      }
    }
  }

  lemma MergedStep(line: string, rest: seq<string>, p: (string, string), key: string)
    requires Assignment(line) == Some(p)
    ensures Get(ParseLines([line] + rest), key) ==
            (if key in ParseLines(rest) then Some(ParseLines(rest)[key]) else if key == p.0 then Some(p.1) else None)
  {
    ParseCons(line, rest, key);
  }

  lemma {:induction false} RenderedAllValue(u: Updates, key: string)
    requires WritableAll(u)
    ensures Get(ParseLines(RenderedAll(u)), key) == Lookup(u, key)
  {
    hide Assignment, Rendered, Writable;
    if u != [] {
      RenderedAllValue(u[1..], key);
      RenderedReadsBack(u[0]);
      MergedStep(Rendered(u[0]), RenderedAll(u[1..]), u[0], key);
      LookupFacts(u[1..], key);
    }
  }

  lemma {:induction false} MergedOneLine(ls: seq<string>, u: Updates)
    requires WritableAll(u) && AllOneLine(ls)
    ensures AllOneLine(MergeLines(ls, u))
    decreases |ls|
  {
    hide Assignment, Rendered, Writable, OneLine;
    if ls == [] {
      RenderedAllOneLine(u);
    } else {
      var a := Assignment(ls[0]);
      if a.Some? && Lookup(u, a.value.0).Some? {
        LookupWritable(u, a.value.0);
        DropWritable(u, a.value.0);
        RenderedReadsBack((a.value.0, Lookup(u, a.value.0).value));
        MergedOneLine(ls[1..], Drop(u, a.value.0));
      } else {
        assert ls[0] in ls;
        MergedOneLine(ls[1..], u);
      }
    }
  }

  lemma {:induction false} RenderedAllOneLine(u: Updates)
    requires WritableAll(u)
    ensures AllOneLine(RenderedAll(u)) && |RenderedAll(u)| == |u|
    ensures u != [] ==> RenderedAll(u)[|u| - 1] != ""
  {
    hide Assignment, Rendered, Writable, OneLine;
    if u != [] {
      RenderedReadsBack(u[0]);
      RenderedAllOneLine(u[1..]);
    }
  }

  /** For every file and every update: what is read for each key after the merge. */
  lemma ReadAfterMerge(text: string, u: Updates, key: string)
    requires WritableAll(u)
    ensures Get(Parse(Merge(text, u)), key) ==
            (if Lookup(u, key).Some? && Count(Lines(text), key) <= 1 then Lookup(u, key) else Get(Parse(text), key))
  {
    LinesAreLines(text);
    MergedOneLine(Lines(text), u);
    ParseRewritten(text, MergeLines(Lines(text), u));
    MergedValue(Lines(text), u, key);
    ParseIsLastValue(Lines(text), key);
  }

  ghost predicate Overrides(after: Env, before: Env, u: Updates) {
    forall key :: Get(after, key) == if Lookup(u, key).Some? then Lookup(u, key) else Get(before, key)
  }

  /** A merge is the override of the old file by the updates exactly when no updated key is
      assigned twice with an old last value other than the new one: the first assignment is
      the one replaced, and the last is the one read. */
  lemma MergeOverridesIff(text: string, u: Updates)
    requires WritableAll(u)
    ensures Overrides(Parse(Merge(text, u)), Parse(text), u) <==>
            forall key :: Lookup(u, key).Some? ==>
              Count(Lines(text), key) <= 1 || Get(Parse(text), key) == Lookup(u, key)
  {
    hide Parse, Merge, Count, Lookup, Writable;
    forall key ensures Get(Parse(Merge(text, u)), key) ==
        (if Lookup(u, key).Some? && Count(Lines(text), key) <= 1 then Lookup(u, key) else Get(Parse(text), key))
    {
      ReadAfterMerge(text, u, key);
    }
  }

  // ---------------------------------------------------------------- merge keeps the rest

  /** The `i`-th line is the first that assigns the key. */
  ghost predicate FirstFor(ls: seq<string>, i: nat, key: string) {
    i < |ls| && Assigns(ls[i], key) && forall j :: 0 <= j < i ==> !Assigns(ls[j], key)
  }

  lemma {:induction false} MergedLine(ls: seq<string>, u: Updates, i: nat)
    requires Dict(u) && i < |ls|
    ensures |MergeLines(ls, u)| >= |ls|
    ensures var a := Assignment(ls[i]);
            MergeLines(ls, u)[i] ==
            if a.Some? && Lookup(u, a.value.0).Some? && FirstFor(ls, i, a.value.0)
            then Rendered((a.value.0, Lookup(u, a.value.0).value)) else ls[i]
    decreases |ls|
  {
    hide Assignment, Rendered;
    var a := Assignment(ls[0]);
    var rewrites := a.Some? && Lookup(u, a.value.0).Some?;
    var u' := if rewrites then Drop(u, a.value.0) else u;
    var b := Assignment(ls[i]);
    if rewrites {
      DropMembers(u, a.value.0);
      if b.Some? {
        DropLookup(u, a.value.0, b.value.0);
      }
    }
    if |ls| > 1 {
      MergedLine(ls[1..], u', if i == 0 then 0 else i - 1);
      if i > 0 && b.Some? {
        assert forall j :: 0 <= j < |ls| - 1 ==> ls[1..][j] == ls[j + 1];
        assert FirstFor(ls, i, b.value.0) <==> !Assigns(ls[0], b.value.0) && FirstFor(ls[1..], i - 1, b.value.0) by {
          FirstStep(ls, i, b.value.0);
        }
      }
    }
  }

  lemma FirstStep(ls: seq<string>, i: nat, key: string)
    requires 0 < i < |ls|
    ensures FirstFor(ls, i, key) <==> !Assigns(ls[0], key) && FirstFor(ls[1..], i - 1, key)
  {
    hide Assigns;
    assert forall j :: 0 <= j < |ls| - 1 ==> ls[1..][j] == ls[j + 1];
    if !Assigns(ls[0], key) && FirstFor(ls[1..], i - 1, key) {
      forall j | 0 <= j < i ensures !Assigns(ls[j], key) {
        assert j > 0 ==> ls[j] == ls[1..][j - 1];
      }
    }
  }

  /** The updates that no line is for, in their order. */
  function Unwritten(ls: seq<string>, u: Updates): Updates {
    if u == [] then []
    else (if exists i :: 0 <= i < |ls| && Assigns(ls[i], u[0].0) then [] else [u[0]]) + Unwritten(ls, u[1..])
  }

  lemma {:induction false} UnwrittenStep(ls: seq<string>, u: Updates)
    requires ls != [] && Dict(u)
    ensures var a := Assignment(ls[0]);
            Unwritten(ls, u) == Unwritten(ls[1..], if a.Some? && Lookup(u, a.value.0).Some? then Drop(u, a.value.0) else u)
  {
    hide Assignment;
    var a := Assignment(ls[0]);
    if u != [] {
      UnwrittenStep(ls, u[1..]);
      var key := u[0].0;
      assert Assigns(ls[0], key) <==> a.Some? && a.value.0 == key;
      assert (exists i :: 0 <= i < |ls| && Assigns(ls[i], key)) <==>
             Assigns(ls[0], key) || exists i :: 0 <= i < |ls[1..]| && Assigns(ls[1..][i], key) by { SomeLine(ls, key); }
      LookupFacts(u[1..], key);
      if a.Some? && a.value.0 == key {
        UnwrittenElsewhere(ls, u[1..], key);
      } else if a.Some? && Lookup(u, a.value.0).Some? {
        assert Drop(u, a.value.0) == [u[0]] + Drop(u[1..], a.value.0);
        assert Drop(u, a.value.0)[1..] == Drop(u[1..], a.value.0);
      }
    }
  }

  lemma SomeLine(ls: seq<string>, key: string)
    requires ls != []
    ensures (exists i :: 0 <= i < |ls| && Assigns(ls[i], key)) <==>
            Assigns(ls[0], key) || exists i :: 0 <= i < |ls[1..]| && Assigns(ls[1..][i], key)
  {
    hide Assigns;
    if i :| 0 <= i < |ls| && Assigns(ls[i], key) {
      assert i > 0 ==> ls[1..][i - 1] == ls[i];
    }
    if i :| 0 <= i < |ls[1..]| && Assigns(ls[1..][i], key) {
      assert ls[i + 1] == ls[1..][i];
    }
  }

  /** A first line for another key makes no difference. */
  lemma {:induction false} UnwrittenElsewhere(ls: seq<string>, u: Updates, key: string)
    requires ls != [] && Assigns(ls[0], key) && forall i :: 0 <= i < |u| ==> u[i].0 != key
    ensures Unwritten(ls, u) == Unwritten(ls[1..], u)
  {
    if u != [] {
      UnwrittenElsewhere(ls, u[1..], key);
      SomeLine(ls, u[0].0);
      assert !Assigns(ls[0], u[0].0);
      hide Assignment;
    }
  }

  lemma {:induction false} UnwrittenAll(u: Updates)
    ensures Unwritten([], u) == u
  {
    if u != [] {
      UnwrittenAll(u[1..]);
    }
  }

  lemma {:induction false} MergeAppends(ls: seq<string>, u: Updates)
    requires Dict(u)
    ensures |MergeLines(ls, u)| >= |ls| && MergeLines(ls, u)[|ls|..] == RenderedAll(Unwritten(ls, u))
    decreases |ls|
  {
    hide Assignment, Rendered, RenderedAll, Unwritten;
    if ls == [] {
      UnwrittenAll(u);
    } else {
      var a := Assignment(ls[0]);
      var u' := if a.Some? && Lookup(u, a.value.0).Some? then Drop(u, a.value.0) else u;
      if a.Some? {
        DropMembers(u, a.value.0);
      }
      UnwrittenStep(ls, u);
      MergeAppends(ls[1..], u');
      assert MergeLines(ls, u)[1..] == MergeLines(ls[1..], u');
      assert MergeLines(ls, u)[|ls|..] == MergeLines(ls, u)[1..][|ls| - 1..];
    }
  }

  /** A merge line by line: the first line that says anything of an updated key becomes `key=value`,
      every other line stays as it is and where it is, and the updates that no line was for are
      appended in their order. */
  lemma MergeKeepsLines(ls: seq<string>, u: Updates, i: nat)
    requires Dict(u) && i < |ls|
    ensures |MergeLines(ls, u)| >= |ls| && MergeLines(ls, u)[|ls|..] == RenderedAll(Unwritten(ls, u))
    ensures forall p :: p in u && SaysOf(ls[i], p.0) && (forall j :: 0 <= j < i ==> !SaysOf(ls[j], p.0)) ==>
              MergeLines(ls, u)[i] == p.0 + "=" + p.1
    ensures (forall p :: p in u ==> !SaysOf(ls[i], p.0) || exists j :: 0 <= j < i && SaysOf(ls[j], p.0)) ==>
              MergeLines(ls, u)[i] == ls[i]
  {
    MergeAppends(ls, u);
    MergedLine(ls, u, i);
    hide MergeLines, RenderedAll, Unwritten, SaysOf;
    forall j, key | 0 <= j < |ls| ensures SaysOf(ls[j], key) <==> Assigns(ls[j], key) { LineSaysOf(ls[j], key); }
    forall p | p in u ensures Lookup(u, p.0) == Some(p.1) { LookupOfDict(u, p); }
    var a := Assignment(ls[i]);
    if a.Some? {
      LookupFacts(u, a.value.0);
    }
    hide Assignment, Lookup;
  }

  lemma {:induction false} LookupOfDict(u: Updates, p: (string, string))
    requires Dict(u) && p in u
    ensures Lookup(u, p.0) == Some(p.1)
  {
    if u[0] != p {
      assert p in u[1..];
      LookupOfDict(u[1..], p);
    }
  }

  // ---------------------------------------------------------------- merge twice

  lemma {:induction false} MergeRenderedAll(u: Updates)
    requires WritableAll(u)
    ensures MergeLines(RenderedAll(u), u) == RenderedAll(u)
  {
    hide Assignment, Rendered, Writable;
    if u != [] {
      RenderedReadsBack(u[0]);
      MergeRenderedAll(u[1..]);
      assert RenderedAll(u)[1..] == RenderedAll(u[1..]);
      assert Drop(u, u[0].0) == u[1..];
    }
  }

  lemma {:induction false} MergeLinesTwice(ls: seq<string>, u: Updates)
    requires WritableAll(u)
    ensures MergeLines(MergeLines(ls, u), u) == MergeLines(ls, u)
    decreases |ls|
  {
    hide Assignment, Rendered, Writable;
    if ls == [] {
      MergeRenderedAll(u);
    } else {
      var a := Assignment(ls[0]);
      if a.Some? && Lookup(u, a.value.0).Some? {
        var k := a.value.0;
        LookupWritable(u, k);
        DropWritable(u, k);
        RenderedReadsBack((k, Lookup(u, k).value));
        MergeLinesTwice(ls[1..], Drop(u, k));
        MergeHead(Rendered((k, Lookup(u, k).value)), MergeLines(ls[1..], Drop(u, k)), u);
      } else {
        MergeLinesTwice(ls[1..], u);
        MergeHead(ls[0], MergeLines(ls[1..], u), u);
      }
    }
  }

  lemma MergeHead(line: string, rest: seq<string>, u: Updates)
    ensures MergeLines([line] + rest, u) ==
            (var a := Assignment(line);
             if a.Some? && Lookup(u, a.value.0).Some? then
               [Rendered((a.value.0, Lookup(u, a.value.0).value))] + MergeLines(rest, Drop(u, a.value.0))
             else [line] + MergeLines(rest, u))
  {
    assert ([line] + rest)[1..] == rest;
  }

  /** Merged text splits back into the merged lines, except that nothing merged into nothing
      leaves one empty line. */
  lemma LinesOfMerge(text: string, u: Updates)
    requires WritableAll(u)
    ensures Lines(Merge(text, u)) == if text == "" && u == [] then [""] else MergeLines(Lines(text), u)
    ensures Merge(text, u) != ""
    ensures EndsWithLF(Merge(text, u)) <==> text == "" || EndsWithLF(text)
  {
    hide Assignment, Rendered, Writable, Lines, Join, OneLine;
    var ls := MergeLines(Lines(text), u);
    LinesAreLines(text);
    JoinOfLines(text);
    LinesOfEmpty();
    MergedOneLine(Lines(text), u);
    RenderedAllOneLine(u);
    if text == "" || EndsWithLF(text) {
      if ls != [] {
        LinesOfJoinLF(ls);
      }
    } else {
      MergedLast(Lines(text), u);
      LinesOfJoin(ls);
      assert Join(ls) + "" == Join(ls);
      JoinedLast(ls);
    }
  }

  lemma {:induction false} MergedLast(ls: seq<string>, u: Updates)
    requires WritableAll(u) && ls != [] && ls[|ls| - 1] != ""
    ensures MergeLines(ls, u) != [] && MergeLines(ls, u)[|MergeLines(ls, u)| - 1] != ""
    decreases |ls|
  {
    hide Assignment, Rendered, Writable;
    var a := Assignment(ls[0]);
    var rewrites := a.Some? && Lookup(u, a.value.0).Some?;
    var u' := if rewrites then Drop(u, a.value.0) else u;
    if rewrites {
      DropWritable(u, a.value.0);
      LookupWritable(u, a.value.0);
      RenderedReadsBack((a.value.0, Lookup(u, a.value.0).value));
    }
    if |ls| > 1 {
      MergedLast(ls[1..], u');
    } else {
      RenderedAllOneLine(u');
      assert MergeLines(ls[1..], u') == RenderedAll(u');
    }
  }

  /** `merge_env_vars` is idempotent on every file. */
  lemma MergeTwice(text: string, u: Updates)
    requires WritableAll(u)
    ensures Merge(Merge(text, u), u) == Merge(text, u)
  {
    LinesOfMerge(text, u);
    MergeLinesTwice(Lines(text), u);
    LinesOfEmpty();
    BlankAssignsNothing();
    hide Assignment, Rendered, Writable, Join, OneLine, EndsWithLF;
    if text == "" && u == [] {
      MergeHead("", [], u);
      assert [""] + [] == [""];
    }
  }

  // ---------------------------------------------------------------- release, then read

  lemma {:induction false} RemovedValue(ls: seq<string>, keys: set<string>, key: string)
    ensures Get(ParseLines(RemoveLines(ls, keys)), key) == if key in keys then None else LastValue(ls, key)
  {
    hide Assignment;
    if ls != [] {
      RemovedValue(ls[1..], keys, key);
      ParseIsLastValue(ls[1..], key);
      var rest := RemoveLines(ls[1..], keys);
      ParseCons(ls[0], rest, key);
      assert RemoveLines(ls, keys) == rest || RemoveLines(ls, keys) == [ls[0]] + rest;
    }
  }

  lemma {:induction false} RemovedMembers(ls: seq<string>, keys: set<string>)
    ensures forall l :: l in RemoveLines(ls, keys) <==>
              l in ls && !(Assignment(l).Some? && Assignment(l).value.0 in keys)
  {
    hide Assignment;
    if ls != [] {
      RemovedMembers(ls[1..], keys);
      assert forall l :: l in ls <==> l == ls[0] || l in ls[1..];
    }
  }

  /** On every file, duplicates and commented decoys included: after the release the keys
      read as absent, and every other key reads as before. */
  lemma ReadAfterRemove(text: string, keys: set<string>)
    ensures Parse(Remove(text, keys)) == Parse(text) - keys
  {
    hide Assignment;
    LinesAreLines(text);
    RemovedMembers(Lines(text), keys);
    ParseRewritten(text, RemoveLines(Lines(text), keys));
    hide Lines, ParseLines, RemoveLines;
    var after, before := Parse(Remove(text, keys)), Parse(text);
    forall key ensures Get(after, key) == if key in keys then None else Get(before, key) {
      RemovedValue(Lines(text), keys, key);
      ParseIsLastValue(Lines(text), key);
    }
    assert forall key :: (key in after <==> key in before && key !in keys) && (key in after ==> Get(after, key) == Get(before, key));
  }

  /** A release line by line: the lines that say anything of a released key go, all others stay in
      order. */
  lemma RemoveKeepsLines(ls: seq<string>, keys: set<string>, line: string)
    ensures RemoveLines([], keys) == []
    ensures RemoveLines(ls + [line], keys) == RemoveLines(ls, keys) + if exists key :: key in keys && SaysOf(line, key) then [] else [line]
  {
    forall key ensures SaysOf(line, key) <==> Assigns(line, key) { LineSaysOf(line, key); }
    hide SaysOf;
    RemoveOne(ls, keys, line);
  }

  lemma {:induction false} RemoveOne(ls: seq<string>, keys: set<string>, line: string)
    ensures RemoveLines([], keys) == []
    ensures RemoveLines(ls + [line], keys) == RemoveLines(ls, keys) + if exists key :: key in keys && Assigns(line, key) then [] else [line]
  {
    hide Assignment;
    var more := ls + [line];
    if ls == [] {
      assert more == [line] && more[1..] == [];
    } else {
      RemoveOne(ls[1..], keys, line);
      assert more[0] == ls[0] && more[1..] == ls[1..] + [line];
    }
  }
}

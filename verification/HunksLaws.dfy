/** The validator on printed diffs (POSIX `diff`, "Diff -u or -U Output Format"): one report per
    hunk whose counts disagree, and exactly which correct hunks it misjudges. */
module HunksLaws {
  import opened Lists
  import opened Text
  import opened Decimal
  import opened Numerals
  import opened JsonValues
  import opened Hunks

  /** A line of a hunk; `Blank` is an empty context line whose leading space was stripped. */
  datatype Edit = Same(text: string) | Blank | Minus(text: string) | Plus(text: string) | NoEol(text: string)

  /** `short` leaves out a count of 1, as `diff` does; `blanks` is the number of empty separator
      lines between this hunk and what follows. */
  datatype Hunk = Hunk(
    oldStart: nat, oldCount: nat, newStart: nat, newCount: nat, short: bool, heading: string,
    body: seq<Edit>, blanks: nat)

  /** `lines` are the file's header: `diff --git`, `index`, `---`, `+++` and the like. */
  datatype FileDiff = FileDiff(lines: seq<string>, hunks: seq<Hunk>)

  // ---------------------------------------------------------------- printing

  function PrintEdit(e: Edit): string {
    match e
    case Same(text) => " " + text
    case Blank => ""
    case Minus(text) => "-" + text
    case Plus(text) => "+" + text
    case NoEol(text) => "\\" + text
  }

  function PrintBody(body: seq<Edit>): seq<string> {
    if body == [] then [] else [PrintEdit(body[0])] + PrintBody(body[1..])
  }

  function PrintCount(n: nat, short: bool): string {
    if short && n == 1 then "" else "," + Str(n)
  }

  function PrintHeader(h: Hunk): string {
    "@@ -" + (Str(h.oldStart) + PrintCount(h.oldCount, h.short) +
              (" +" + (Str(h.newStart) + PrintCount(h.newCount, h.short) + (" @@" + h.heading))))
  }

  function BlankLines(n: nat): seq<string> {
    if n == 0 then [] else [""] + BlankLines(n - 1)
  }

  function PrintHunk(h: Hunk): seq<string> {
    [PrintHeader(h)] + (PrintBody(h.body) + BlankLines(h.blanks))
  }

  function PrintHunks(hs: seq<Hunk>): seq<string> {
    if hs == [] then [] else PrintHunk(hs[0]) + PrintHunks(hs[1..])
  }

  function PrintFiles(fs: seq<FileDiff>): seq<string> {
    if fs == [] then [] else fs[0].lines + (PrintHunks(fs[0].hunks) + PrintFiles(fs[1..]))
  }

  // ---------------------------------------------------------------- what a hunk really has

  function OldLines(body: seq<Edit>): nat {
    if body == [] then 0 else (if body[0].Plus? || body[0].NoEol? then 0 else 1) + OldLines(body[1..])
  }

  function NewLines(body: seq<Edit>): nat {
    if body == [] then 0 else (if body[0].Minus? || body[0].NoEol? then 0 else 1) + NewLines(body[1..])
  }

  predicate Correct(h: Hunk) {
    h.oldCount == OldLines(h.body) && h.newCount == NewLines(h.body)
  }

  /** A removed line that starts with `-- `, or an added one that starts with `++ `: printed, it
      looks like a file header. */
  predicate LooksLikeHeader(e: Edit) {
    (e.Minus? && Starts(e.text, "-- ")) || (e.Plus? && Starts(e.text, "++ "))
  }

  predicate Hides(body: seq<Edit>) {
    body != [] && (LooksLikeHeader(body[0]) || Hides(body[1..]))
  }

  /** The part of the body before the first line that looks like a file header. */
  function Visible(body: seq<Edit>): seq<Edit> {
    if body == [] || LooksLikeHeader(body[0]) then [] else [body[0]] + Visible(body[1..])
  }

  /** What the validator counts: the visible part, and with it the separators when nothing is hidden. */
  function Observed(h: Hunk): (nat, nat) {
    var blanks := if Hides(h.body) then 0 else h.blanks;
    (OldLines(Visible(h.body)) + blanks, NewLines(Visible(h.body)) + blanks)
  }

  function HunkVerdict(h: Hunk): seq<HunkError> {
    var seen := Observed(h);
    if seen == (h.oldCount, h.newCount) then []
    else [HunkError(PrintHeader(h), h.oldCount, h.newCount, seen.0, seen.1)]
  }

  function HunkVerdicts(hs: seq<Hunk>): seq<HunkError> {
    if hs == [] then [] else HunkVerdict(hs[0]) + HunkVerdicts(hs[1..])
  }

  function FileVerdicts(fs: seq<FileDiff>): seq<HunkError> {
    if fs == [] then [] else HunkVerdicts(fs[0].hunks) + FileVerdicts(fs[1..])
  }

  /** A file's header lines are no hunk headers, and the first of them ends a hunk body. */
  ghost predicate FileOk(f: FileDiff) {
    && f.lines != [] && EndsBody(f.lines[0])
    && forall i :: 0 <= i < |f.lines| ==> !IsHeader(f.lines[i])
  }

  /** A count as it is written after a line number: `,` and its digits, or nothing for 1. */
  ghost predicate CountText(c: string, n: nat) {
    if c == "" then n == 1 else c[0] == ',' && c[1..] != "" && Digits(c[1..]) && Value(c[1..]) == n
  }

  ghost predicate HeaderParts(line: string, s1: string, c1: string, a: nat, s2: string, c2: string, b: nat, heading: string) {
    && line == "@@ -" + (s1 + c1 + (" +" + (s2 + c2 + (" @@" + heading))))
    && s1 != "" && Digits(s1) && CountText(c1, a) && s2 != "" && Digits(s2) && CountText(c2, b)
  }

  /** `@@ -start,a +start,b @@`, and whatever heading. */
  ghost predicate Declares(line: string, a: nat, b: nat) {
    exists s1, c1, s2, c2, heading :: HeaderParts(line, s1, c1, a, s2, c2, b, heading)
  }

  ghost predicate IsHeader(line: string) {
    exists a: nat, b: nat :: Declares(line, a, b)
  }

  /** A line that is neither context nor a change nor the no-newline mark, or is a file header. */
  predicate EndsBody(line: string) {
    line != "" && (Starts(line, "--- ") || Starts(line, "+++ ") || line[0] !in {' ', '+', '-', '\\'})
  }

  lemma EndsBodyIff(line: string)
    ensures EndsBody(line) <==> KindOf(line).Stop?
  {
    if line != "" && line[0] == '\\' {
      FirstChar(line, "--- ");
      FirstChar(line, "+++ ");
    }
    hide Starts;
  }

  lemma FirstChar(line: string, word: string)
    requires line != "" && word != "" && line[0] != word[0]
    ensures !Starts(line, word)
  {
  }

  // ---------------------------------------------------------------- headers

  lemma {:induction false} DigitRunAll(a: string, b: string)
    requires Digits(a) && (b == "" || !Digit(b[0]))
    ensures DigitRun(a + b) == |a|
  {
    DigitRunOver(a, b);
  }

  lemma RangeShort(d: string, tail: string)
    requires Digits(d) && d != "" && tail != "" && tail[0] == ' '
    ensures Range(d + tail) == Some((1, tail))
  {
    hide DigitRun;
    DigitRunAll(d, tail);
    assert (d + tail)[|d|..] == tail;
  }

  lemma RangeLong(d: string, k: string, tail: string)
    requires Digits(d) && d != "" && Digits(k) && k != "" && tail != "" && tail[0] == ' '
    ensures Range(d + ([','] + (k + tail))) == Some((Value(k), tail))
  {
    hide DigitRun, Value;
    var c := [','] + (k + tail);
    DigitRunAll(d, c);
    DigitRunAll(k, tail);
    assert (d + c)[|d|..] == c && c[1..] == k + tail;
    assert (k + tail)[..|k|] == k && (k + tail)[|k|..] == tail;
  }

  lemma RangeReads(start: nat, n: nat, short: bool, tail: string)
    requires tail != "" && tail[0] == ' '
    ensures Range(Str(start) + PrintCount(n, short) + tail) == Some((n, tail))
  {
    hide Str, Range, Value, Digits;
    var a, k := Str(start), Str(n);
    if short && n == 1 {
      RangeShort(a, tail);
      assert a + "" + tail == a + tail;
    } else {
      RangeLong(a, k, tail);
      ValueOfStr(n);
      assert a + ("," + k) + tail == a + ([','] + (k + tail));
    }
  }

  lemma RangeOfParts(s: string, c: string, n: nat, tail: string)
    requires s != "" && Digits(s) && CountText(c, n) && tail != "" && tail[0] == ' '
    ensures Range(s + c + tail) == Some((n, tail))
  {
    hide Range, Digits, Value;
    if c == "" {
      assert s + c + tail == s + tail;
      RangeShort(s, tail);
    } else {
      RangeLong(s, c[1..], tail);
      assert c == [','] + c[1..];
      assert s + c + tail == s + ([','] + (c[1..] + tail));
    }
  }

  lemma RangeParts(t: string) returns (s: string, c: string)
    requires Range(t).Some?
    ensures s != "" && Digits(s) && CountText(c, Range(t).value.0) && t == s + c + Range(t).value.1
  {
    var n := DigitRun(t);
    var u := t[n..];
    s := t[..n];
    if u != "" && u[0] == ',' && DigitRun(u[1..]) > 0 {
      var k := DigitRun(u[1..]);
      c := [','] + u[1..][..k];
      assert c[1..] == u[1..][..k];
      assert t == s + u && u == [','] + u[1..] && u[1..] == u[1..][..k] + u[1..][k..];
      hide DigitRun, Value, Digits;
    } else {
      c := "";
      assert t == s + u && s + "" == s;
    }
  }

  lemma StartsSplit(s: string, word: string)
    ensures Starts(s, word) ==> s == word + s[|word|..]
  {
  }

  lemma DeclaredParts(line: string)
    requires Declared(line).Some?
    ensures Declares(line, Declared(line).value.0, Declared(line).value.1)
  {
    StartsSplit(line, "@@ -");
    var a := Range(line[4..]);
    StartsSplit(a.value.1, " +");
    var b := Range(a.value.1[2..]);
    StartsSplit(b.value.1, " @@");
    hide Range, Starts, CountText, Digits;
    var s1, c1 := RangeParts(line[4..]);
    var s2, c2 := RangeParts(a.value.1[2..]);
    assert HeaderParts(line, s1, c1, a.value.0, s2, c2, b.value.0, b.value.1[3..]);
  }

  lemma PartsDeclare(line: string, s1: string, c1: string, a: nat, s2: string, c2: string, b: nat, heading: string)
    requires HeaderParts(line, s1, c1, a, s2, c2, b, heading)
    ensures Declared(line) == Some((a, b))
  {
    hide Range, CountText, Starts, Digits;
    var t2 := " @@" + heading;
    var r2 := s2 + c2 + t2;
    var t1 := " +" + r2;
    var r1 := s1 + c1 + t1;
    RangeOfParts(s2, c2, b, t2);
    RangeOfParts(s1, c1, a, t1);
    StartsWithIt("@@ -", r1);
    StartsWithIt(" +", r2);
    StartsWithIt(" @@", heading);
  }

  /** A line declares counts exactly when it has the form of a hunk header. */
  lemma DeclaredIff(line: string, a: nat, b: nat)
    ensures Declared(line) == Some((a, b)) <==> Declares(line, a, b)
    ensures Declared(line).Some? <==> IsHeader(line)
  {
    hide Declared;
    forall a: nat, b: nat ensures Declared(line) == Some((a, b)) <==> Declares(line, a, b) {
      if Declared(line) == Some((a, b)) {
        DeclaredParts(line);
      }
      if s1, c1, s2, c2, heading :| HeaderParts(line, s1, c1, a, s2, c2, b, heading) {
        PartsDeclare(line, s1, c1, a, s2, c2, b, heading);
      }
    }
    hide Declares;
    if Declared(line).Some? {
      assert Declares(line, Declared(line).value.0, Declared(line).value.1);
    }
    if x: nat, y: nat :| Declares(line, x, y) {
      assert Declared(line) == Some((x, y));
    }
  }

  lemma FileOkMeans(f: FileDiff)
    requires FileOk(f)
    ensures f.lines != [] && KindOf(f.lines[0]).Stop?
    ensures NoHeaders(f.lines)
  {
    EndsBodyIff(f.lines[0]);
    forall i | 0 <= i < |f.lines| ensures Declared(f.lines[i]).None? { DeclaredIff(f.lines[i], 0, 0); }
    hide IsHeader, EndsBody, KindOf, Declared;
  }

  lemma StartsWithIt(word: string, tail: string)
    ensures Starts(word + tail, word) && (word + tail)[|word|..] == tail
  {
    assert (word + tail)[..|word|] == word;
  }

  /** A printed header declares its counts. */
  lemma HeaderReads(h: Hunk)
    ensures Declared(PrintHeader(h)) == Some((h.oldCount, h.newCount))
    ensures PrintHeader(h) != "" && PrintHeader(h)[0] == '@'
  {
    hide Range, PrintCount, Str, Starts;
    var t2 := " @@" + h.heading;
    var r2 := Str(h.newStart) + PrintCount(h.newCount, h.short) + t2;
    var t1 := " +" + r2;
    var r1 := Str(h.oldStart) + PrintCount(h.oldCount, h.short) + t1;
    RangeReads(h.newStart, h.newCount, h.short, t2);
    RangeReads(h.oldStart, h.oldCount, h.short, t1);
    StartsWithIt("@@ -", r1);
    StartsWithIt(" +", r2);
    StartsWithIt(" @@", h.heading);
  }

  // ---------------------------------------------------------------- the body

  lemma StartsCons(c: char, text: string, word: string)
    requires word != ""
    ensures Starts([c] + text, word) <==> c == word[0] && Starts(text, word[1..])
  {
    var s := [c] + text;
    if |word| <= |s| {
      assert s[..|word|] == [c] + text[..|word| - 1];
      assert word == [word[0]] + word[1..];
    }
  }

  /** How the validator takes a printed line. */
  lemma EditKind(e: Edit)
    ensures KindOf(PrintEdit(e)) ==
            (if LooksLikeHeader(e) then Stop
             else match e
               case Same(_) => Context
               case Blank => Context
               case Minus(_) => Removed
               case Plus(_) => Added
               case NoEol(_) => NoNewline)
    ensures Declared(PrintEdit(e)).None?
  {
    var line := PrintEdit(e);
    if !e.Blank? {
      assert line == [line[0]] + e.text;
      StartsCons(line[0], e.text, "--- ");
      StartsCons(line[0], e.text, "+++ ");
      StartsCons(line[0], e.text, "@@ -");
      assert "--- "[1..] == "-- " && "+++ "[1..] == "++ ";
    }
    hide Starts, Range;
    assert !Starts("", "@@ -") by { NotStarts(); }
  }

  lemma NotStarts()
    ensures !Starts("", "@@ -")
  {
  }

  /** What follows a hunk: nothing, or a line that ends its body. */
  ghost predicate Stops(rest: seq<string>) {
    rest == [] || KindOf(rest[0]).Stop?
  }

  lemma {:induction false} BlanksKind(n: nat)
    ensures |BlankLines(n)| == n
    ensures forall i :: 0 <= i < n ==> BlankLines(n)[i] == ""
  {
    if n > 0 {
      BlanksKind(n - 1);
    }
  }

  lemma BlankKind()
    ensures KindOf("") == Context && Declared("").None?
  {
    NotStarts();
    hide Starts;
  }

  /** The body the scan finds in front of `rest`: the blank lines, all context. */
  lemma {:induction false} BlanksScan(n: nat, rest: seq<string>)
    requires Stops(rest)
    ensures var ls := BlankLines(n) + rest;
            && |ls| == n + |rest| && BodyLength(ls) == n && ls[n..] == rest
            && Count(ls[..n], Context) == n && Count(ls[..n], Removed) == 0 && Count(ls[..n], Added) == 0
  {
    hide KindOf;
    BlanksKind(n);
    if n == 0 {
      assert BlankLines(n) + rest == rest;
    } else {
      BlankKind();
      BlanksScan(n - 1, rest);
      var ls, tail := BlankLines(n) + rest, BlankLines(n - 1) + rest;
      assert ls == [""] + tail && ls[1..] == tail;
      CountCons("", tail, n - 1);
    }
  }

  lemma CountCons(line: string, tail: seq<string>, n: nat)
    requires n <= |tail|
    ensures ([line] + tail)[..n + 1] == [line] + tail[..n]
    ensures forall kind :: Count(([line] + tail)[..n + 1], kind) == (if KindOf(line) == kind then 1 else 0) + Count(tail[..n], kind)
    ensures !KindOf(line).Stop? ==> BodyLength([line] + tail) == 1 + BodyLength(tail)
    ensures KindOf(line).Stop? ==> BodyLength([line] + tail) == 0
    ensures ([line] + tail)[n + 1..] == tail[n..]
  {
    hide KindOf;
    var ls := [line] + tail;
    assert ls[1..] == tail && ls[0] == line;
    assert ls[..n + 1] == [line] + tail[..n];
    assert ls[..n + 1][1..] == tail[..n];
  }

  /** The body the scan finds in a printed hunk: its visible part, and the separators when
      nothing is hidden; what it leaves holds no header. */
  lemma {:induction false} BodyScan(body: seq<Edit>, blanks: nat, rest: seq<string>)
    requires Stops(rest)
    ensures var ls := PrintBody(body) + BlankLines(blanks) + rest;
            var n := BodyLength(ls);
            var extra := if Hides(body) then 0 else blanks;
            && n == |Visible(body)| + extra
            && Count(ls[..n], Context) + Count(ls[..n], Removed) == OldLines(Visible(body)) + extra
            && Count(ls[..n], Context) + Count(ls[..n], Added) == NewLines(Visible(body)) + extra
            && (!Hides(body) ==> ls[n..] == rest)
            && (Hides(body) ==> exists left :: ls[n..] == left + rest && NoHeaders(left))
  {
    hide KindOf, LooksLikeHeader, BodyLength, Count;
    var ls := PrintBody(body) + BlankLines(blanks) + rest;
    if body == [] {
      assert ls == BlankLines(blanks) + rest;
      BlanksScan(blanks, rest);
    } else {
      var e := body[0];
      var tail := PrintBody(body[1..]) + BlankLines(blanks) + rest;
      assert ls == [PrintEdit(e)] + tail;
      EditKind(e);
      if LooksLikeHeader(e) {
        CountCons(PrintEdit(e), tail, 0);
        CountNothing();
        assert ls[..0] == [] && ls[0..] == ls;
        BodyHasNoHeaders(body, blanks);
        assert ls == (PrintBody(body) + BlankLines(blanks)) + rest;
      } else {
        BodyScan(body[1..], blanks, rest);
        CountCons(PrintEdit(e), tail, BodyLength(tail));
        VisibleCons(body);
      }
    }
  }

  lemma VisibleCons(body: seq<Edit>)
    requires body != [] && !LooksLikeHeader(body[0])
    ensures Visible(body) == [body[0]] + Visible(body[1..])
    ensures OldLines(Visible(body)) == (if body[0].Plus? || body[0].NoEol? then 0 else 1) + OldLines(Visible(body[1..]))
    ensures NewLines(Visible(body)) == (if body[0].Minus? || body[0].NoEol? then 0 else 1) + NewLines(Visible(body[1..]))
    ensures Hides(body) <==> Hides(body[1..])
  {
    hide LooksLikeHeader;
    assert Visible(body)[1..] == Visible(body[1..]);
  }

  ghost predicate NoHeaders(ls: seq<string>) {
    forall i :: 0 <= i < |ls| ==> Declared(ls[i]).None?
  }

  lemma {:induction false} BodyHasNoHeaders(body: seq<Edit>, blanks: nat)
    ensures NoHeaders(PrintBody(body) + BlankLines(blanks))
  {
    hide Declared;
    if body == [] {
      BlanksKind(blanks);
      BlankKind();
    } else {
      EditKind(body[0]);
      BodyHasNoHeaders(body[1..], blanks);
      assert PrintBody(body) + BlankLines(blanks) == [PrintEdit(body[0])] + (PrintBody(body[1..]) + BlankLines(blanks));
    }
  }

  // ---------------------------------------------------------------- the whole diff

  lemma {:induction false} SkipLines(ls: seq<string>, rest: seq<string>)
    requires NoHeaders(ls)
    ensures Validate(ls + rest) == Validate(rest)
  {
    hide Declared;
    if ls == [] {
      assert ls + rest == rest;
    } else {
      assert (ls + rest)[0] == ls[0] && (ls + rest)[1..] == ls[1..] + rest;
      assert NoHeaders(ls[1..]) by { assert forall i :: 0 <= i < |ls| - 1 ==> ls[1..][i] == ls[i + 1]; }
      SkipLines(ls[1..], rest);
    }
  }

  lemma HunkReported(h: Hunk, rest: seq<string>)
    requires Stops(rest)
    ensures Validate(PrintHunk(h) + rest) == HunkVerdict(h) + Validate(rest)
  {
    hide Declared, BodyLength, Count, KindOf, Visible, OldLines, NewLines, Hides, PrintHeader, Stops, NoHeaders;
    var after := PrintBody(h.body) + BlankLines(h.blanks) + rest;
    var ls := PrintHunk(h) + rest;
    assert ls == [PrintHeader(h)] + after && ls[0] == PrintHeader(h) && ls[1..] == after;
    HeaderReads(h);
    BodyScan(h.body, h.blanks, rest);
    var n := BodyLength(after);
    assert Validate(ls) == Verdict(PrintHeader(h), (h.oldCount, h.newCount), after[..n]) + Validate(after[n..]);
    assert Verdict(PrintHeader(h), (h.oldCount, h.newCount), after[..n]) == HunkVerdict(h);
    if Hides(h.body) {
      var left :| after[n..] == left + rest && NoHeaders(left);
      SkipLines(left, rest);
    }
  }

  lemma HunkStops(hs: seq<Hunk>, rest: seq<string>)
    requires Stops(rest)
    ensures Stops(PrintHunks(hs) + rest)
  {
    hide PrintHeader, PrintBody, BlankLines;
    if hs == [] {
      assert PrintHunks(hs) + rest == rest;
    } else {
      HeaderReads(hs[0]);
      HeaderStops(PrintHeader(hs[0]));
      hide KindOf;
      assert PrintHunk(hs[0])[0] == PrintHeader(hs[0]);
      assert (PrintHunks(hs) + rest)[0] == PrintHeader(hs[0]);
    }
  }

  lemma HeaderStops(line: string)
    requires line != "" && line[0] == '@'
    ensures KindOf(line).Stop?
  {
  }

  lemma {:induction false} HunksReported(hs: seq<Hunk>, rest: seq<string>)
    requires Stops(rest)
    ensures Validate(PrintHunks(hs) + rest) == HunkVerdicts(hs) + Validate(rest)
  {
    hide Validate, PrintHunk, HunkVerdict, Stops;
    if hs == [] {
      assert PrintHunks(hs) + rest == rest && HunkVerdicts(hs) + Validate(rest) == Validate(rest);
    } else {
      var more := PrintHunks(hs[1..]) + rest;
      HunkStops(hs[1..], rest);
      HunkReported(hs[0], more);
      HunksReported(hs[1..], rest);
      assert PrintHunks(hs) + rest == PrintHunk(hs[0]) + more;
    }
  }

  lemma FilesStop(fs: seq<FileDiff>)
    requires forall i :: 0 <= i < |fs| ==> FileOk(fs[i])
    ensures Stops(PrintFiles(fs))
  {
    hide KindOf, Declared, FileOk;
    if fs != [] {
      FileOkMeans(fs[0]);
      assert PrintFiles(fs)[0] == fs[0].lines[0];
    }
  }

  /** On every printed diff of any number of files: one report, in order, for each hunk whose
      declared counts are not the ones observed, and no other. */
  lemma {:induction false} DiffIsReported(fs: seq<FileDiff>)
    requires forall i :: 0 <= i < |fs| ==> FileOk(fs[i])
    ensures Validate(PrintFiles(fs)) == FileVerdicts(fs)
  {
    hide Validate, Stops, HunkVerdicts, Declared, KindOf, FileOk;
    if fs == [] {
      NothingToValidate();
    } else {
      var rest := PrintFiles(fs[1..]);
      assert forall i :: 0 <= i < |fs| - 1 ==> fs[1..][i] == fs[i + 1];
      FilesStop(fs[1..]);
      DiffIsReported(fs[1..]);
      FileOkMeans(fs[0]);
      SkipLines(fs[0].lines, PrintHunks(fs[0].hunks) + rest);
      HunksReported(fs[0].hunks, rest);
    }
  }

  // ---------------------------------------------------------------- when the verdict is right

  lemma {:induction false} VisibleCounts(body: seq<Edit>)
    ensures Hides(body) ==> OldLines(Visible(body)) + NewLines(Visible(body)) < OldLines(body) + NewLines(body)
    ensures !Hides(body) ==> Visible(body) == body
  {
    hide LooksLikeHeader;
    if body != [] {
      VisibleCounts(body[1..]);
      if LooksLikeHeader(body[0]) {
        HeaderIsAnEdit(body[0]);
      } else {
        VisibleCons(body);
      }
    }
  }

  lemma HeaderIsAnEdit(e: Edit)
    ensures LooksLikeHeader(e) ==> e.Minus? || e.Plus?
  {
  }

  /** A correct hunk is reported exactly when one of its lines looks like a file header, or empty
      separator lines follow it. */
  lemma CorrectHunkReportedIff(h: Hunk)
    requires Correct(h)
    ensures HunkVerdict(h) != [] <==> Hides(h.body) || h.blanks > 0
  {
    hide OldLines, NewLines, Visible, Hides;
    VisibleCounts(h.body);
  }

  /** Without such lines, a hunk is reported exactly when its counts disagree with its body. */
  lemma PlainHunkReportedIff(h: Hunk)
    requires !Hides(h.body) && h.blanks == 0
    ensures HunkVerdict(h) != [] <==> !Correct(h)
    ensures |HunkVerdict(h)| <= 1
  {
    hide OldLines, NewLines, Visible, Hides;
    VisibleCounts(h.body);
  }

  lemma {:induction false} NoVerdicts(hs: seq<Hunk>)
    ensures HunkVerdicts(hs) == [] <==> forall i :: 0 <= i < |hs| ==> HunkVerdict(hs[i]) == []
  {
    hide HunkVerdict;
    if hs != [] {
      NoVerdicts(hs[1..]);
      assert forall i :: 1 <= i < |hs| ==> hs[i] == hs[1..][i - 1];
    }
  }

  lemma {:induction false} NoFileVerdicts(fs: seq<FileDiff>)
    ensures FileVerdicts(fs) == [] <==> forall i :: 0 <= i < |fs| ==> HunkVerdicts(fs[i].hunks) == []
  {
    hide HunkVerdicts;
    if fs != [] {
      NoFileVerdicts(fs[1..]);
      assert forall i :: 1 <= i < |fs| ==> fs[i] == fs[1..][i - 1];
    }
  }

  /** A diff of correct hunks passes exactly when no removed line starts with `-- `, no added line
      starts with `++ ` and no empty separator lines follow a hunk. */
  lemma CorrectDiffPassesIff(fs: seq<FileDiff>)
    requires forall i :: 0 <= i < |fs| ==> FileOk(fs[i])
    requires forall i, j :: 0 <= i < |fs| && 0 <= j < |fs[i].hunks| ==> Correct(fs[i].hunks[j])
    ensures Validate(PrintFiles(fs)) == [] <==>
            forall i, j :: 0 <= i < |fs| && 0 <= j < |fs[i].hunks| ==>
              !Hides(fs[i].hunks[j].body) && fs[i].hunks[j].blanks == 0
  {
    hide Validate, PrintFiles, HunkVerdict, HunkVerdicts, FileVerdicts, Hides, Correct, FileOk;
    DiffIsReported(fs);
    NoFileVerdicts(fs);
    forall i | 0 <= i < |fs|
      ensures HunkVerdicts(fs[i].hunks) == [] <==>
              forall j :: 0 <= j < |fs[i].hunks| ==> !Hides(fs[i].hunks[j].body) && fs[i].hunks[j].blanks == 0
    {
      var hs := fs[i].hunks;
      NoVerdicts(hs);
      forall j | 0 <= j < |hs| ensures HunkVerdict(hs[j]) == [] <==> !Hides(hs[j].body) && hs[j].blanks == 0 {
        CorrectHunkReportedIff(hs[j]);
      }
    }
  }

  /** A correct hunk that removes the SQL comment `-- x` is reported. */
  lemma RemovedCommentIsMisjudged()
    ensures var h := Hunk(1, 1, 0, 0, false, "", [Minus("-- x")], 0);
            Correct(h) && HunkVerdict(h) == [HunkError("@@ -1,1 +0,0 @@", 1, 0, 0, 0)]
  {
    var h := Hunk(1, 1, 0, 0, false, "", [Minus("-- x")], 0);
    var e := h.body[0];
    assert e.text[..3] == "-- ";
    assert LooksLikeHeader(e);
    assert h.body[1..] == [];
    assert OldLines(h.body) == 1 && NewLines(h.body) == 0;
    assert Visible(h.body) == [] && Hides(h.body);
    assert Str(1) == "1" && Str(0) == "0";
    assert PrintHeader(h) == "@@ -1,1 +0,0 @@";
  }

  /** The same for the text of the diff, as the validator is given it. */
  lemma DiffTextIsReported(fs: seq<FileDiff>)
    requires forall i :: 0 <= i < |fs| ==> FileOk(fs[i])
    requires AllOneLine(PrintFiles(fs)) && PrintFiles(fs) != []
    ensures Validate(Lines(Join(PrintFiles(fs)) + [LF])) == FileVerdicts(fs)
  {
    hide PrintFiles, FileOk, Validate;
    LinesOfJoinLF(PrintFiles(fs));
    DiffIsReported(fs);
  }
}

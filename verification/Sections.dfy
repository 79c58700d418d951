/** The FRAMEWORK:BEGIN/END region of a hybrid file, and the splice that restores it. */
module Sections {
  import opened Lists
  import opened Text

  const BEGIN := "FRAMEWORK:BEGIN"
  const END := "FRAMEWORK:END"

  /** `[i for i, line in enumerate(ls) if token in line]`, counting from `from`. */
  function Where(ls: seq<string>, token: string, from: nat): seq<nat> {
    if ls == [] then []
    else (if Contains(ls[0], token) then [from] else []) + Where(ls[1..], token, from + 1)
  }

  function SpanOfLines(ls: seq<string>): Option<(nat, nat)> {
    var begins := Where(ls, BEGIN, 0);
    var ends := Where(ls, END, 0);
    if |begins| != 1 || |ends| != 1 || begins[0] >= ends[0] then None else Some((begins[0], ends[0]))
  }

  /** `section_span` */
  function Span(text: string): Option<(nat, nat)> {
    SpanOfLines(Lines(text))
  }

  /** `i` is the only line with `token`. */
  ghost predicate OnlyAt(ls: seq<string>, token: string, i: nat) {
    i < |ls| && forall k :: 0 <= k < |ls| ==> (Contains(ls[k], token) <==> k == i)
  }

  ghost predicate Nowhere(ls: seq<string>, token: string) {
    forall k :: 0 <= k < |ls| ==> !Contains(ls[k], token)
  }

  lemma {:induction false} WhereMeaning(ls: seq<string>, token: string, from: nat)
    ensures Where(ls, token, from) == [] <==> Nowhere(ls, token)
    ensures |Where(ls, token, from)| == 1 ==>
              from <= Where(ls, token, from)[0] && OnlyAt(ls, token, Where(ls, token, from)[0] - from)
  {
    if ls != [] {
      hide Contains;
      WhereMeaning(ls[1..], token, from + 1);
      var rest := Where(ls[1..], token, from + 1);
      assert forall k :: 1 <= k < |ls| ==> ls[k] == ls[1..][k - 1];
      if Contains(ls[0], token) {
        assert Where(ls, token, from) == [from] + rest;
      } else {
        assert Where(ls, token, from) == rest;
      }
    }
  }

  lemma {:induction false} WhereOnly(ls: seq<string>, token: string, from: nat, i: nat)
    requires OnlyAt(ls, token, i)
    ensures Where(ls, token, from) == [from + i]
  {
    hide Contains;
    if i == 0 {
      assert forall k :: 0 <= k < |ls| - 1 ==> ls[1..][k] == ls[k + 1];
      WhereMeaning(ls[1..], token, from + 1);
    } else {
      assert forall k :: 0 <= k < |ls| - 1 ==> ls[1..][k] == ls[k + 1];
      WhereOnly(ls[1..], token, from + 1, i - 1);
    }
  }

  /** There is a section exactly when each marker is on one line and BEGIN comes first. */
  ghost predicate Marked(ls: seq<string>, b: nat, e: nat) {
    b < e && OnlyAt(ls, BEGIN, b) && OnlyAt(ls, END, e)
  }

  lemma SpanIff(ls: seq<string>, b: nat, e: nat)
    ensures SpanOfLines(ls) == Some((b, e)) <==> Marked(ls, b, e)
  {
    WhereMeaning(ls, BEGIN, 0);
    WhereMeaning(ls, END, 0);
    if OnlyAt(ls, BEGIN, b) {
      WhereOnly(ls, BEGIN, 0, b);
    }
    if OnlyAt(ls, END, e) {
      WhereOnly(ls, END, 0, e);
    }
    hide Where;
  }

  lemma SpanMarked(text: string)
    requires Span(text).Some?
    ensures Marked(Lines(text), Span(text).value.0, Span(text).value.1)
  {
    SpanIff(Lines(text), Span(text).value.0, Span(text).value.1);
  }

  /** `section_content` */
  function Content(text: string): Option<string> {
    var span := Span(text);
    var ls := Lines(text);
    if span.None? || !(span.value.0 < span.value.1 <= |ls|) then None
    else Some(Join(ls[span.value.0 + 1..span.value.1]))
  }

  /** The content is the lines between the two markers; there is none exactly when the markers are
      not sound. */
  lemma ContentIs(text: string)
    ensures Content(text).None? <==> forall b: nat, e: nat :: !Marked(Lines(text), b, e)
    ensures forall b: nat, e: nat :: Marked(Lines(text), b, e) ==>
              e < |Lines(text)| && Content(text) == Some(Join(Lines(text)[b + 1..e]))
  {
    forall b: nat, e: nat ensures Span(text) == Some((b, e)) <==> Marked(Lines(text), b, e) {
      SpanIff(Lines(text), b, e);
    }
    hide Lines, Join, SpanOfLines, OnlyAt;
    if Span(text).Some? {
      var (b, e) := Span(text).value;
      assert Marked(Lines(text), b, e);
    }
  }

  function SplicedLines(t: seq<string>, ts: (nat, nat), c: seq<string>, cs: (nat, nat)): seq<string>
    requires ts.0 < ts.1 < |t| && cs.0 < cs.1 < |c|
  {
    t[..ts.0] + c[cs.0..cs.1 + 1] + t[ts.1 + 1..]
  }

  datatype SpliceResult = Spliced(text: string) | TargetDamaged | CanonicalDamaged

  /** `_restore_section` on the two texts: the managed span of `canonical` replaces that of
      `target`; everything outside it, and the final line break, stays the target's. */
  function Splice(target: string, canonical: string): SpliceResult {
    var t, c := Span(target), Span(canonical);
    if t.None? then TargetDamaged
    else if c.None? then CanonicalDamaged
    else
      SpanMarked(target);
      SpanMarked(canonical);
      Spliced(Join(SplicedLines(Lines(target), t.value, Lines(canonical), c.value))
              + (if EndsWithLF(target) then [LF] else ""))
  }

  // ---------------------------------------------------------------- the splice

  /** The spliced lines carry one sound section, at a span known beforehand. */
  lemma SplicedMarked(t: seq<string>, ts: (nat, nat), c: seq<string>, cs: (nat, nat))
    requires Marked(t, ts.0, ts.1) && Marked(c, cs.0, cs.1)
    ensures Marked(SplicedLines(t, ts, c, cs), ts.0, ts.0 + (cs.1 - cs.0))
  {
    SplicedOnly(t, ts, c, cs, BEGIN, ts.0, cs.0);
    SplicedOnly(t, ts, c, cs, END, ts.1, cs.1);
  }

  lemma SplicedOnly(t: seq<string>, ts: (nat, nat), c: seq<string>, cs: (nat, nat), token: string, i: nat, j: nat)
    requires ts.0 < ts.1 < |t| && cs.0 < cs.1 < |c|
    requires OnlyAt(t, token, i) && ts.0 <= i <= ts.1
    requires OnlyAt(c, token, j) && cs.0 <= j <= cs.1
    ensures OnlyAt(SplicedLines(t, ts, c, cs), token, ts.0 + (j - cs.0))
  {
    hide Contains;
    var r := SplicedLines(t, ts, c, cs);
    var n := cs.1 - cs.0 + 1;
    forall k | 0 <= k < |r| ensures Contains(r[k], token) <==> k == ts.0 + (j - cs.0) {
      if k < ts.0 {
        assert r[k] == t[k];
      } else if k < ts.0 + n {
        assert r[k] == c[cs.0 + (k - ts.0)];
      } else {
        assert r[k] == t[ts.1 + 1 + (k - ts.0 - n)];
      }
    }
  }

  lemma SplicedOneLine(t: seq<string>, ts: (nat, nat), c: seq<string>, cs: (nat, nat))
    requires ts.0 < ts.1 < |t| && cs.0 < cs.1 < |c|
    requires AllOneLine(t) && AllOneLine(c)
    ensures AllOneLine(SplicedLines(t, ts, c, cs))
  {
  }

  lemma MarkerNotEmpty(line: string, token: string)
    requires Contains(line, token) && token != ""
    ensures line != ""
  {
  }

  /** The last line of a splice is not empty when the target has no final line break. */
  lemma SplicedLast(t: seq<string>, ts: (nat, nat), c: seq<string>, cs: (nat, nat))
    requires Marked(t, ts.0, ts.1) && Marked(c, cs.0, cs.1)
    requires t[|t| - 1] != ""
    ensures var r := SplicedLines(t, ts, c, cs); r != [] && r[|r| - 1] != ""
  {
    hide Contains;
    var r := SplicedLines(t, ts, c, cs);
    if ts.1 == |t| - 1 {
      assert r[|r| - 1] == c[cs.1];
      MarkerNotEmpty(c[cs.1], END);
    } else {
      assert r[|r| - 1] == t[|t| - 1];
    }
  }

  /** Splitting the spliced text gives exactly the spliced lines. */
  lemma LinesOfSplice(target: string, canonical: string)
    requires Span(target).Some? && Span(canonical).Some?
    ensures var r := Splice(target, canonical);
            var t, c := Span(target).value, Span(canonical).value;
            && t.0 < t.1 < |Lines(target)| && c.0 < c.1 < |Lines(canonical)|
            && r.Spliced?
            && Lines(r.text) == SplicedLines(Lines(target), t, Lines(canonical), c)
            && (EndsWithLF(r.text) <==> EndsWithLF(target))
  {
    SpanMarked(target);
    SpanMarked(canonical);
    LinesAreLines(target);
    LinesAreLines(canonical);
    JoinOfLines(target);
    hide Lines, Join, EndsWithLF, OneLine, Span, Contains;
    var t, c := Span(target).value, Span(canonical).value;
    var ls := SplicedLines(Lines(target), t, Lines(canonical), c);
    SplicedOneLine(Lines(target), t, Lines(canonical), c);
    if EndsWithLF(target) {
      LinesOfJoinLF(ls);
      JoinEndsLF(ls);
    } else {
      EmptyHasNoLines();
      SplicedLast(Lines(target), t, Lines(canonical), c);
      LinesOfJoin(ls);
      JoinedLast(ls);
      assert Join(ls) + "" == Join(ls);
    }
  }

  lemma EmptyHasNoLines()
    ensures Lines("") == []
  {
  }

  lemma JoinEndsLF(ls: seq<string>)
    ensures EndsWithLF(Join(ls) + [LF])
  {
  }

  /** Restoring a section: for every pair of texts with sound markers the result has sound
      markers at a span known beforehand, the canonical section with its marker lines, the
      target's lines before and after, and the target's final line break. */
  lemma SpliceRestores(target: string, canonical: string)
    requires Span(target).Some? && Span(canonical).Some?
    ensures var r := Splice(target, canonical);
            && r.Spliced?
            && (var t, c := Span(target).value, Span(canonical).value;
                && t.0 < t.1 < |Lines(target)| && c.0 < c.1
                && Span(r.text) == Some((t.0, t.0 + (c.1 - c.0)))
                && |Lines(r.text)| == |Lines(target)| - (t.1 - t.0) + (c.1 - c.0)
                && c.1 < |Lines(canonical)|
                && Lines(r.text)[..t.0] == Lines(target)[..t.0]
                && Lines(r.text)[t.0..t.0 + (c.1 - c.0) + 1] == Lines(canonical)[c.0..c.1 + 1]
                && Lines(r.text)[t.0 + (c.1 - c.0) + 1..] == Lines(target)[t.1 + 1..])
            && Content(r.text) == Content(canonical) && Content(canonical).Some?
            && (EndsWithLF(r.text) <==> EndsWithLF(target))
  {
    hide Lines, Join, EndsWithLF, SpanOfLines, OnlyAt, Splice, Span, Content, SplicedLines, Marked;
    LinesOfSplice(target, canonical);
    SpliceSpan(target, canonical);
    SpliceContent(target, canonical);
    SplicedParts(Lines(target), Span(target).value, Lines(canonical), Span(canonical).value);
  }

  lemma SpliceSpan(target: string, canonical: string)
    requires Span(target).Some? && Span(canonical).Some?
    ensures var t, c := Span(target).value, Span(canonical).value;
            && Splice(target, canonical).Spliced? && t.0 < t.1 && c.0 < c.1
            && Span(Splice(target, canonical).text) == Some((t.0, t.0 + (c.1 - c.0)))
  {
    LinesOfSplice(target, canonical);
    SpanMarked(target);
    SpanMarked(canonical);
    hide Lines, EndsWithLF, SpanOfLines, OnlyAt, Splice;
    var t, c := Span(target).value, Span(canonical).value;
    SplicedMarked(Lines(target), t, Lines(canonical), c);
    SpanIff(Lines(Splice(target, canonical).text), t.0, t.0 + (c.1 - c.0));
  }

  lemma SpliceContent(target: string, canonical: string)
    requires Span(target).Some? && Span(canonical).Some?
    ensures Splice(target, canonical).Spliced?
    ensures Content(Splice(target, canonical).text) == Content(canonical) && Content(canonical).Some?
  {
    hide Lines, EndsWithLF, SpanOfLines, OnlyAt, Splice, Span, Join, SplicedLines;
    LinesOfSplice(target, canonical);
    SpliceSpan(target, canonical);
    SplicedParts(Lines(target), Span(target).value, Lines(canonical), Span(canonical).value);
  }

  lemma SplicedParts(t: seq<string>, ts: (nat, nat), c: seq<string>, cs: (nat, nat))
    requires ts.0 < ts.1 < |t| && cs.0 < cs.1 < |c|
    ensures var r := SplicedLines(t, ts, c, cs);
            var e := ts.0 + (cs.1 - cs.0);
            && |r| == |t| - (ts.1 - ts.0) + (cs.1 - cs.0)
            && r[..ts.0] == t[..ts.0]
            && r[ts.0 + 1..e] == c[cs.0 + 1..cs.1]
            && r[ts.0..e + 1] == c[cs.0..cs.1 + 1]
            && r[e + 1..] == t[ts.1 + 1..]
            && e < |r|
  {
    var r := SplicedLines(t, ts, c, cs);
    var e := ts.0 + (cs.1 - cs.0);
    assert r[..ts.0] == t[..ts.0];
    var x, y := r[ts.0 + 1..e], c[cs.0 + 1..cs.1];
    forall k | 0 <= k < |x| ensures x[k] == y[k] {
      assert r[ts.0 + 1 + k] == c[cs.0..cs.1 + 1][1 + k];
    }
    assert r[ts.0 + 1..e] == c[cs.0 + 1..cs.1];
    assert r[ts.0..e + 1] == c[cs.0..cs.1 + 1];
    assert r[e + 1..] == t[ts.1 + 1..];
  }

  /** The restore fails exactly when one of the two has no sound markers, and blames the target first. */
  lemma SpliceFailsIff(target: string, canonical: string)
    ensures Splice(target, canonical).TargetDamaged? <==> Span(target).None?
    ensures Splice(target, canonical).CanonicalDamaged? <==> Span(target).Some? && Span(canonical).None?
  {
  }

  /** A second restore changes nothing. */
  lemma SpliceTwice(target: string, canonical: string)
    requires Span(target).Some? && Span(canonical).Some?
    ensures Splice(target, canonical).Spliced?
    ensures Splice(Splice(target, canonical).text, canonical) == Splice(target, canonical)
  {
    LinesOfSplice(target, canonical);
    SpliceRestores(target, canonical);
    var r := Splice(target, canonical).text;
    LinesOfSplice(r, canonical);
    SpanMarked(target);
    SpanMarked(canonical);
    var t, c := Span(target).value, Span(canonical).value;
    SplicedTwice(Lines(target), t, Lines(canonical), c);
    hide Lines, Join, Span, EndsWithLF;
  }

  lemma SplicedTwice(t: seq<string>, ts: (nat, nat), c: seq<string>, cs: (nat, nat))
    requires ts.0 < ts.1 < |t| && cs.0 < cs.1 < |c|
    ensures var r := SplicedLines(t, ts, c, cs);
            var e := ts.0 + (cs.1 - cs.0);
            ts.0 < e < |r| && SplicedLines(r, (ts.0, e), c, cs) == r
  {
    SplicedParts(t, ts, c, cs);
  }
}

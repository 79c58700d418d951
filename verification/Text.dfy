/** Python text on files whose only line break is LF: `splitlines`, `"\n".join`, `strip`. */
module Text {

  const LF: char := '\n'

  predicate OneLine(s: string) {
    LF !in s
  }

  ghost predicate AllOneLine(ls: seq<string>) {
    forall l :: l in ls ==> OneLine(l)
  }

  /** The index of the first `c`, or the length when there is none. */
  function Find(s: string, c: char): (i: nat)
    ensures i <= |s| && c !in s[..i] && (i < |s| ==> s[i] == c)
  {
    if s == "" || s[0] == c then 0 else 1 + Find(s[1..], c)
  }

  /** `str.splitlines`: the last line counts even without a line break after it. */
  function Lines(t: string): seq<string>
    decreases |t|
  {
    var i := Find(t, LF);
    if t == "" then []
    else if i == |t| then [t]
    else [t[..i]] + Lines(t[i + 1..])
  }

  /** `"\n".join(ls)` */
  function Join(ls: seq<string>): string {
    if ls == [] then "" else if |ls| == 1 then ls[0] else ls[0] + [LF] + Join(ls[1..])
  }

  predicate EndsWithLF(t: string) {
    t != "" && t[|t| - 1] == LF
  }

  lemma FindIn(a: string, c: char, b: string)
    requires c !in a
    ensures Find(a + [c] + b, c) == |a|
  {
    var s := a + [c] + b;
    var i := Find(s, c);
    assert forall k :: 0 <= k < |a| ==> s[k] == a[k] && s[k] in a;
    assert s[|a|] == c;
    assert forall k :: 0 <= k < i ==> s[k] in s[..i];
  }

  lemma FindNone(a: string, c: char)
    requires c !in a
    ensures Find(a, c) == |a|
  {
  }

  lemma {:induction false} LinesAreLines(t: string)
    ensures AllOneLine(Lines(t))
    decreases |t|
  {
    var i := Find(t, LF);
    if t != "" && i < |t| {
      LinesAreLines(t[i + 1..]);
    }
  }

  /** A line followed by the rest. */
  lemma LinesCons(a: string, b: string)
    requires OneLine(a)
    ensures Lines(a + [LF] + b) == [a] + Lines(b)
  {
    var t := a + [LF] + b;
    FindIn(a, LF, b);
    assert t[..|a|] == a && t[|a| + 1..] == b;
  }

  /** Writing lines with a final line break and splitting them again gives them back. */
  lemma {:induction false} LinesOfJoinLF(ls: seq<string>)
    requires AllOneLine(ls) && ls != []
    ensures Lines(Join(ls) + [LF]) == ls
  {
    assert ls[0] in ls;
    if |ls| == 1 {
      LinesCons(ls[0], "");
      assert Join(ls) + [LF] == ls[0] + [LF] + "";
    } else {
      LinesOfJoinLF(ls[1..]);
      LinesCons(ls[0], Join(ls[1..]) + [LF]);
      hide Lines;
      Regroup(ls[0], Join(ls[1..]));
    }
  }

  lemma Regroup(a: string, b: string)
    ensures a + [LF] + b + [LF] == a + [LF] + (b + [LF])
  {
  }

  /** Without a final line break, one trailing empty line is lost. */
  lemma {:induction false} LinesOfJoin(ls: seq<string>)
    requires AllOneLine(ls)
    ensures Lines(Join(ls)) == if ls != [] && ls[|ls| - 1] == "" then ls[..|ls| - 1] else ls
  {
    if ls == [] {
    } else if |ls| == 1 {
      if ls[0] != "" {
        assert ls[0] in ls;
        FindNone(ls[0], LF);
      }
    } else {
      LinesOfJoin(ls[1..]);
      LinesCons(ls[0], Join(ls[1..]));
      var rest := ls[1..];
      assert rest[|rest| - 1] == ls[|ls| - 1];
      assert ls == [ls[0]] + rest && ls[..|ls| - 1] == [ls[0]] + rest[..|rest| - 1];
    }
  }

  lemma SplitAt(t: string, i: nat)
    requires i < |t| && t[i] == LF
    ensures t == t[..i] + [LF] + t[i + 1..]
  {
  }

  lemma JoinCons(a: string, ls: seq<string>)
    ensures Join([a] + ls) == if ls == [] then a else a + [LF] + Join(ls)
  {
    if ls != [] {
      assert ([a] + ls)[1..] == ls;
    }
  }

  lemma EndsOfCons(a: string, b: string)
    ensures EndsWithLF(a + [LF] + b) == (b == "" || EndsWithLF(b))
  {
    var t := a + [LF] + b;
    if b == "" {
      assert t[|t| - 1] == LF;
    } else {
      assert t[|t| - 1] == b[|b| - 1];
    }
  }

  /** Splitting a text and joining it again gives it back, up to the final line break. */
  lemma {:induction false} JoinOfLines(t: string)
    ensures EndsWithLF(t) ==> Lines(t) != [] && Join(Lines(t)) + [LF] == t
    ensures !EndsWithLF(t) ==> Join(Lines(t)) == t
    ensures !EndsWithLF(t) && t != "" ==> Lines(t) != [] && Lines(t)[|Lines(t)| - 1] != ""
    decreases |t|
  {
    var i := Find(t, LF);
    if t != "" && i < |t| {
      var a, b := t[..i], t[i + 1..];
      JoinOfLines(b);
      SplitAt(t, i);
      JoinOfLinesCons(a, b);
    }
  }

  lemma JoinOfLinesCons(a: string, b: string)
    requires OneLine(a)
    requires EndsWithLF(b) ==> Lines(b) != [] && Join(Lines(b)) + [LF] == b
    requires !EndsWithLF(b) ==> Join(Lines(b)) == b
    requires !EndsWithLF(b) && b != "" ==> Lines(b) != [] && Lines(b)[|Lines(b)| - 1] != ""
    ensures var t := a + [LF] + b;
            && (EndsWithLF(t) ==> Lines(t) != [] && Join(Lines(t)) + [LF] == t)
            && (!EndsWithLF(t) ==> Join(Lines(t)) == t && Lines(t) != [] && Lines(t)[|Lines(t)| - 1] != "")
  {
    LinesCons(a, b);
    JoinCons(a, Lines(b));
    EndsOfCons(a, b);
    assert b == "" ==> Lines(b) == [];
    assert !EndsWithLF("");
    hide Lines, Join, EndsWithLF, OneLine;
    var ls := Lines(b);
    if b == "" {
      assert [a] + ls == [a] && a + [LF] + b == a + [LF];
    } else if EndsWithLF(b) {
      Append(a, Join(ls), b);
    } else {
      assert ([a] + ls)[|ls|] == ls[|ls| - 1];
    }
  }

  lemma Append(a: string, j: string, b: string)
    requires j + [LF] == b
    ensures a + [LF] + j + [LF] == a + [LF] + b
  {
  }

  lemma {:induction false} JoinedLast(ls: seq<string>)
    requires AllOneLine(ls) && ls != [] && ls[|ls| - 1] != ""
    ensures Join(ls) != "" && !EndsWithLF(Join(ls))
  {
    if |ls| == 1 {
      assert ls[0] in ls;
    } else {
      JoinedLast(ls[1..]);
      assert ls == [ls[0]] + ls[1..];
      JoinCons(ls[0], ls[1..]);
      EndsOfCons(ls[0], Join(ls[1..]));
    }
  }

  /** The text the rewriting functions write back: joined lines, with a final line break when
      the original was empty or had one. */
  function Rewritten(original: string, ls: seq<string>): string {
    Join(ls) + (if original == "" || EndsWithLF(original) then [LF] else "")
  }

  lemma Differ(a: string, b: string, i: nat)
    requires |a| != |b| || (i < |a| && a[i] != b[i])
    ensures a != b
  {
  }

  // ---------------------------------------------------------------- order

  /** `<=` on strings, by code point. */
  predicate AtMost(a: string, b: string) {
    a == "" || (b != "" && (a[0] < b[0] || (a[0] == b[0] && AtMost(a[1..], b[1..]))))
  }

  lemma {:induction false} AtMostTotal(a: string, b: string)
    ensures AtMost(a, b) || AtMost(b, a)
  {
    if a != "" && b != "" && a[0] == b[0] {
      AtMostTotal(a[1..], b[1..]);
    }
  }

  lemma {:induction false} AtMostTransitive(a: string, b: string, c: string)
    requires AtMost(a, b) && AtMost(b, c)
    ensures AtMost(a, c)
  {
    if a != "" && a[0] == b[0] == c[0] {
      AtMostTransitive(a[1..], b[1..], c[1..]);
    }
  }

  lemma {:induction false} AtMostAntisymmetric(a: string, b: string)
    requires AtMost(a, b) && AtMost(b, a)
    ensures a == b
  {
    if a != "" {
      AtMostAntisymmetric(a[1..], b[1..]);
      assert a == [a[0]] + a[1..] && b == [b[0]] + b[1..];
    }
  }

  /** A strictly ascending list of strings: sorted, without duplicates. */
  ghost predicate Ascending(s: seq<string>) {
    forall i, j :: 0 <= i < j < |s| ==> AtMost(s[i], s[j]) && s[i] != s[j]
  }

  // ---------------------------------------------------------------- substring

  predicate At(s: string, sub: string, i: nat) {
    i + |sub| <= |s| && s[i..i + |sub|] == sub
  }

  /** `sub in s` */
  predicate Contains(s: string, sub: string) {
    exists i :: 0 <= i <= |s| && At(s, sub, i)
  }

  lemma ContainsIff(s: string, sub: string)
    ensures Contains(s, sub) <==> exists a, b :: s == a + sub + b
  {
    if Contains(s, sub) {
      var i :| 0 <= i <= |s| && At(s, sub, i);
      assert s == s[..i] + sub + s[i + |sub|..];
    }
    if a, b :| s == a + sub + b {
      assert At(s, sub, |a|);
    }
  }

  // ---------------------------------------------------------------- strip

  /** `str.isspace` */
  predicate Space(c: char) {
    var n := c as int;
    || 0x09 <= n <= 0x0d || 0x1c <= n <= 0x20 || n == 0x85 || n == 0xa0 || n == 0x1680
    || 0x2000 <= n <= 0x200a || n == 0x2028 || n == 0x2029 || n == 0x202f || n == 0x205f || n == 0x3000
  }

  /** The first position from `i` on that is no space, or the length. */
  function FirstInk(s: string, i: nat): (a: nat)
    requires i <= |s|
    ensures i <= a <= |s| && (a < |s| ==> !Space(s[a]))
    decreases |s| - i
  {
    if i < |s| && Space(s[i]) then FirstInk(s, i + 1) else i
  }

  /** The end of what is before the trailing spaces, not going below `a`. */
  function InkEnd(s: string, a: nat, i: nat): (e: nat)
    requires a <= i <= |s|
    ensures a <= e <= i && (a < e ==> !Space(s[e - 1]))
    decreases i
  {
    if a < i && Space(s[i - 1]) then InkEnd(s, a, i - 1) else i
  }

  /** `str.lstrip` */
  function StripLeft(s: string): string {
    s[FirstInk(s, 0)..]
  }

  /** `str.strip` */
  function Strip(s: string): string {
    var a := FirstInk(s, 0);
    s[a..InkEnd(s, a, |s|)]
  }

  predicate Stripped(s: string) {
    s == "" || (!Space(s[0]) && !Space(s[|s| - 1]))
  }

  lemma StripIsStripped(s: string)
    ensures Stripped(Strip(s))
    ensures Stripped(s) ==> Strip(s) == s
  {
    var a := FirstInk(s, 0);
    var e := InkEnd(s, a, |s|);
    if a < e {
      assert Strip(s)[0] == s[a] && Strip(s)[e - a - 1] == s[e - 1];
    }
    if Stripped(s) && s != "" {
      assert a == 0 && e == |s|;
    }
    hide Space;
  }

  predicate AllSpace(s: string) {
    forall i :: 0 <= i < |s| ==> Space(s[i])
  }

  lemma {:induction false} FirstInkOver(s: string, i: nat, n: nat)
    requires i <= n < |s| && !Space(s[n]) && forall k :: i <= k < n ==> Space(s[k])
    ensures FirstInk(s, i) == n
    decreases n - i
  {
    hide Space;
    if i < n {
      FirstInkOver(s, i + 1, n);
    }
  }

  lemma {:induction false} InkEndOver(s: string, a: nat, i: nat, n: nat)
    requires a < n <= i <= |s| && !Space(s[n - 1]) && forall k :: n <= k < i ==> Space(s[k])
    ensures InkEnd(s, a, i) == n
    decreases i
  {
    hide Space;
    if i > n {
      InkEndOver(s, a, i - 1, n);
    }
  }

  lemma StripParts(s: string)
    ensures exists a, b :: AllSpace(a) && AllSpace(b) && s == a + Strip(s) + b
    ensures Stripped(Strip(s))
  {
    StripIsStripped(s);
    var i := FirstInk(s, 0);
    var e := InkEnd(s, i, |s|);
    BlanksBefore(s, 0);
    BlanksAfter(s, i, |s|);
    hide Space;
    assert s == s[..i] + s[i..e] + s[e..];
    assert AllSpace(s[..i]) && AllSpace(s[e..]);
  }

  lemma {:induction false} BlanksBefore(s: string, i: nat)
    requires i <= |s|
    ensures forall k :: i <= k < FirstInk(s, i) ==> Space(s[k])
    decreases |s| - i
  {
    hide Space;
    if i < |s| && Space(s[i]) {
      BlanksBefore(s, i + 1);
    }
  }

  lemma {:induction false} BlanksAfter(s: string, a: nat, i: nat)
    requires a <= i <= |s|
    ensures forall k :: InkEnd(s, a, i) <= k < i ==> Space(s[k])
    decreases i
  {
    hide Space;
    if a < i && Space(s[i - 1]) {
      BlanksAfter(s, a, i - 1);
    }
  }

  /** Stripping takes the blanks off, and nothing else. */
  lemma StripOff(a: string, s: string, b: string)
    requires AllSpace(a) && AllSpace(b) && Stripped(s)
    ensures Strip(a + s + b) == s
  {
    hide Space;
    var t := a + s + b;
    var i := FirstInk(t, 0);
    var e := InkEnd(t, i, |t|);
    BlanksBefore(t, 0);
    BlanksAfter(t, i, |t|);
    assert forall k :: 0 <= k < |a| ==> t[k] == a[k];
    assert forall k :: |a| <= k < |a| + |s| ==> t[k] == s[k - |a|];
    assert forall k :: |a| + |s| <= k < |t| ==> t[k] == b[k - |a| - |s|];
    if s == "" {
      assert forall k :: 0 <= k < |t| ==> Space(t[k]);
    } else {
      assert !Space(t[|a|]) && !Space(t[|a| + |s| - 1]);
      assert i == |a| && e == |a| + |s|;
    }
    assert t[|a|..|a| + |s|] == s;
  }
}

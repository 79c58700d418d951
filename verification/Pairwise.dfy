/** The greedy pairwise cover of the battery matrix: every pair of batteries in some combination. */
module Pairwise {
  import opened Lists
  import opened Text
  import Batteries

  /** An unordered pair of different names, the smaller first. */
  type Pair = (string, string)

  function PairOf(a: string, b: string): Pair {
    if AtMost(a, b) then (a, b) else (b, a)
  }

  function PairsOf(names: set<string>): set<Pair> {
    set a, b | a in names && b in names && a != b && AtMost(a, b) :: (a, b)
  }

  /** The order of sorted pairs, by the first name and then the second. */
  predicate Earlier(p: Pair, q: Pair) {
    if p.0 == q.0 then AtMost(p.1, q.1) else AtMost(p.0, q.0)
  }

  lemma EarlierOrder(p: Pair, q: Pair, r: Pair)
    ensures Earlier(p, q) || Earlier(q, p)
    ensures Earlier(p, q) && Earlier(q, r) ==> Earlier(p, r)
    ensures Earlier(p, q) && Earlier(q, p) ==> p == q
  {
    hide AtMost;
    AtMostTotal(p.0, q.0);
    AtMostTotal(p.1, q.1);
    if AtMost(p.0, q.0) && AtMost(q.0, p.0) { AtMostAntisymmetric(p.0, q.0); }
    if AtMost(p.1, q.1) && AtMost(q.1, p.1) { AtMostAntisymmetric(p.1, q.1); }
    if AtMost(p.0, q.0) && AtMost(q.0, r.0) {
      AtMostTransitive(p.0, q.0, r.0);
      if p.0 == r.0 { AtMostAntisymmetric(p.0, q.0); }
    }
    if AtMost(p.1, q.1) && AtMost(q.1, r.1) { AtMostTransitive(p.1, q.1, r.1); }
  }

  ghost predicate IsLeast(u: set<Pair>, p: Pair) {
    p in u && forall q :: q in u ==> Earlier(p, q)
  }

  /** `min(uncovered, key=sorted)` */
  method LeastPair(u: set<Pair>) returns (p: Pair)
    requires u != {}
    ensures IsLeast(u, p)
  {
    hide Earlier;
    p :| p in u;
    var rest := u - {p};
    EarlierOrder(p, p, p);
    while rest != {}
      invariant rest <= u && p in u
      invariant forall q :: q in u && q !in rest ==> Earlier(p, q)
      decreases |rest|
    {
      var q :| q in rest;
      ghost var was := p;
      EarlierOrder(p, q, q);
      if Earlier(q, p) {
        forall x | x in u && Earlier(p, x) ensures Earlier(q, x) { EarlierOrder(q, p, x); }
        EarlierOrder(q, q, q);
        p := q;
      }
      rest := rest - {q};
    }
  }

  // ---------------------------------------------------------------- growing one combination

  /** How many uncovered pairs `c` makes with the chosen names. */
  function Gain(u: set<Pair>, chosen: seq<string>, c: string): nat {
    if chosen == [] then 0 else (if PairOf(c, chosen[0]) in u then 1 else 0) + Gain(u, chosen[1..], c)
  }

  /** The first name with the greatest gain above `gain`, and else `best`. */
  function Best(names: seq<string>, u: set<Pair>, chosen: seq<string>, best: Option<string>, gain: nat): Option<string> {
    if names == [] then best
    else if names[0] in chosen || Gain(u, chosen, names[0]) <= gain then Best(names[1..], u, chosen, best, gain)
    else Best(names[1..], u, chosen, Some(names[0]), Gain(u, chosen, names[0]))
  }

  function Grow(names: seq<string>, u: set<Pair>, chosen: seq<string>, maxSize: int): seq<string>
    decreases maxSize - |chosen|
  {
    if |chosen| >= maxSize then chosen
    else
      var b := Best(names, u, chosen, None, 0);
      if b.None? then chosen else Grow(names, u, chosen + [b.value], maxSize)
  }

  /** `sorted` on a list of distinct names. */
  function Sorted(names: seq<string>): seq<string> {
    if names == [] then []
    else
      var r := Sorted(names[1..]);
      var k := Batteries.InsertAt(names[0], r);
      r[..k] + [names[0]] + r[k..]
  }

  lemma {:induction false} SortedAscends(names: seq<string>)
    requires Distinct(names)
    ensures Ascending(Sorted(names)) && ToSet(Sorted(names)) == ToSet(names) && |Sorted(names)| == |names|
  {
    if names != [] {
      hide Ascending, Batteries.InsertAt;
      var rest := names[1..];
      assert Distinct(rest) && names[0] !in rest;
      SortedAscends(rest);
      assert names[0] !in Sorted(rest) by { assert names[0] !in ToSet(Sorted(rest)); }
      Batteries.InsertAtSplits(names[0], Sorted(rest));
      Batteries.Inserted(names[0], Sorted(rest), Batteries.InsertAt(names[0], Sorted(rest)));
      assert ToSet(names) == {names[0]} + ToSet(rest);
    } else {
      assert Sorted(names) == names;
    }
  }

  /** The combination grown from a pair. */
  function Combo(names: seq<string>, u: set<Pair>, seed: Pair, maxSize: int): seq<string> {
    Sorted(Grow(names, u, [seed.0, seed.1], maxSize))
  }

  lemma {:induction false} GainZeroIff(u: set<Pair>, chosen: seq<string>, c: string)
    ensures Gain(u, chosen, c) == 0 <==> forall x :: x in chosen ==> PairOf(c, x) !in u
  {
    hide PairOf;
    if chosen != [] {
      GainZeroIff(u, chosen[1..], c);
      assert forall x :: x in chosen <==> x == chosen[0] || x in chosen[1..];
    }
  }

  /** The chosen name has the greatest gain of all, and none is chosen exactly when nothing gains. */
  lemma {:induction false} BestMeaning(names: seq<string>, u: set<Pair>, chosen: seq<string>, best: Option<string>, gain: nat)
    ensures var b := Best(names, u, chosen, best, gain);
            && ((b == best && (forall n :: n in names && n !in chosen ==> Gain(u, chosen, n) <= gain))
                || (b.Some? && b.value in names && b.value !in chosen && Gain(u, chosen, b.value) > gain
                    && forall n :: n in names && n !in chosen ==> Gain(u, chosen, n) <= Gain(u, chosen, b.value)))
  {
    hide Gain;
    if names != [] {
      assert forall n :: n in names <==> n == names[0] || n in names[1..];
      if names[0] in chosen || Gain(u, chosen, names[0]) <= gain {
        BestMeaning(names[1..], u, chosen, best, gain);
      } else {
        BestMeaning(names[1..], u, chosen, Some(names[0]), Gain(u, chosen, names[0]));
      }
    }
  }

  /** The gain of a name is the number of chosen names it makes an uncovered pair with. */
  lemma {:induction false} GainCounts(u: set<Pair>, chosen: seq<string>, c: string)
    requires Distinct(chosen)
    ensures Gain(u, chosen, c) == |set x | x in chosen && PairOf(c, x) in u|
  {
    hide PairOf;
    if chosen != [] {
      var rest := chosen[1..];
      assert Distinct(rest) && chosen[0] !in rest;
      GainCounts(u, rest, c);
      assert (set x | x in chosen && PairOf(c, x) in u) ==
             (set x | x in rest && PairOf(c, x) in u) + if PairOf(c, chosen[0]) in u then {chosen[0]} else {};
    } else {
      assert (set x | x in chosen && PairOf(c, x) in u) == {};
    }
  }

  /** The `k`-th name is free, gains more than `gain` and than every free name before it, and no less
      than any after it. */
  ghost predicate FirstGreatest(names: seq<string>, u: set<Pair>, chosen: seq<string>, gain: nat, k: int) {
    && 0 <= k < |names| && names[k] !in chosen && Gain(u, chosen, names[k]) > gain
    && (forall j :: 0 <= j < k && names[j] !in chosen ==> Gain(u, chosen, names[j]) < Gain(u, chosen, names[k]))
    && (forall j :: k < j < |names| && names[j] !in chosen ==> Gain(u, chosen, names[j]) <= Gain(u, chosen, names[k]))
  }

  lemma {:induction false} BestIsFirst(names: seq<string>, u: set<Pair>, chosen: seq<string>, best: Option<string>, gain: nat)
    ensures var b := Best(names, u, chosen, best, gain);
            || (b == best && forall n :: n in names && n !in chosen ==> Gain(u, chosen, n) <= gain)
            || (exists k :: FirstGreatest(names, u, chosen, gain, k) && b == Some(names[k]))
  {
    hide Gain;
    if names != [] {
      var rest := names[1..];
      assert forall n :: n in names <==> n == names[0] || n in rest;
      assert forall j :: 0 < j < |names| ==> names[j] == rest[j - 1];
      var skip := names[0] in chosen || Gain(u, chosen, names[0]) <= gain;
      var best', gain' := if skip then best else Some(names[0]), if skip then gain else Gain(u, chosen, names[0]);
      BestIsFirst(rest, u, chosen, best', gain');
      if k :| FirstGreatest(rest, u, chosen, gain', k) && Best(rest, u, chosen, best', gain') == Some(rest[k]) {
        assert FirstGreatest(names, u, chosen, gain, k + 1);
      } else if !skip {
        assert forall j :: 0 < j < |names| ==> names[j] in rest;
        assert FirstGreatest(names, u, chosen, gain, 0);
      }
    }
  }

  /** Each name added to a combination is the first with the greatest positive gain over what was
      chosen before it. */
  lemma {:induction false} GrowIsGreedy(names: seq<string>, u: set<Pair>, chosen: seq<string>, maxSize: int, i: nat)
    requires |chosen| <= i < |Grow(names, u, chosen, maxSize)|
    ensures var c := Grow(names, u, chosen, maxSize);
            exists k :: FirstGreatest(names, u, c[..i], 0, k) && c[i] == names[k]
    decreases maxSize - |chosen|
  {
    hide Gain, Best, FirstGreatest;
    GrowExtends(names, u, chosen, maxSize);
    var b := Best(names, u, chosen, None, 0);
    assert |chosen| < maxSize && b.Some?;
    var more := chosen + [b.value];
    GrowExtends(names, u, more, maxSize);
    if i == |chosen| {
      BestIsFirst(names, u, chosen, None, 0);
      assert Grow(names, u, chosen, maxSize)[..|more|][i] == more[i];
    } else {
      GrowIsGreedy(names, u, more, maxSize, i);
    }
  }

  lemma {:induction false} GrowExtends(names: seq<string>, u: set<Pair>, chosen: seq<string>, maxSize: int)
    ensures var c := Grow(names, u, chosen, maxSize); |chosen| <= |c| && c[..|chosen|] == chosen
    decreases maxSize - |chosen|
  {
    hide Best;
    if |chosen| < maxSize {
      var b := Best(names, u, chosen, None, 0);
      if b.Some? {
        GrowExtends(names, u, chosen + [b.value], maxSize);
        var c := Grow(names, u, chosen + [b.value], maxSize);
        assert c[..|chosen|] == c[..|chosen| + 1][..|chosen|];
      }
    }
  }

  /** Growing keeps what was chosen, chooses known names once each, and stops when the
      combination is full or no other name would cover a new pair. */
  lemma {:induction false} GrowMeaning(names: seq<string>, u: set<Pair>, chosen: seq<string>, maxSize: int)
    requires Distinct(chosen) && forall n :: n in chosen ==> n in names
    ensures var c := Grow(names, u, chosen, maxSize);
            && Distinct(c) && |chosen| <= |c| && c[..|chosen|] == chosen
            && (forall n :: n in c ==> n in names)
            && (|c| <= |chosen| || |c| <= maxSize)
            && (|c| >= maxSize || forall n, x :: n in names && n !in c && x in c ==> PairOf(n, x) !in u)
    decreases maxSize - |chosen|
  {
    hide Gain, Best, PairOf;
    if |chosen| < maxSize {
      BestMeaning(names, u, chosen, None, 0);
      var b := Best(names, u, chosen, None, 0);
      if b.Some? {
        assert Distinct(chosen + [b.value]);
        GrowMeaning(names, u, chosen + [b.value], maxSize);
        assert (chosen + [b.value])[..|chosen|] == chosen;
      } else {
        forall n | n in names && n !in chosen ensures forall x :: x in chosen ==> PairOf(n, x) !in u {
          GainZeroIff(u, chosen, n);
        }
      }
    }
  }

  // ---------------------------------------------------------------- the cover

  /** The combinations from here on: each from the least uncovered pair. */
  ghost predicate IsCover(names: seq<string>, u: set<Pair>, maxSize: int, combos: seq<seq<string>>)
    decreases |combos|
  {
    if u == {} then combos == []
    else
      && combos != []
      && (exists seed :: IsLeast(u, seed) && combos[0] == Combo(names, u, seed, maxSize))
      && IsCover(names, u - PairsOf(ToSet(combos[0])), maxSize, combos[1..])
  }

  /** One combination: sorted, of known names, no larger than allowed, with the pair it grew from;
      and when it could have been larger, no name outside it would cover a new pair. */
  ghost predicate ComboOk(names: seq<string>, u: set<Pair>, maxSize: int, c: seq<string>) {
    && Ascending(c) && (forall n :: n in c ==> n in names)
    && |c| <= (if maxSize > 2 then maxSize else 2)
    && (exists p :: p in u && p in PairsOf(ToSet(c)))
    && (|c| >= maxSize || forall n, x :: n in names && n !in c && x in c ==> PairOf(n, x) !in u)
  }

  lemma ComboMeaning(names: seq<string>, u: set<Pair>, seed: Pair, maxSize: int)
    requires IsLeast(u, seed) && u <= PairsOf(ToSet(names))
    ensures ComboOk(names, u, maxSize, Combo(names, u, seed, maxSize))
    ensures seed in PairsOf(ToSet(Combo(names, u, seed, maxSize))) && Ascending(Combo(names, u, seed, maxSize))
  {
    hide Earlier, Ascending, PairOf, AtMost, Sorted, Grow;
    assert seed in PairsOf(ToSet(names));
    var pair := [seed.0, seed.1];
    assert Distinct(pair);
    GrowMeaning(names, u, pair, maxSize);
    var c := Grow(names, u, pair, maxSize);
    SortedAscends(c);
    var s := Sorted(c);
    assert forall n :: n in s <==> n in c by { assert forall n :: (n in s <==> n in ToSet(s)) && (n in c <==> n in ToSet(c)); }
    assert c[..2][0] == seed.0 && c[..2][1] == seed.1;
    assert seed.0 in c && seed.1 in c;
    assert seed.0 in ToSet(s) && seed.1 in ToSet(s);
  }

  lemma LeastIsUnique(u: set<Pair>, p: Pair, q: Pair)
    requires IsLeast(u, p) && IsLeast(u, q)
    ensures p == q
  {
    EarlierOrder(p, q, q);
    hide Earlier;
  }

  /** The cover is determined by the names, their order and the size. */
  lemma {:induction false} CoverIsDetermined(names: seq<string>, u: set<Pair>, maxSize: int, a: seq<seq<string>>, b: seq<seq<string>>)
    requires IsCover(names, u, maxSize, a) && IsCover(names, u, maxSize, b)
    ensures a == b
    decreases |a|
  {
    if u != {} {
      hide IsLeast, Combo, PairsOf;
      var p :| IsLeast(u, p) && a[0] == Combo(names, u, p, maxSize);
      var q :| IsLeast(u, q) && b[0] == Combo(names, u, q, maxSize);
      LeastIsUnique(u, p, q);
      CoverIsDetermined(names, u - PairsOf(ToSet(a[0])), maxSize, a[1..], b[1..]);
      assert a == [a[0]] + a[1..] && b == [b[0]] + b[1..];
    }
  }

  /** What is still uncovered before combination `k`. */
  function Left(u: set<Pair>, combos: seq<seq<string>>, k: nat): set<Pair>
    requires k <= |combos|
  {
    if k == 0 then u else Left(u, combos, k - 1) - PairsOf(ToSet(combos[k - 1]))
  }

  lemma {:induction false} LeftShift(u: set<Pair>, combos: seq<seq<string>>, k: nat)
    requires 0 < k <= |combos|
    ensures Left(u, combos, k) == Left(u - PairsOf(ToSet(combos[0])), combos[1..], k - 1)
  {
    hide PairsOf;
    if k > 1 {
      LeftShift(u, combos, k - 1);
      assert combos[1..][k - 2] == combos[k - 1];
    }
  }

  lemma {:induction false} CoverAt(names: seq<string>, u: set<Pair>, maxSize: int, combos: seq<seq<string>>, k: nat)
    requires IsCover(names, u, maxSize, combos) && u <= PairsOf(ToSet(names)) && k < |combos|
    ensures Left(u, combos, k) <= u && ComboOk(names, Left(u, combos, k), maxSize, combos[k])
    ensures Left(u, combos, |combos|) == {}
    decreases |combos|
  {
    hide IsLeast, Combo, PairsOf, ComboOk;
    assert u != {};
    if k == 0 {
      var seed :| IsLeast(u, seed) && combos[0] == Combo(names, u, seed, maxSize);
      ComboMeaning(names, u, seed, maxSize);
    }
    var u', rest := u - PairsOf(ToSet(combos[0])), combos[1..];
    LeftShift(u, combos, |combos|);
    if rest == [] {
      assert u' == {};
    } else {
      CoverAt(names, u', maxSize, rest, if k == 0 then 0 else k - 1);
      if k > 0 {
        LeftShift(u, combos, k);
      }
    }
  }

  lemma {:induction false} LeftMeaning(u: set<Pair>, combos: seq<seq<string>>, k: nat, p: Pair)
    requires k <= |combos|
    ensures p in Left(u, combos, k) <==> p in u && forall j :: 0 <= j < k ==> p !in PairsOf(ToSet(combos[j]))
  {
    hide PairsOf;
    if k > 0 {
      LeftMeaning(u, combos, k - 1, p);
    }
  }

  lemma PairIsCovered(names: seq<string>, maxSize: int, combos: seq<seq<string>>, a: string, b: string)
    requires IsCover(names, PairsOf(ToSet(names)), maxSize, combos)
    requires a in names && b in names && a != b
    ensures exists k :: 0 <= k < |combos| && a in combos[k] && b in combos[k]
  {
    hide AtMost, ComboOk;
    var u := PairsOf(ToSet(names));
    AtMostTotal(a, b);
    var p := PairOf(a, b);
    assert p in u;
    assert combos != [];
    hide IsCover, Left;
    CoverAt(names, u, maxSize, combos, 0);
    LeftMeaning(u, combos, |combos|, p);
    var j :| 0 <= j < |combos| && p in PairsOf(ToSet(combos[j]));
    assert a in combos[j] && b in combos[j];
  }

  lemma ComboIsNew(names: seq<string>, maxSize: int, combos: seq<seq<string>>, k: nat)
    requires IsCover(names, PairsOf(ToSet(names)), maxSize, combos) && k < |combos|
    ensures ComboOk(names, Left(PairsOf(ToSet(names)), combos, k), maxSize, combos[k])
    ensures exists p :: p in PairsOf(ToSet(combos[k])) && forall j :: 0 <= j < k ==> p !in PairsOf(ToSet(combos[j]))
  {
    hide AtMost, PairsOf, IsCover, Left, Ascending, PairOf;
    var u := PairsOf(ToSet(names));
    CoverAt(names, u, maxSize, combos, k);
    var p :| p in Left(u, combos, k) && p in PairsOf(ToSet(combos[k]));
    LeftMeaning(u, combos, k, p);
  }

  /** Every pair of names is in some combination; each combination is a sorted list of at most
      `max(2, max_size)` names with a pair that is in no earlier one; and one that is not full
      could not have covered another new pair. */
  lemma CoverIsComplete(names: seq<string>, maxSize: int, combos: seq<seq<string>>)
    requires Distinct(names) && IsCover(names, PairsOf(ToSet(names)), maxSize, combos)
    ensures forall a, b :: a in names && b in names && a != b ==> exists k :: 0 <= k < |combos| && a in combos[k] && b in combos[k]
    ensures forall k :: 0 <= k < |combos| ==>
              && ComboOk(names, Left(PairsOf(ToSet(names)), combos, k), maxSize, combos[k])
              && exists p :: p in PairsOf(ToSet(combos[k])) && forall j :: 0 <= j < k ==> p !in PairsOf(ToSet(combos[j]))
  {
    hide PairsOf, IsCover, Left, ComboOk;
    forall a, b | a in names && b in names && a != b
      ensures exists k :: 0 <= k < |combos| && a in combos[k] && b in combos[k]
    {
      PairIsCovered(names, maxSize, combos, a, b);
    }
    forall k | 0 <= k < |combos|
      ensures ComboOk(names, Left(PairsOf(ToSet(names)), combos, k), maxSize, combos[k])
      ensures exists p :: p in PairsOf(ToSet(combos[k])) && forall j :: 0 <= j < k ==> p !in PairsOf(ToSet(combos[j]))
    {
      ComboIsNew(names, maxSize, combos, k);
    }
  }

  // ---------------------------------------------------------------- how many

  lemma {:induction false} CoverLength(names: seq<string>, u: set<Pair>, maxSize: int, combos: seq<seq<string>>)
    requires IsCover(names, u, maxSize, combos) && u <= PairsOf(ToSet(names))
    ensures |combos| <= |u|
    decreases |combos|
  {
    hide IsLeast, Combo, PairsOf;
    if u != {} {
      var seed :| IsLeast(u, seed) && combos[0] == Combo(names, u, seed, maxSize);
      ComboMeaning(names, u, seed, maxSize);
      var u' := u - PairsOf(ToSet(combos[0]));
      assert seed in u by { LeastIn(u, seed); }
      assert u' <= u - {seed};
      Smaller(u', u, seed);
      CoverLength(names, u', maxSize, combos[1..]);
    }
  }

  lemma LeastIn(u: set<Pair>, p: Pair)
    requires IsLeast(u, p)
    ensures p in u
  {
  }

  lemma Smaller(a: set<Pair>, b: set<Pair>, p: Pair)
    requires a <= b - {p} && p in b
    ensures |a| < |b|
  {
    Subset(a, b - {p});
  }

  lemma {:induction false} PairCount(names: seq<string>)
    requires Distinct(names)
    ensures |PairsOf(ToSet(names))| <= Triangle(|names|)
  {
    hide PairsOf, PairOf;
    if names == [] {
      NoPairs();
    } else {
      var rest := names[1..];
      PairCount(rest);
      var added := set b | b in ToSet(rest) :: PairOf(names[0], b);
      ImageSize(names[0], ToSet(rest));
      ToSetSize(rest);
      PairsCons(names);
      Subset(PairsOf(ToSet(names)), PairsOf(ToSet(rest)) + added);
    }
  }

  lemma NoPairs()
    ensures PairsOf(ToSet<string>([])) == {}
  {
  }

  /** 0 + 1 + ... + (n - 1) */
  function Triangle(n: nat): nat {
    if n == 0 then 0 else Triangle(n - 1) + (n - 1)
  }

  lemma {:induction false} TriangleIs(n: nat)
    ensures 2 * Triangle(n) == n * (n - 1)
  {
    if n > 0 {
      TriangleIs(n - 1);
    }
  }

  lemma PairsCons(names: seq<string>)
    requires names != []
    ensures PairsOf(ToSet(names)) <= PairsOf(ToSet(names[1..])) + set b | b in ToSet(names[1..]) :: PairOf(names[0], b)
  {
    hide AtMost;
    var rest := names[1..];
    forall p | p in PairsOf(ToSet(names)) && p !in PairsOf(ToSet(rest))
      ensures exists b :: b in ToSet(rest) && p == PairOf(names[0], b)
    {
      if p.0 == names[0] {
        assert p.1 in rest;
        assert p == PairOf(names[0], p.1);
      } else {
        assert p.0 in rest && p.1 == names[0];
        if AtMost(names[0], p.0) {
          AtMostAntisymmetric(names[0], p.0);
        }
        assert p == PairOf(names[0], p.0);
      }
    }
  }

  lemma {:induction false} ImageSize(a: string, s: set<string>)
    ensures |set b | b in s :: PairOf(a, b)| <= |s|
  {
    if s != {} {
      var x :| x in s;
      ImageSize(a, s - {x});
      assert (set b | b in s :: PairOf(a, b)) == (set b | b in s - {x} :: PairOf(a, b)) + {PairOf(a, x)};
    }
  }

  /** At most one combination per pair of names. */
  lemma CoverIsShort(names: seq<string>, maxSize: int, combos: seq<seq<string>>)
    requires Distinct(names) && IsCover(names, PairsOf(ToSet(names)), maxSize, combos)
    ensures |combos| <= |names| * (|names| - 1) / 2
  {
    hide IsCover, PairsOf, Triangle;
    CoverLength(names, PairsOf(ToSet(names)), maxSize, combos);
    PairCount(names);
    TriangleIs(|names|);
  }

  // ---------------------------------------------------------------- the loop

  method GrowCombo(names: seq<string>, u: set<Pair>, start: seq<string>, maxSize: int) returns (chosen: seq<string>)
    ensures chosen == Grow(names, u, start, maxSize)
  {
    hide Gain, Best;
    chosen := start;
    while |chosen| < maxSize
      invariant Grow(names, u, chosen, maxSize) == Grow(names, u, start, maxSize)
      decreases maxSize - |chosen|
    {
      var best := BestName(names, u, chosen);
      if best.None? {
        break;
      }
      chosen := chosen + [best.value];
    }
  }

  method BestName(names: seq<string>, u: set<Pair>, chosen: seq<string>) returns (best: Option<string>)
    ensures best == Best(names, u, chosen, None, 0)
  {
    hide Gain;
    best := None;
    var bestGain := 0;
    assert names[0..] == names;
    for i := 0 to |names|
      invariant Best(names[i..], u, chosen, best, bestGain) == Best(names, u, chosen, None, 0)
    {
      assert names[i..][1..] == names[i + 1..];
      if names[i] in chosen {
        continue;
      }
      var gain := Gain(u, chosen, names[i]);
      if gain > bestGain {
        best, bestGain := Some(names[i]), gain;
      }
    }
  }

  /** Takes every pair of the combination out of the uncovered ones. */
  method Discard(u: set<Pair>, chosen: seq<string>) returns (rest: set<Pair>)
    requires Ascending(chosen)
    ensures rest == u - PairsOf(ToSet(chosen))
  {
    hide AtMost;
    rest := u;
    for i := 0 to |chosen|
      invariant forall p :: p in rest <==> p in u && !PairBelow(chosen, i, 0, p)
    {
      for j := i + 1 to |chosen|
        invariant forall p :: p in rest <==> p in u && !PairBelow(chosen, i, j, p)
      {
        rest := rest - {(chosen[i], chosen[j])};
      }
    }
    PairsBelow(chosen);
  }

  /** `p` is one of the first pairs in the order of the two loops. */
  ghost predicate PairBelow(chosen: seq<string>, i: nat, j: nat, p: Pair) {
    exists a, b :: 0 <= a < b < |chosen| && (a < i || (a == i && b < j)) && p == (chosen[a], chosen[b])
  }

  lemma PairsBelow(chosen: seq<string>)
    requires Ascending(chosen)
    ensures forall p :: PairBelow(chosen, |chosen|, 0, p) <==> p in PairsOf(ToSet(chosen))
  {
    hide AtMost;
    forall p | p in PairsOf(ToSet(chosen)) ensures PairBelow(chosen, |chosen|, 0, p) {
      var a :| 0 <= a < |chosen| && chosen[a] == p.0;
      var b :| 0 <= b < |chosen| && chosen[b] == p.1;
      if a > b {
        AtMostAntisymmetric(chosen[a], chosen[b]);
      }
    }
  }

  /** `pairwise_combos` */
  method PairwiseCombos(names: seq<string>, maxSize: int) returns (combos: seq<seq<string>>)
    requires Distinct(names)
    ensures IsCover(names, PairsOf(ToSet(names)), maxSize, combos)
  {
    hide IsLeast, PairsOf, ComboOk;
    combos := [];
    var all := PairsOf(ToSet(names));
    var uncovered := all;
    NothingToCover(names, maxSize);
    while uncovered != {}
      invariant uncovered <= all
      invariant forall rest :: IsCover(names, uncovered, maxSize, rest) ==> IsCover(names, all, maxSize, combos + rest)
      decreases |uncovered|
    {
      var seed := LeastPair(uncovered);
      var chosen := GrowCombo(names, uncovered, [seed.0, seed.1], maxSize);
      chosen := Sorted(chosen);
      ComboMeaning(names, uncovered, seed, maxSize);
      LeastIn(uncovered, seed);
      ghost var before := uncovered;
      uncovered := Discard(uncovered, chosen);
      Smaller(uncovered, before, seed);
      CoverCons(names, before, maxSize, seed, chosen, all, combos);
      combos := combos + [chosen];
    }
    assert combos + [] == combos;
  }

  lemma NothingToCover(names: seq<string>, maxSize: int)
    ensures IsCover(names, {}, maxSize, [])
    ensures forall rest: seq<seq<string>> :: [] + rest == rest
  {
  }

  lemma CoverCons(names: seq<string>, u: set<Pair>, maxSize: int, seed: Pair, c: seq<string>, all: set<Pair>, combos: seq<seq<string>>)
    requires IsLeast(u, seed) && c == Combo(names, u, seed, maxSize)
    requires forall rest :: IsCover(names, u, maxSize, rest) ==> IsCover(names, all, maxSize, combos + rest)
    ensures forall rest :: IsCover(names, u - PairsOf(ToSet(c)), maxSize, rest) ==> IsCover(names, all, maxSize, combos + [c] + rest)
  {
    hide PairsOf, Combo;
    assert u != {} by { LeastIn(u, seed); }
    forall rest | IsCover(names, u - PairsOf(ToSet(c)), maxSize, rest)
      ensures IsCover(names, all, maxSize, combos + [c] + rest)
    {
      var more := [c] + rest;
      assert more[0] == c && more[1..] == rest;
      assert IsCover(names, u, maxSize, more);
      assert combos + more == combos + [c] + rest;
    }
  }
}

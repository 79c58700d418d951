/** Choosing a host-port offset: `select_port_offset`. */
module Ports {
  import opened Lists

  const MAX_HOST_PORT := 65535
  const OFFSET_STEP := 1000
  const BASE_HOST_PORTS: seq<nat> :=
    [80, 443, 3000, 3100, 3200, 5173, 5432, 6379, 8000, 9090, 9093, 9121, 9187, 9216, 9808, 27017]

  function Window(base: seq<nat>, offset: nat): set<nat> {
    set p | p in base :: p + offset
  }

  predicate Free(base: seq<nat>, offset: nat, occupied: set<nat>) {
    Window(base, offset) !! occupied
  }

  function Highest(base: seq<nat>): (h: nat)
    requires base != []
    ensures h in base && forall p :: p in base ==> p <= h
  {
    if |base| == 1 then base[0]
    else
      var h := Highest(base[1..]);
      assert base == [base[0]] + base[1..];
      if base[0] > h then base[0] else h
  }

  predicate Fits(base: seq<nat>, offset: nat)
    requires base != []
  {
    Highest(base) + offset <= MAX_HOST_PORT
  }

  /** The `k`-th candidate offset. */
  function Candidate(k: nat, step: nat): nat {
    k * step
  }

  /** The least multiple of `step` whose window fits and avoids `occupied`; none exactly when
      no multiple does. */
  ghost predicate IsSelection(base: seq<nat>, step: nat, occupied: set<nat>, r: Option<nat>)
    requires base != []
  {
    match r
    case Some(offset) =>
      && (exists k: nat :: offset == Candidate(k, step))
      && Fits(base, offset) && Free(base, offset, occupied)
      && forall k: nat :: Candidate(k, step) < offset ==> !Free(base, Candidate(k, step), occupied)
    case None => forall k: nat :: Fits(base, Candidate(k, step)) ==> !Free(base, Candidate(k, step), occupied)
  }

  method SelectPortOffset(occupied: set<nat>, base: seq<nat>, step: nat) returns (r: Option<nat>)
    requires base != [] && step > 0
    ensures IsSelection(base, step, occupied, r)
  {
    hide Free, Highest;
    var highest := Highest(base);
    var offset := 0;
    ghost var k := 0;
    while highest + offset <= MAX_HOST_PORT
      invariant offset == Candidate(k, step)
      invariant forall j: nat :: j < k ==> !Free(base, Candidate(j, step), occupied)
      decreases MAX_HOST_PORT - offset
    {
      if Free(base, offset, occupied) {
        forall j: nat | Candidate(j, step) < offset ensures j < k { Scale(j, k, step); }
        return Some(offset);
      }
      offset := offset + step;
      k := k + 1;
    }
    forall j: nat | Fits(base, Candidate(j, step)) ensures j < k { Scale(j, k, step); }
    r := None;
  }

  lemma Scale(j: nat, k: nat, step: nat)
    ensures j >= k ==> Candidate(j, step) >= Candidate(k, step)
    ensures step > 0 && j > k ==> Candidate(j, step) > Candidate(k, step)
  {
    if j >= k {
      assert j * step == k * step + (j - k) * step;
      assert step > 0 && j > k ==> (j - k) * step > 0;
    }
  }

  /** Some base port cannot be moved by `offset`: it would be too high, or is occupied there. */
  ghost predicate InTheWay(base: seq<nat>, offset: nat, occupied: set<nat>) {
    exists p :: p in base && (p + offset > 65535 || p + offset in occupied)
  }

  lemma InTheWayIff(base: seq<nat>, offset: nat, occupied: set<nat>)
    requires base != []
    ensures InTheWay(base, offset, occupied) <==> !(Fits(base, offset) && Free(base, offset, occupied))
  {
    if o :| o in Window(base, offset) && o in occupied {
      var p :| p in base && o == p + offset;
      assert p + offset in occupied;
    }
    if !Fits(base, offset) {
      assert Highest(base) in base && Highest(base) + offset > 65535;
    }
    if p :| p in base && p + offset in occupied {
      assert p + offset in Window(base, offset);
    }
  }

  /** A selection port by port: no base port is in the way at the offset, which is a multiple of the
      step, and at every smaller multiple one is; there is none exactly when at every multiple one is. */
  lemma SelectionMeans(base: seq<nat>, step: nat, occupied: set<nat>, r: Option<nat>)
    requires base != [] && IsSelection(base, step, occupied, r)
    ensures r.Some? ==> (exists k: nat :: r.value == k * step) && !InTheWay(base, r.value, occupied)
    ensures r.Some? ==> forall k: nat :: k * step < r.value ==> InTheWay(base, k * step, occupied)
    ensures r.None? ==> forall k: nat :: InTheWay(base, k * step, occupied)
  {
    hide Free, Fits, InTheWay;
    if r.Some? {
      var k: nat :| r.value == Candidate(k, step);
      assert r.value == k * step;
      InTheWayIff(base, r.value, occupied);
    }
    forall k: nat ensures r.Some? && k * step < r.value ==> InTheWay(base, k * step, occupied)
      ensures r.None? ==> InTheWay(base, k * step, occupied)
    {
      assert Candidate(k, step) == k * step;
      InTheWayIff(base, k * step, occupied);
    }
  }

  /** A selection is unique, so any two calls on the same input agree. */
  lemma SelectionUnique(base: seq<nat>, step: nat, occupied: set<nat>, r: Option<nat>, r': Option<nat>)
    requires base != [] && step > 0
    requires IsSelection(base, step, occupied, r) && IsSelection(base, step, occupied, r')
    ensures r == r'
  {
    hide Free, Fits, Candidate;
    if r.Some? {
      var k: nat :| r.value == Candidate(k, step);
      if r'.Some? {
        var k': nat :| r'.value == Candidate(k', step);
      }
    }
  }

  // ---------------------------------------------------------------- when it cannot fail

  /** The base ports that an occupied port `o` can collide with under some multiple of `step`. */
  function SameResidue(base: seq<nat>, step: nat, o: nat): set<nat>
    requires step > 0
  {
    set p | p in base && p % step == o % step
  }

  /** The candidates, among the first `n`, whose window holds `o`. */
  function BlockedBy(base: seq<nat>, step: nat, n: nat, o: nat): set<nat> {
    set k: nat | k < n && o in Window(base, Candidate(k, step))
  }

  function Blocked(base: seq<nat>, step: nat, n: nat, occupied: set<nat>): set<nat> {
    set k: nat | k < n && !Free(base, Candidate(k, step), occupied)
  }

  lemma ModUnique(a: int, q: int, r: int, step: nat)
    requires step > 0 && 0 <= r < step && a == q * step + r
    ensures a % step == r
  {
    var q', r' := a / step, a % step;
    assert a == q' * step + r';
    MulMonotone(q + 1, q', step);
    MulMonotone(q' + 1, q, step);
    assert (q + 1) * step == q * step + step && (q' + 1) * step == q' * step + step;
  }

  lemma MulMonotone(a: int, b: int, step: nat)
    ensures a <= b ==> a * step <= b * step
  {
    if a <= b {
      assert b * step == a * step + (b - a) * step;
    }
  }

  lemma ResidueOf(p: nat, k: nat, step: nat)
    requires step > 0
    ensures (p + k * step) % step == p % step
  {
    assert p + k * step == (p / step + k) * step + p % step;
    ModUnique(p + k * step, p / step + k, p % step, step);
  }

  lemma {:induction false} BlockedByFew(step: nat, ks: set<nat>, ps: set<nat>, o: nat)
    requires step > 0
    requires forall k :: k in ks ==> Candidate(k, step) <= o && (o - Candidate(k, step)) in ps
    ensures |ks| <= |ps|
  {
    if ks != {} {
      hide Candidate;
      var k :| k in ks;
      var ks', ps' := ks - {k}, ps - {o - Candidate(k, step)};
      forall j | j in ks' ensures o - Candidate(j, step) in ps' {
        Scale(j, k, step);
        Scale(k, j, step);
      }
      BlockedByFew(step, ks', ps', o);
    }
  }

  lemma BlockedByOne(base: seq<nat>, step: nat, n: nat, o: nat)
    requires step > 0
    ensures |BlockedBy(base, step, n, o)| <= |SameResidue(base, step, o)|
  {
    var lost := BlockedBy(base, step, n, o);
    forall k | k in lost ensures Candidate(k, step) <= o && o - Candidate(k, step) in SameResidue(base, step, o) {
      var p :| p in base && p + Candidate(k, step) == o;
      ResidueOf(p, k, step);
    }
    BlockedByFew(step, lost, SameResidue(base, step, o), o);
  }

  lemma BlockedUnion(base: seq<nat>, step: nat, n: nat, rest: set<nat>, o: nat)
    ensures Blocked(base, step, n, rest + {o}) <= Blocked(base, step, n, rest) + BlockedBy(base, step, n, o)
  {
    hide Candidate, Window;
  }

  lemma {:induction false} BlockedFew(base: seq<nat>, step: nat, n: nat, occupied: set<nat>, m: nat)
    requires step > 0
    requires forall o :: o in occupied ==> |SameResidue(base, step, o)| <= m
    ensures |Blocked(base, step, n, occupied)| <= m * |occupied|
  {
    if occupied == {} {
      assert Blocked(base, step, n, occupied) == {};
    } else {
      hide Blocked, BlockedBy, SameResidue;
      var o :| o in occupied;
      var rest := occupied - {o};
      assert rest + {o} == occupied;
      BlockedFew(base, step, n, rest, m);
      BlockedByOne(base, step, n, o);
      BlockedUnion(base, step, n, rest, o);
      AtMostSum(Blocked(base, step, n, occupied), Blocked(base, step, n, rest), BlockedBy(base, step, n, o));
      MulSucc(m, |rest|);
    }
  }

  lemma AtMostSum(a: set<nat>, b: set<nat>, c: set<nat>)
    requires a <= b + c
    ensures |a| <= |b| + |c|
  {
    Subset(a, b + c);
  }

  lemma MulSucc(m: nat, a: nat)
    ensures m * (a + 1) == m * a + m
  {
  }

  lemma {:induction false} FirstNaturals(n: nat) returns (s: set<nat>)
    ensures (forall k: nat :: k in s <==> k < n) && |s| == n
  {
    if n == 0 {
      s := {};
    } else {
      s := FirstNaturals(n - 1);
      s := s + {n - 1};
    }
  }

  /** With at most `m` base ports per residue, `m` candidates at most are lost to each
      occupied port: with more candidates than that, the selection succeeds. */
  lemma NeverExhausted(base: seq<nat>, step: nat, occupied: set<nat>, m: nat, n: nat, r: Option<nat>)
    requires base != [] && step > 0
    requires forall o :: o in occupied ==> |SameResidue(base, step, o)| <= m
    requires forall k: nat :: k < n ==> Fits(base, Candidate(k, step))
    requires m * |occupied| < n
    requires IsSelection(base, step, occupied, r)
    ensures r.Some?
  {
    BlockedFew(base, step, n, occupied, m);
    hide SameResidue, Free, Fits, Candidate;
    var all := FirstNaturals(n);
    if r.None? {
      assert all <= Blocked(base, step, n, occupied);
      Subset(all, Blocked(base, step, n, occupied));
    }
  }

  // ---------------------------------------------------------------- the shipped constants

  /** The only shipped port with a given residue, leaving 3000 and 8000 aside. */
  function ByResidue(r: nat): nat {
    if r == 80 || r == 443 then r
    else if r == 100 || r == 200 then 3000 + r
    else if r == 173 || r == 432 then 5000 + r
    else if r == 379 then 6379
    else if r == 17 then 27017
    else 9000 + r
  }

  lemma ShippedPort(p: nat)
    requires p in BASE_HOST_PORTS
    ensures p <= 27017
    ensures if p % OFFSET_STEP == 0 then p == 3000 || p == 8000 else p == ByResidue(p % OFFSET_STEP)
  {
    var k :| 0 <= k < |BASE_HOST_PORTS| && p == BASE_HOST_PORTS[k];
    hide ByResidue;
    ShippedPortAt(k);
  }

  lemma ShippedPortAt(k: nat)
    requires k < 16
    ensures var p := BASE_HOST_PORTS[k];
            && p <= 27017
            && if p % OFFSET_STEP == 0 then p == 3000 || p == 8000 else p == ByResidue(p % OFFSET_STEP)
  {
  }

  /** Of the shipped ports only 3000 and 8000 agree modulo the step. */
  lemma ShippedResidues(base: seq<nat>, o: nat)
    requires base == BASE_HOST_PORTS
    ensures |SameResidue(base, OFFSET_STEP, o)| <= 2
  {
    var r := o % OFFSET_STEP;
    var s := SameResidue(base, OFFSET_STEP, o);
    var twins := if r == 0 then {3000, 8000} else {ByResidue(r)};
    forall q | q in s ensures q in twins {
      ShippedPort(q);
    }
    Subset(s, twins);
  }

  lemma HighestIs(base: seq<nat>, h: nat)
    requires h in base && forall p :: p in base ==> p <= h
    ensures Highest(base) == h
  {
  }

  lemma ShippedHighest()
    ensures Highest(BASE_HOST_PORTS) == 27017
  {
    hide Highest;
    assert BASE_HOST_PORTS[15] == 27017;
    forall p | p in BASE_HOST_PORTS ensures p <= 27017 { ShippedPort(p); }
    HighestIs(BASE_HOST_PORTS, 27017);
  }

  /** With the shipped ports and step, any 19 occupied host ports leave a free window. */
  lemma ShippedNeverExhausted(base: seq<nat>, occupied: set<nat>, r: Option<nat>)
    requires base == BASE_HOST_PORTS && |occupied| <= 19
    requires IsSelection(base, OFFSET_STEP, occupied, r)
    ensures r.Some? && r.value <= 38518
  {
    ShippedHighest();
    forall o | o in occupied ensures |SameResidue(base, OFFSET_STEP, o)| <= 2 { ShippedResidues(base, o); }
    hide Highest, Free, SameResidue, ByResidue;
    NeverExhausted(base, OFFSET_STEP, occupied, 2, 39, r);
  }
}

/** Battery selection: the dependency closure, and every run of creating a project, adding
    batteries and removing one. The registry is any map from names to required names; its
    graph may have cycles and may require names it does not know. */
module Batteries {
  import opened Lists
  import opened Text

  type Registry = map<string, seq<string>>

  datatype Resolution = Resolved(names: seq<string>) | Unknown(name: string)

  /** `path` goes from a selected name along requirements of known names. */
  ghost predicate IsPath(reg: Registry, selected: seq<string>, path: seq<string>) {
    && path != [] && path[0] in selected
    && forall i :: 0 <= i < |path| - 1 ==> path[i] in reg && path[i + 1] in reg[path[i]]
  }

  ghost predicate Reachable(reg: Registry, selected: seq<string>, name: string) {
    exists path :: IsPath(reg, selected, path) && path[|path| - 1] == name
  }

  /** Known names only, and with each name everything it requires. */
  ghost predicate Closed(reg: Registry, s: set<string>) {
    forall n :: n in s ==> n in reg && forall d :: d in reg[n] ==> d in s
  }

  lemma SelectedReachable(reg: Registry, selected: seq<string>, name: string)
    requires name in selected
    ensures Reachable(reg, selected, name)
  {
    assert IsPath(reg, selected, [name]);
  }

  lemma RequiredReachable(reg: Registry, selected: seq<string>, name: string, d: string)
    requires Reachable(reg, selected, name) && name in reg && d in reg[name]
    ensures Reachable(reg, selected, d)
  {
    var path :| IsPath(reg, selected, path) && path[|path| - 1] == name;
    var longer := path + [d];
    assert forall i :: 0 <= i < |longer| ==> longer[i] == if i < |path| then path[i] else d;
    assert IsPath(reg, selected, longer);
  }

  lemma {:induction false} PathStaysIn(reg: Registry, selected: seq<string>, path: seq<string>, s: set<string>)
    requires IsPath(reg, selected, path) && Closed(reg, s) && forall n :: n in selected ==> n in s
    ensures path[|path| - 1] in s
  {
    if |path| > 1 {
      var shorter := path[..|path| - 1];
      assert IsPath(reg, selected, shorter);
      PathStaysIn(reg, selected, shorter, s);
      assert path[|path| - 2] in reg && path[|path| - 1] in reg[path[|path| - 2]];
    }
  }

  /** Everything reachable lies in every closed set that has the selection. */
  lemma ReachableInClosed(reg: Registry, selected: seq<string>, name: string, s: set<string>)
    requires Reachable(reg, selected, name) && Closed(reg, s) && forall n :: n in selected ==> n in s
    ensures name in s
  {
    var path :| IsPath(reg, selected, path) && path[|path| - 1] == name;
    PathStaysIn(reg, selected, path, s);
  }

  /** `sorted(names)` of a set. */
  method SortNames(names: set<string>) returns (r: seq<string>)
    ensures Ascending(r) && ToSet(r) == names
  {
    r := [];
    var rest := names;
    while rest != {}
      invariant rest <= names && Ascending(r) && ToSet(r) == names - rest
      decreases |rest|
    {
      var n :| n in rest;
      rest := rest - {n};
      assert n !in r by { assert n !in ToSet(r); }
      r := InsertName(n, r);
    }
  }

  function InsertAt(n: string, r: seq<string>): (k: nat)
    ensures k <= |r|
  {
    if r == [] || AtMost(n, r[0]) then 0 else 1 + InsertAt(n, r[1..])
  }

  lemma {:induction false} InsertAtSplits(n: string, r: seq<string>)
    requires Ascending(r)
    ensures forall i :: 0 <= i < InsertAt(n, r) ==> AtMost(r[i], n)
    ensures forall i :: InsertAt(n, r) <= i < |r| ==> AtMost(n, r[i])
  {
    if r != [] {
      hide AtMost;
      AtMostTotal(n, r[0]);
      if AtMost(n, r[0]) {
        forall i | 0 < i < |r| ensures AtMost(n, r[i]) { AtMostTransitive(n, r[0], r[i]); }
      } else {
        var t := r[1..];
        assert forall i, j :: 0 <= i < j < |t| ==> t[i] == r[i + 1] && t[j] == r[j + 1];
        InsertAtSplits(n, t);
        assert forall i :: 1 <= i < |r| ==> r[i] == t[i - 1];
      }
    }
  }

  method InsertName(n: string, r: seq<string>) returns (r': seq<string>)
    requires Ascending(r) && n !in r
    ensures Ascending(r') && ToSet(r') == ToSet(r) + {n}
  {
    hide AtMost, InsertAt;
    var k := InsertAt(n, r);
    InsertAtSplits(n, r);
    r' := r[..k] + [n] + r[k..];
    Inserted(n, r, k);
  }

  lemma Inserted(n: string, r: seq<string>, k: nat)
    requires Ascending(r) && n !in r && k <= |r|
    requires forall i :: 0 <= i < k ==> AtMost(r[i], n)
    requires forall i :: k <= i < |r| ==> AtMost(n, r[i])
    ensures var r' := r[..k] + [n] + r[k..]; Ascending(r') && ToSet(r') == ToSet(r) + {n}
  {
    hide AtMost;
    var r' := r[..k] + [n] + r[k..];
    assert forall i :: 0 <= i < |r'| ==> r'[i] == if i < k then r[i] else if i == k then n else r[i - 1];
    assert Ascending(r');
    assert r == r[..k] + r[k..];
    hide Ascending;
    assert forall x :: x in r' <==> x in r || x == n;
  }

  /** The sorted least closed superset of the selection, or a reachable name nobody knows. */
  ghost predicate IsResolution(reg: Registry, selected: seq<string>, r: Resolution) {
    match r
    case Resolved(names) =>
      && Ascending(names) && Closed(reg, ToSet(names))
      && (forall n :: n in selected ==> n in names)
      && (forall n :: n in names ==> Reachable(reg, selected, n))
    case Unknown(name) => name !in reg && Reachable(reg, selected, name)
  }

  /** Where the worklist stands: everything met so far is reachable, and what a visited name
      requires has been met. */
  ghost predicate WorkOk(reg: Registry, selected: seq<string>, seen: set<string>, stack: seq<string>) {
    && (forall n :: n in seen ==> n in reg)
    && (forall n :: n in selected ==> n in seen || n in stack)
    && (forall n, d :: n in seen && d in reg[n] ==> d in seen || d in stack)
    && (forall n :: n in seen || n in stack ==> Reachable(reg, selected, n))
  }

  lemma WorkStarts(reg: Registry, selected: seq<string>)
    ensures WorkOk(reg, selected, {}, selected)
  {
    forall n | n in selected ensures Reachable(reg, selected, n) { SelectedReachable(reg, selected, n); }
  }

  lemma WorkVisits(reg: Registry, selected: seq<string>, seen: set<string>, rest: seq<string>, name: string)
    requires WorkOk(reg, selected, seen, rest + [name])
    ensures Reachable(reg, selected, name)
    ensures name in seen ==> WorkOk(reg, selected, seen, rest)
    ensures name in reg ==> WorkOk(reg, selected, seen + {name}, rest + reg[name])
  {
    hide Reachable;
    assert name in rest + [name];
    if name in reg {
      forall d | d in reg[name] ensures Reachable(reg, selected, d) { RequiredReachable(reg, selected, name, d); }
    }
  }

  lemma WorkDone(reg: Registry, selected: seq<string>, seen: set<string>, names: seq<string>)
    requires WorkOk(reg, selected, seen, []) && Ascending(names) && ToSet(names) == seen
    ensures IsResolution(reg, selected, Resolved(names))
  {
    hide Reachable;
    assert forall n :: n in names <==> n in ToSet(names);
  }

  /** `resolve`. The worklist terminates on every graph. */
  method Resolve(reg: Registry, selected: seq<string>) returns (r: Resolution)
    ensures IsResolution(reg, selected, r)
  {
    hide WorkOk, Reachable, Closed;
    var seen: set<string> := {};
    var stack := selected;
    WorkStarts(reg, selected);
    while stack != []
      invariant WorkOk(reg, selected, seen, stack)
      decreases |reg.Keys - seen|, |stack|
    {
      var name := stack[|stack| - 1];
      ghost var was := stack;
      stack := stack[..|stack| - 1];
      assert was == stack + [name];
      WorkVisits(reg, selected, seen, stack, name);
      if name in seen {
        continue;
      }
      if name !in reg {
        return Unknown(name);
      }
      Shrinks(reg.Keys, seen, name);
      seen := seen + {name};
      stack := stack + reg[name];
    }
    var names := SortNames(seen);
    WorkDone(reg, selected, seen, names);
    r := Resolved(names);
  }

  lemma Shrinks(all: set<string>, seen: set<string>, name: string)
    requires name in all && name !in seen
    ensures |all - (seen + {name})| < |all - seen|
  {
    assert all - (seen + {name}) == (all - seen) - {name};
  }

  /** The resolved set is the least closed one, and resolving fails exactly when an unknown
      name is reachable. */
  lemma ResolutionIsLeast(reg: Registry, selected: seq<string>, r: Resolution)
    requires IsResolution(reg, selected, r)
    ensures r.Resolved? ==> forall s :: Closed(reg, s) && (forall n :: n in selected ==> n in s) ==> ToSet(r.names) <= s
    ensures r.Unknown? <==> exists n :: Reachable(reg, selected, n) && n !in reg
  {
    hide Reachable;
    if r.Resolved? {
      forall s, n | Closed(reg, s) && (forall m :: m in selected ==> m in s) && n in r.names ensures n in s {
        ReachableInClosed(reg, selected, n, s);
      }
      forall n | Reachable(reg, selected, n) ensures n in reg {
        assert forall m :: m in selected ==> m in ToSet(r.names);
        ReachableInClosed(reg, selected, n, ToSet(r.names));
      }
    }
  }

  // ---------------------------------------------------------------- the recorded set

  /** `name` is in the closure of `of` alone. */
  ghost predicate DependsOn(reg: Registry, of: string, name: string) {
    Reachable(reg, [of], name)
  }

  /** `blocking_dependents` finds something. */
  ghost predicate Blocked(reg: Registry, active: seq<string>, name: string) {
    exists b :: b in active && b != name && DependsOn(reg, b, name)
  }

  /** Removing a battery leaves a closed set exactly when nothing blocks the removal. */
  lemma RemovalClosedIffUnblocked(reg: Registry, active: seq<string>, name: string)
    requires Closed(reg, ToSet(active))
    ensures Closed(reg, ToSet(active) - {name}) <==> !Blocked(reg, active, name)
  {
    var reduced := ToSet(active) - {name};
    if Closed(reg, reduced) {
      forall b | b in active && b != name ensures !DependsOn(reg, b, name) {
        if DependsOn(reg, b, name) {
          ReachableInClosed(reg, [b], name, reduced);
        }
      }
    } else {
      var n, d :| n in reduced && d in reg[n] && d !in reduced;
      SelectedReachable(reg, [n], n);
      RequiredReachable(reg, [n], n, d);
      assert d == name && DependsOn(reg, n, name);
    }
  }

  datatype Command = New(selected: seq<string>) | Add(extra: seq<string>) | Remove(name: string)

  /** `framework new`, `upskill --with` and `downskill`, on the recorded set. */
  ghost predicate Does(reg: Registry, c: Command, before: seq<string>, after: seq<string>) {
    match c
    case New(selected) => IsResolution(reg, selected, Resolved(after))
    case Add(extra) => IsResolution(reg, before + extra, Resolved(after))
    case Remove(name) => name in before && !Blocked(reg, before, name) && after == Without(before, {name})
  }

  ghost predicate SetOk(reg: Registry, names: seq<string>) {
    Ascending(names) && Closed(reg, ToSet(names))
  }

  lemma {:induction false} WithoutAscending(s: seq<string>, gone: set<string>)
    requires Ascending(s)
    ensures Ascending(Without(s, gone))
  {
    if s != [] {
      hide AtMost;
      var t := s[1..];
      assert forall i :: 0 <= i < |t| ==> t[i] == s[i + 1];
      WithoutAscending(t, gone);
      WithoutMembers(t, gone);
      var r := Without(t, gone);
      forall j | 0 <= j < |r| ensures AtMost(s[0], r[j]) && s[0] != r[j] {
        assert r[j] in t;
        var i :| 0 <= i < |t| && t[i] == r[j];
      }
      if s[0] !in gone {
        assert Without(s, gone) == [s[0]] + r;
      }
    }
  }

  /** Over every run the recorded set stays sorted, known and dependency-closed; adding only
      adds, and removing takes away one battery and nothing else. */
  lemma {:induction false} RecordedSetStaysClosed(reg: Registry, cs: seq<Command>, sets: seq<seq<string>>, i: nat)
    requires |sets| == |cs| + 1 && SetOk(reg, sets[0])
    requires forall k :: 0 <= k < |cs| ==> Does(reg, cs[k], sets[k], sets[k + 1])
    requires i <= |cs|
    ensures SetOk(reg, sets[i])
    ensures i > 0 && cs[i - 1].Add? ==> ToSet(sets[i - 1]) <= ToSet(sets[i])
    ensures i > 0 && cs[i - 1].Remove? ==> ToSet(sets[i]) == ToSet(sets[i - 1]) - {cs[i - 1].name}
  {
    if i > 0 {
      RecordedSetStaysClosed(reg, cs, sets, i - 1);
      hide AtMost, Reachable, Blocked;
      assert Does(reg, cs[i - 1], sets[i - 1], sets[i]);
      var before, after := sets[i - 1], sets[i];
      match cs[i - 1]
      case New(_) =>
      case Add(extra) => assert forall n :: n in before ==> n in before + extra;
      case Remove(name) =>
        RemovalClosedIffUnblocked(reg, before, name);
        WithoutAscending(before, {name});
        WithoutMembers(before, {name});
        assert ToSet(after) == ToSet(before) - {name};
    }
  }
}

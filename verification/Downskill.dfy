/** Removing a battery from a project tree: delete what it owns, take its part out of the files
    it shares, record the reduced set and lock the result. */
module Downskill {
  import opened Lists
  import opened Text
  import opened Sections
  import opened Manifest
  import opened Integrity
  import Batteries
  import Answers
  import AnswersView

  const MIGRATIONS := "migrations/versions/"
  const SRC := "src/"
  const PY := ".py"

  /** What the framework ships: the battery registry, the template's render for an answers file
      and a battery set, the hybrid paths, and the locking rules for an answers file. */
  datatype Framework = Framework(
    registry: Batteries.Registry,
    render: (string, seq<string>) -> Files,
    hybrid: set<string>,
    rules: string -> seq<Rule>,
    ignored: string -> bool,
    version: string,
    hash: Hash)

  /** A shared file that the builder changed; at the end, the migrations that were kept. */
  datatype Warning = Modified(path: string) | MigrationsKept(paths: seq<string>)

  datatype Report = Report(removed: seq<string>, preserved: seq<string>, warnings: seq<Warning>)

  datatype Refusal =
    | UnknownBattery
    | NotActive
    | UnknownRequirement
    | StillRequired(dependents: set<string>)
    | InUse(references: set<string>)

  /** `Rejected` before anything is touched; `Stuck` at a path that cannot be written, and
      `Unlocked` when the lock cannot be generated, after earlier steps have been carried out. */
  datatype Removal =
    | Removed(report: Report)
    | Rejected(refusal: Refusal)
    | Stuck(path: string)
    | Unlocked(error: Integrity.Error)

  // ---------------------------------------------------------------- what happens to each path

  datatype Fate = Keep | Delete | Write(text: string) | Warn | Fail

  predicate StartsWith(s: string, prefix: string) {
    |prefix| <= |s| && s[..|prefix|] == prefix
  }

  predicate EndsWith(s: string, suffix: string) {
    |suffix| <= |s| && s[|s| - |suffix|..] == suffix
  }

  function Owned(w: Files, wo: Files): set<string> {
    w.Keys - wo.Keys
  }

  function Shared(w: Files, wo: Files): set<string> {
    w.Keys * wo.Keys
  }

  /** What removal does at `p`, given what stands there; `w` is the render with the battery and
      `wo` the one without. */
  function FateOf(files: Files, w: Files, wo: Files, hybrid: set<string>, p: string): Fate {
    if p in w && p !in wo then
      if StartsWith(p, MIGRATIONS) then Keep else Delete
    else if p !in w || p !in wo || p == ANSWERS || w[p] == wo[p] then Keep
    else if p in hybrid then
      if p in files && Splice(files[p], wo[p]).Spliced? then Write(Splice(files[p], wo[p]).text) else Fail
    else if p in files && files[p] == w[p] then Write(wo[p])
    else Warn
  }

  /** The tree once the paths of `done` have been dealt with. */
  function Settle(files: Files, w: Files, wo: Files, hybrid: set<string>, done: set<string>): Files {
    map p | p in files && !(p in done && FateOf(files, w, wo, hybrid, p).Delete?) ::
      if p in done && FateOf(files, w, wo, hybrid, p).Write? then FateOf(files, w, wo, hybrid, p).text else files[p]
  }

  /** The shared paths that come before `f`. */
  function Before(paths: set<string>, f: string): set<string> {
    set p | p in paths && AtMost(p, f) && p != f
  }

  // ---------------------------------------------------------------- usage

  predicate IsSource(p: string) {
    StartsWith(p, SRC) && EndsWith(p, PY)
  }

  /** A builder's file that mentions the battery; one that is still as rendered does not count. */
  predicate Uses(files: Files, w: Files, owned: set<string>, package: string, battery: string, p: string) {
    && p in files && IsSource(p) && p !in owned
    && (Contains(files[p], package + "." + battery) || Contains(files[p], battery))
    && !(p in w && w[p] == files[p])
  }

  function References(files: Files, w: Files, owned: set<string>, package: string, battery: string): set<string> {
    set p | p in files && Uses(files, w, owned, package, battery, p)
  }

  function Package(answers: string): string {
    var v := Answers.ReadText(Lines(answers), "package_name");
    if v.Some? then v.value else ""
  }

  function Recorded(files: Files): seq<string> {
    if ANSWERS in files then Answers.ReadBatteries(Lines(files[ANSWERS])) else []
  }

  method UsageReferences(files: Files, w: Files, owned: set<string>, package: string, battery: string) returns (hits: set<string>)
    ensures hits == References(files, w, owned, package, battery)
  {
    var paths := Batteries.SortNames(set p | p in files && IsSource(p));
    hide IsSource, Contains, Ascending;
    hits := {};
    for i := 0 to |paths|
      invariant hits == set p | p in paths[..i] && Uses(files, w, owned, package, battery, p)
    {
      assert paths[..i + 1] == paths[..i] + [paths[i]];
      var p := paths[i];
      assert p in ToSet(paths);
      if p !in owned && (Contains(files[p], package + "." + battery) || Contains(files[p], battery)) {
        if !(p in w && w[p] == files[p]) {
          hits := hits + {p};
        }
      }
    }
    assert paths[..|paths|] == paths;
    assert forall p :: p in files && IsSource(p) ==> p in ToSet(paths);
  }

  // ---------------------------------------------------------------- dependents

  ghost predicate Unresolvable(reg: Batteries.Registry, name: string) {
    exists n :: Batteries.Reachable(reg, [name], n) && n !in reg
  }

  /** `blocking_dependents`; None when a dependency closure has an unknown name. */
  method BlockingDependents(reg: Batteries.Registry, active: seq<string>, battery: string) returns (r: Option<set<string>>)
    ensures r.None? <==> exists b :: b in active && b != battery && Unresolvable(reg, b)
    ensures r.Some? ==> forall b :: b in r.value <==> b in active && b != battery && Batteries.DependsOn(reg, b, battery)
  {
    hide Batteries.Reachable, Batteries.Closed, Ascending;
    var found: set<string> := {};
    for i := 0 to |active|
      invariant forall b :: b in active[..i] && b != battery ==> !Unresolvable(reg, b)
      invariant forall b :: b in found <==> b in active[..i] && b != battery && Batteries.DependsOn(reg, b, battery)
    {
      assert active[..i + 1] == active[..i] + [active[i]];
      if active[i] != battery {
        var closure := Batteries.Resolve(reg, [active[i]]);
        Batteries.ResolutionIsLeast(reg, [active[i]], closure);
        if closure.Unknown? {
          assert active[i] in active && Unresolvable(reg, active[i]);
          return None;
        }
        ClosureIsReachable(reg, active[i], closure.names, battery);
        if battery in closure.names {
          found := found + {active[i]};
        }
      }
    }
    assert active[..|active|] == active;
    r := Some(found);
  }

  lemma ClosureIsReachable(reg: Batteries.Registry, name: string, names: seq<string>, battery: string)
    requires Batteries.IsResolution(reg, [name], Batteries.Resolved(names))
    ensures battery in names <==> Batteries.DependsOn(reg, name, battery)
  {
    hide Batteries.Reachable, Ascending;
    if Batteries.Reachable(reg, [name], battery) {
      assert forall n :: n in [name] ==> n in ToSet(names);
      Batteries.ReachableInClosed(reg, [name], battery, ToSet(names));
    }
  }

  // ---------------------------------------------------------------- the whole removal

  /** The answers file with the reduced set recorded. */
  function Recording(answers: string, reduced: seq<string>): string {
    AnswersView.After(answers, AnswersView.Batteries(reduced))
  }

  function Locking(f: Framework, files: Files): Option<Integrity.Error>
    requires ANSWERS in files
  {
    FirstError(files, f.ignored, f.rules(files[ANSWERS]))
  }

  function Locked(f: Framework, files: Files): Files
    requires ANSWERS in files
  {
    files[LOCK := Dumps(f.hash, Generated(f.hash, files, f.version, f.rules(files[ANSWERS])))]
  }

  /** The last step: record the reduced set and, in a project that has a lock, write it again. */
  ghost predicate Finishes(f: Framework, settled: Files, reduced: seq<string>, r: Removal, after: Files) {
    if ANSWERS !in settled then r == Stuck(ANSWERS) && after == settled
    else
      var recorded := settled[ANSWERS := Recording(settled[ANSWERS], reduced)];
      if LOCK !in recorded then r.Removed? && after == recorded
      else if Locking(f, recorded).Some? then r == Unlocked(Locking(f, recorded).value) && after == recorded
      else r.Removed? && after == Locked(f, recorded)
  }

  ghost predicate ListsExactly(names: seq<string>, s: set<string>) {
    Ascending(names) && ToSet(names) == s
  }

  ghost predicate ReportIs(report: Report, before: Files, w: Files, wo: Files, hybrid: set<string>) {
    && ListsExactly(report.removed, set p | p in Owned(w, wo) && !StartsWith(p, MIGRATIONS))
    && ListsExactly(report.preserved, set p | p in Owned(w, wo) && StartsWith(p, MIGRATIONS))
    && exists modified: seq<string> ::
         && ListsExactly(modified, set p | p in Shared(w, wo) && FateOf(before, w, wo, hybrid, p).Warn?)
         && report.warnings == Warnings(modified, report.preserved)
  }

  function ModifiedAll(paths: seq<string>): seq<Warning> {
    seq(|paths|, i requires 0 <= i < |paths| => Modified(paths[i]))
  }

  function Warnings(modified: seq<string>, preserved: seq<string>): seq<Warning> {
    ModifiedAll(modified) + if preserved == [] then [] else [MigrationsKept(preserved)]
  }

  ghost predicate Failing(files: Files, w: Files, wo: Files, hybrid: set<string>, p: string) {
    p in Shared(w, wo) && FateOf(files, w, wo, hybrid, p).Fail?
  }

  /** From the two renders on: the first path that fails stops the removal there. */
  ghost predicate Carries(f: Framework, before: Files, w: Files, wo: Files, reduced: seq<string>, r: Removal, after: Files) {
    if exists p :: Failing(before, w, wo, f.hybrid, p) then
      && r.Stuck? && Failing(before, w, wo, f.hybrid, r.path)
      && (forall p :: Failing(before, w, wo, f.hybrid, p) ==> AtMost(r.path, p))
      && after == Settle(before, w, wo, f.hybrid, Owned(w, wo) + Before(Shared(w, wo), r.path))
    else
      && Finishes(f, Settle(before, w, wo, f.hybrid, w.Keys), reduced, r, after)
      && (r.Removed? ==> ReportIs(r.report, before, w, wo, f.hybrid))
  }

  /** `remove_battery`: what it returns and what it leaves. */
  ghost predicate IsRemoval(f: Framework, before: Files, battery: string, force: bool, r: Removal, after: Files) {
    var current := Recorded(before);
    var dependents := set b | b in current && b != battery && Batteries.DependsOn(f.registry, b, battery);
    if battery !in f.registry then r == Rejected(UnknownBattery) && after == before
    else if battery !in current then r == Rejected(NotActive) && after == before
    else if exists b :: b in current && b != battery && Unresolvable(f.registry, b) then
      r == Rejected(UnknownRequirement) && after == before
    else if dependents != {} then r == Rejected(StillRequired(dependents)) && after == before
    else
      var answers := before[ANSWERS];
      var reduced := Without(current, {battery});
      var w, wo := f.render(answers, current), f.render(answers, reduced);
      var refs := References(before, w, Owned(w, wo), Package(answers), battery);
      if refs != {} && !force then r == Rejected(InUse(refs)) && after == before
      else Carries(f, before, w, wo, reduced, r, after)
  }

  // ---------------------------------------------------------------- one path at a time

  lemma SettleNothing(files: Files, w: Files, wo: Files, hybrid: set<string>)
    ensures Settle(files, w, wo, hybrid, {}) == files
  {
    hide FateOf;
  }

  /** Dealing with one more path; its own fate is still what it was at the start. */
  lemma SettleOne(files: Files, w: Files, wo: Files, hybrid: set<string>, done: set<string>, p: string)
    requires p !in done
    ensures var now := Settle(files, w, wo, hybrid, done);
            var fate := FateOf(files, w, wo, hybrid, p);
            && FateOf(now, w, wo, hybrid, p) == fate
            && (p in now <==> p in files) && (p in files ==> now[p] == files[p])
            && (fate.Write? ==> p in files)
            && Settle(files, w, wo, hybrid, done + {p}) ==
               (if fate.Delete? then now - {p} else if fate.Write? then now[p := fate.text] else now)
  {
    FateIsLocal(files, Settle(files, w, wo, hybrid, done), w, wo, hybrid, p);
    assert FateOf(files, w, wo, hybrid, p).Write? ==> p in files;
    hide FateOf;
  }

  lemma FateIsLocal(files: Files, files': Files, w: Files, wo: Files, hybrid: set<string>, p: string)
    requires (p in files <==> p in files') && (p in files ==> files[p] == files'[p])
    ensures FateOf(files, w, wo, hybrid, p) == FateOf(files', w, wo, hybrid, p)
  {
    hide Splice, StartsWith;
  }

  lemma OwnedFate(files: Files, w: Files, wo: Files, hybrid: set<string>, p: string)
    requires p in Owned(w, wo)
    ensures FateOf(files, w, wo, hybrid, p) == if StartsWith(p, MIGRATIONS) then Keep else Delete
  {
  }

  lemma SortedPrefix(s: seq<string>, i: nat)
    requires Ascending(s) && i < |s|
    ensures ToSet(s[..i]) == Before(ToSet(s), s[i])
  {
    hide AtMost;
    forall p ensures p in s[..i] <==> p in s && AtMost(p, s[i]) && p != s[i] {
      if p in s && AtMost(p, s[i]) && p != s[i] {
        var j :| 0 <= j < |s| && s[j] == p;
        if j > i {
          AtMostAntisymmetric(s[i], s[j]);
        }
        assert s[..i][j] == p;
      }
    }
  }

  lemma PrefixGrows(s: seq<string>, i: nat)
    requires i < |s|
    ensures ToSet(s[..i + 1]) == ToSet(s[..i]) + {s[i]}
    ensures s[..i + 1] == s[..i] + [s[i]]
  {
    assert s[..i + 1] == s[..i] + [s[i]];
  }

  lemma Fresh(s: seq<string>, i: nat)
    requires Ascending(s) && i < |s|
    ensures s[i] !in ToSet(s[..i])
  {
    hide AtMost;
  }

  /** A sorted list grown from a sorted one by a later name. */
  lemma ListGrows(names: seq<string>, s: seq<string>, i: nat)
    requires Ascending(s) && i < |s| && Ascending(names) && ToSet(names) <= ToSet(s[..i])
    ensures Ascending(names + [s[i]]) && ToSet(names + [s[i]]) == ToSet(names) + {s[i]}
  {
    hide AtMost;
    var grown := names + [s[i]];
    forall a | 0 <= a < |names| ensures AtMost(grown[a], s[i]) && grown[a] != s[i] {
      assert names[a] in ToSet(names);
      var j :| 0 <= j < |s[..i]| && s[..i][j] == names[a];
      assert s[j] == names[a];
    }
  }

  // ---------------------------------------------------------------- the passes over the tree

  /** Deletes what the battery owns, except its migrations. */
  method DeleteOwned(t: Project, w: Files, wo: Files, ghost hybrid: set<string>) returns (removed: seq<string>, preserved: seq<string>)
    modifies t
    ensures t.files == Settle(old(t.files), w, wo, hybrid, Owned(w, wo))
    ensures ListsExactly(removed, set p | p in Owned(w, wo) && !StartsWith(p, MIGRATIONS))
    ensures ListsExactly(preserved, set p | p in Owned(w, wo) && StartsWith(p, MIGRATIONS))
  {
    hide Settle, FateOf, StartsWith, Ascending;
    var order := Batteries.SortNames(Owned(w, wo));
    ghost var before := t.files;
    SettleNothing(before, w, wo, hybrid);
    removed, preserved := [], [];
    EmptyAscends();
    assert ToSet(order[..0]) == {};
    for i := 0 to |order|
      invariant t.files == Settle(before, w, wo, hybrid, ToSet(order[..i]))
      invariant ListsExactly(removed, set p | p in ToSet(order[..i]) && !StartsWith(p, MIGRATIONS))
      invariant ListsExactly(preserved, set p | p in ToSet(order[..i]) && StartsWith(p, MIGRATIONS))
    {
      var rel := order[i];
      Fresh(order, i);
      PrefixGrows(order, i);
      SettleOne(before, w, wo, hybrid, ToSet(order[..i]), rel);
      assert rel in ToSet(order);
      OwnedFate(before, w, wo, hybrid, rel);
      if StartsWith(rel, MIGRATIONS) {
        ListGrows(preserved, order, i);
        preserved := preserved + [rel];
      } else {
        ListGrows(removed, order, i);
        if rel in t.files {
          t.files := t.files - {rel};
        }
        removed := removed + [rel];
      }
    }
    assert order[..|order|] == order;
  }

  lemma EmptyAscends()
    ensures Ascending([])
  {
  }

  /** The files both renders have and the battery changes: splice, overwrite or warn. Stops at
      the first path that fails. */
  method SettleShared(t: Project, w: Files, wo: Files, hybrid: set<string>, ghost before: Files)
    returns (warnings: seq<string>, failed: Option<string>)
    requires t.files == Settle(before, w, wo, hybrid, Owned(w, wo))
    modifies t
    ensures failed.None? ==>
              && t.files == Settle(before, w, wo, hybrid, w.Keys)
              && ListsExactly(warnings, set p | p in Shared(w, wo) && FateOf(before, w, wo, hybrid, p).Warn?)
              && forall p :: p in Shared(w, wo) ==> !FateOf(before, w, wo, hybrid, p).Fail?
    ensures failed.Some? ==>
              && Failing(before, w, wo, hybrid, failed.value)
              && (forall p :: Failing(before, w, wo, hybrid, p) ==> AtMost(failed.value, p))
              && t.files == Settle(before, w, wo, hybrid, Owned(w, wo) + Before(Shared(w, wo), failed.value))
  {
    hide Settle, StartsWith, Ascending, AtMost, Splice, FateOf;
    var order := Batteries.SortNames(Shared(w, wo));
    warnings := [];
    EmptyAscends();
    assert ToSet(order[..0]) == {};
    assert Owned(w, wo) + {} == Owned(w, wo);
    for i := 0 to |order|
      invariant t.files == Settle(before, w, wo, hybrid, Owned(w, wo) + ToSet(order[..i]))
      invariant ListsExactly(warnings, set p | p in ToSet(order[..i]) && FateOf(before, w, wo, hybrid, p).Warn?)
      invariant forall p :: p in ToSet(order[..i]) ==> !FateOf(before, w, wo, hybrid, p).Fail?
    {
      var rel := order[i];
      Fresh(order, i);
      PrefixGrows(order, i);
      assert rel in ToSet(order);
      ghost var done := Owned(w, wo) + ToSet(order[..i]);
      SettleOne(before, w, wo, hybrid, done, rel);
      assert Owned(w, wo) + ToSet(order[..i + 1]) == done + {rel};
      SharedFate(t.files, w, wo, hybrid, rel);
      if rel == ANSWERS || w[rel] == wo[rel] {
        continue;
      }
      if rel in hybrid {
        if rel !in t.files {
          FirstFailure(before, w, wo, hybrid, order, i);
          return warnings, Some(rel);
        }
        var spliced := Splice(t.files[rel], wo[rel]);
        if !spliced.Spliced? {
          FirstFailure(before, w, wo, hybrid, order, i);
          return warnings, Some(rel);
        }
        t.files := t.files[rel := spliced.text];
      } else if rel in t.files && t.files[rel] == w[rel] {
        t.files := t.files[rel := wo[rel]];
      } else {
        ListGrows(warnings, order, i);
        warnings := warnings + [rel];
      }
    }
    assert order[..|order|] == order;
    assert Owned(w, wo) + Shared(w, wo) == w.Keys;
    failed := None;
  }

  lemma SharedFate(files: Files, w: Files, wo: Files, hybrid: set<string>, p: string)
    requires p in Shared(w, wo)
    ensures FateOf(files, w, wo, hybrid, p) ==
            (if p == ANSWERS || w[p] == wo[p] then Keep
             else if p in hybrid then
               if p in files && Splice(files[p], wo[p]).Spliced? then Write(Splice(files[p], wo[p]).text) else Fail
             else if p in files && files[p] == w[p] then Write(wo[p]) else Warn)
  {
    hide Splice;
  }

  lemma FirstFailure(before: Files, w: Files, wo: Files, hybrid: set<string>, order: seq<string>, i: nat)
    requires ListsExactly(order, Shared(w, wo)) && i < |order| && FateOf(before, w, wo, hybrid, order[i]).Fail?
    requires forall p :: p in ToSet(order[..i]) ==> !FateOf(before, w, wo, hybrid, p).Fail?
    ensures Failing(before, w, wo, hybrid, order[i])
    ensures forall p :: Failing(before, w, wo, hybrid, p) ==> AtMost(order[i], p)
    ensures ToSet(order[..i]) == Before(Shared(w, wo), order[i])
  {
    hide FateOf, AtMost;
    assert order[i] in ToSet(order);
    SortedPrefix(order, i);
    forall p | Failing(before, w, wo, hybrid, p) ensures AtMost(order[i], p) {
      AtMostTotal(order[i], p);
    }
  }

  lemma RecordedHasAnswers(files: Files)
    ensures Recorded(files) != [] ==> ANSWERS in files
  {
  }

  /** `remove_battery` */
  method RemoveBattery(f: Framework, t: Project, battery: string, force: bool) returns (r: Removal)
    modifies t
    ensures IsRemoval(f, old(t.files), battery, force, r, t.files)
  {
    hide Carries, Recorded, Owned, References, Unresolvable, Package, Without, Batteries.DependsOn;
    ghost var before := t.files;
    if battery !in f.registry {
      return Rejected(UnknownBattery);
    }
    var current := Recorded(t.files);
    if battery !in current {
      return Rejected(NotActive);
    }
    RecordedHasAnswers(t.files);
    var dependents := BlockingDependents(f.registry, current, battery);
    if dependents.None? {
      return Rejected(UnknownRequirement);
    }
    assert dependents.value == set b | b in current && b != battery && Batteries.DependsOn(f.registry, b, battery);
    if dependents.value != {} {
      return Rejected(StillRequired(dependents.value));
    }
    var answers := t.files[ANSWERS];
    var reduced := Without(current, {battery});
    var w, wo := f.render(answers, current), f.render(answers, reduced);
    var refs := UsageReferences(t.files, w, Owned(w, wo), Package(answers), battery);
    if refs != {} && !force {
      return Rejected(InUse(refs));
    }
    r := Carry(f, t, w, wo, reduced);
    assert Carries(f, before, w, wo, reduced, r, t.files);
  }

  /** From the two renders on. */
  method Carry(f: Framework, t: Project, w: Files, wo: Files, reduced: seq<string>) returns (r: Removal)
    modifies t
    ensures Carries(f, old(t.files), w, wo, reduced, r, t.files)
  {
    hide Settle, FateOf, Ascending, AtMost, Finishes, ListsExactly;
    ghost var before := t.files;
    var removed, preserved := DeleteOwned(t, w, wo, f.hybrid);
    var modified, failed := SettleShared(t, w, wo, f.hybrid, before);
    if failed.Some? {
      return Stuck(failed.value);
    }
    var warnings := ModifiedAll(modified);
    if preserved != [] {
      warnings := warnings + [MigrationsKept(preserved)];
    }
    assert ModifiedAll(modified) + [] == ModifiedAll(modified);
    assert warnings == Warnings(modified, preserved);
    var report := Report(removed, preserved, warnings);
    assert ReportIs(report, before, w, wo, f.hybrid);
    r := Finish(f, t, reduced, report);
  }

  /** The last step. */
  method Finish(f: Framework, t: Project, reduced: seq<string>, report: Report) returns (r: Removal)
    modifies t
    ensures Finishes(f, old(t.files), reduced, r, t.files)
    ensures r.Removed? ==> r.report == report
  {
    hide FirstError, Dumps, EntriesOf;
    if ANSWERS !in t.files {
      return Stuck(ANSWERS);
    }
    var answers := new Answers.AnswersFile(t.files[ANSWERS]);
    answers.RecordBatteries(reduced);
    t.files := t.files[ANSWERS := answers.text];
    if LOCK in t.files {
      var locked := t.WriteManifest(f.hash, f.version, f.rules(t.files[ANSWERS]), f.ignored);
      if locked.Refused? {
        return Unlocked(locked.error);
      }
    }
    r := Removed(report);
  }
}

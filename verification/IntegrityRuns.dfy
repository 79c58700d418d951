/** What the lock means, over every run of generating it, marking drift, restoring files and
    editing anything but the lock itself. */
module IntegrityRuns {
  import opened Lists
  import opened Text
  import opened Sections
  import opened Manifest
  import opened Integrity

  /** What was recorded for a path: for a tracked one, the managed text itself. */
  datatype Base = Base(cls: Class, tier: KnownTier, content: string, drift: bool)

  type Baseline = map<string, Base>

  function EntryFor(k: Hash, path: string, b: Base): Entry {
    Entry(path, b.cls, b.tier, if b.tier.Tracked? then Some(k(b.content)) else None, b.drift)
  }

  /** The entries are exactly those of the baseline, one for each path. */
  ghost predicate EntriesMean(k: Hash, es: seq<Entry>, base: Baseline) {
    && (forall i, j :: 0 <= i < j < |es| ==> es[i].path != es[j].path)
    && (forall i :: 0 <= i < |es| ==> es[i].path in base && es[i] == EntryFor(k, es[i].path, base[es[i].path]))
    && (forall p :: p in base ==> exists i :: 0 <= i < |es| && es[i].path == p)
  }

  /** The lock is self-consistent and records the baseline. */
  ghost predicate LockMeans(k: Hash, files: Files, base: Baseline) {
    && LOCK in files && LOCK !in base
    && SelfConsistent(k, files[LOCK])
    && EntriesMean(k, LoadManifest(files[LOCK]).value.entries, base)
  }

  /** What has become of a tracked file since it was recorded; no hash is involved. */
  function Status(files: Files, path: string, b: Base): Option<Problem> {
    if path !in files then Some(Missing)
    else
      var now := Managed(b.cls, files[path]);
      if now.None? then Some(Damaged)
      else if now.value == b.content then None
      else Some(if b.cls.Hybrid? then SectionAltered else LockedAltered)
  }

  // ---------------------------------------------------------------- reading the lock

  /** The managed text of a file is `content`: of a hybrid file the lines between its markers, of any
      other the whole. */
  ghost predicate Holds(cls: Class, text: string, content: string) {
    if cls.Hybrid? then exists b: nat, e: nat :: Marked(Lines(text), b, e) && e < |Lines(text)| && content == Join(Lines(text)[b + 1..e])
    else content == text
  }

  lemma ManagedHolds(cls: Class, text: string)
    ensures forall content :: Managed(cls, text) == Some(content) <==> Holds(cls, text, content)
    ensures Managed(cls, text).None? <==> cls.Hybrid? && forall b: nat, e: nat :: !Marked(Lines(text), b, e)
  {
    ContentIs(text);
    forall b: nat, e: nat ensures Span(text) == Some((b, e)) <==> Marked(Lines(text), b, e) {
      SpanIff(Lines(text), b, e);
    }
    hide Content, Lines, Join, OnlyAt, Span;
  }

  /** What a status says of a file. */
  lemma StatusMeans(files: Files, path: string, b: Base)
    ensures Status(files, path, b).None? <==> path in files && Holds(b.cls, files[path], b.content)
    ensures Status(files, path, b) == Some(Missing) <==> path !in files
    ensures Status(files, path, b) == Some(Damaged) <==>
              path in files && b.cls.Hybrid? && forall m: nat, e: nat :: !Marked(Lines(files[path]), m, e)
    ensures Status(files, path, b).Some? ==>
              Status(files, path, b).value in {Missing, Damaged, if b.cls.Hybrid? then SectionAltered else LockedAltered}
  {
    if path in files {
      ManagedHolds(b.cls, files[path]);
    }
    hide Managed, Holds, Marked;
  }

  lemma EntryFindingIsStatus(k: Hash, files: Files, ci: bool, path: string, b: Base)
    requires HashOk(k)
    ensures EntryFinding(k, files, ci, EntryFor(k, path, b)) ==
            (if b.drift then None
             else if b.tier.Gitignored? then if ci || path in files then None else Some(Finding(path, Absent, false))
             else if Status(files, path, b).None? then None
             else Some(Finding(path, Status(files, path, b).value, true)))
  {
    hide Content;
  }

  /** What a check is to report of a recorded path: of a tracked file what happened to it, which is
      fatal; of an ignored one, outside CI only, that it is not there. */
  ghost predicate ToReport(files: Files, ci: bool, path: string, b: Base, problem: Problem, fatal: bool) {
    && !b.drift
    && if b.tier.Tracked? then fatal && Status(files, path, b) == Some(problem)
       else !ci && path !in files && problem == Absent && !fatal
  }

  lemma {:induction false} FindingsMembers(k: Hash, files: Files, ci: bool, es: seq<Entry>, f: Finding)
    ensures f in EntryFindings(k, files, ci, es) <==>
            exists i :: 0 <= i < |es| && EntryFinding(k, files, ci, es[i]) == Some(f)
  {
    hide EntryFinding;
    if es != [] {
      FindingsMembers(k, files, ci, es[1..], f);
      var rest := EntryFindings(k, files, ci, es[1..]);
      var e := EntryFinding(k, files, ci, es[0]);
      if f in rest {
        var i :| 0 <= i < |es[1..]| && EntryFinding(k, files, ci, es[1..][i]) == Some(f);
        assert es[i + 1] == es[1..][i];
      }
      if i :| 0 <= i < |es| && EntryFinding(k, files, ci, es[i]) == Some(f) {
        assert i > 0 ==> es[1..][i - 1] == es[i];
      }
    }
  }

  /** The check reports exactly the undrifted tracked files that are missing, damaged or changed
      since they were recorded, each with what happened to it, all of them fatal; and, outside CI,
      the undrifted ignored files that are not there, none of them fatal. */
  lemma CheckReportsExactly(k: Hash, files: Files, ci: bool, base: Baseline)
    requires HashOk(k) && LockMeans(k, files, base)
    ensures Checked(k, files, ci).Findings?
    ensures forall f :: f in Checked(k, files, ci).findings <==>
              f.path in base && ToReport(files, ci, f.path, base[f.path], f.problem, f.fatal)
  {
    var es := LoadManifest(files[LOCK]).value.entries;
    hide EntryFinding, Status, EntryFor, LoadManifest;
    forall f ensures f in EntryFindings(k, files, ci, es) <==>
              f.path in base && ToReport(files, ci, f.path, base[f.path], f.problem, f.fatal)
    {
      FindingsMembers(k, files, ci, es, f);
      forall i | 0 <= i < |es|
        ensures EntryFinding(k, files, ci, es[i]) == Some(f) <==>
          es[i].path == f.path && ToReport(files, ci, f.path, base[f.path], f.problem, f.fatal)
      {
        EntryFindingIsStatus(k, files, ci, es[i].path, base[es[i].path]);
      }
    }
  }

  /** A lock that is not there, or that was edited so that it says something else than its recorded
      hash covers, is the one fatal finding of a check. */
  lemma LostOrTamperedLock(k: Hash, files: Files, ci: bool, was: string)
    requires HashOk(k) && SelfConsistent(k, was)
    ensures LOCK !in files ==> Checked(k, files, ci) == Findings([Finding(LOCK, LockMissing, true)])
    ensures LOCK in files && LoadManifest(files[LOCK]).Some? && StoredHash(files[LOCK]) == StoredHash(was) &&
            !SameContent(LoadManifest(was).value, LoadManifest(files[LOCK]).value) ==>
              Checked(k, files, ci) == Findings([Finding(LOCK, LockTampered, true)])
  {
    hide LoadManifest, StoredHash, SelfConsistent, SameContent, EntryFinding;
    if LOCK in files && LoadManifest(files[LOCK]).Some? && StoredHash(files[LOCK]) == StoredHash(was) {
      Consistent(k, was);
      TamperingShows(k, was, files[LOCK]);
    }
  }

  lemma Consistent(k: Hash, text: string)
    requires SelfConsistent(k, text)
    ensures LoadManifest(text).Some?
  {
  }

  // ---------------------------------------------------------------- writing the lock

  lemma SortedMeans(k: Hash, es: seq<Entry>, base: Baseline)
    requires EntriesMean(k, es, base)
    ensures EntriesMean(k, Sorted(es), base)
  {
    SortedInOrder(es);
    var s := Sorted(es);
    hide Sorted, EntryFor, InOrder;
    forall i | 0 <= i < |s| ensures s[i] in es { assert s[i] in multiset(s); }
    forall i | 0 <= i < |es| ensures es[i] in s { assert es[i] in multiset(es); }
    forall i, j | 0 <= i < j < |s| ensures s[i].path != s[j].path {
      if s[i].path == s[j].path {
        var a :| 0 <= a < |es| && es[a] == s[i];
        var b :| 0 <= b < |es| && es[b] == s[j];
        assert a == b;
        CountTwice(s, i, j);
        CountBelow(es, s[i]);
      }
    }
  }

  lemma {:induction false} CountBelow(es: seq<Entry>, e: Entry)
    requires forall i, j :: 0 <= i < j < |es| ==> es[i].path != es[j].path
    ensures multiset(es)[e] <= 1
  {
    if es != [] {
      var last := |es| - 1;
      CountBelow(es[..last], e);
      assert es == es[..last] + [es[last]];
      if e == es[last] {
        assert e !in es[..last];
      }
    }
  }

  lemma CountTwice(s: seq<Entry>, i: nat, j: nat)
    requires i < j < |s| && s[i] == s[j]
    ensures multiset(s)[s[i]] >= 2
  {
    assert s == s[..i] + [s[i]] + s[i + 1..j] + [s[j]] + s[j + 1..];
  }

  /** Writing a manifest whose entries record a baseline gives a lock that means it. */
  lemma WrittenMeans(k: Hash, files: Files, m: Manifest, base: Baseline)
    requires HashOk(k) && EntriesMean(k, m.entries, base) && LOCK !in base
    ensures LockMeans(k, files[LOCK := Dumps(k, m)], base)
  {
    DumpsIsConsistent(k, m);
    SortedMeans(k, m.entries, base);
    hide Dumps, Sorted, EntriesMean, LoadManifest, SelfConsistent;
  }

  // ---------------------------------------------------------------- generating

  ghost predicate RulesOk(rules: seq<Rule>) {
    && (forall i, j :: 0 <= i < j < |rules| ==> rules[i].path != rules[j].path)
    && (forall i :: 0 <= i < |rules| ==> rules[i].path != LOCK)
  }

  function RuleBase(files: Files, r: Rule): Base {
    var content := if r.path in files && Managed(r.cls, files[r.path]).Some? then Managed(r.cls, files[r.path]).value else "";
    Base(r.cls, r.tier, content, false)
  }

  lemma RuleRecorded(k: Hash, files: Files, ignored: string -> bool, r: Rule)
    requires RuleError(files, ignored, r).None?
    ensures EntryOfRule(k, files, r) == Some(EntryFor(k, r.path, RuleBase(files, r)))
    ensures RuleBase(files, r).tier.Tracked? ==> Status(files, r.path, RuleBase(files, r)).None?
    ensures !RuleBase(files, r).drift
  {
    hide Content;
  }

  /** What the rules record of the files as they are. */
  function BaseOf(files: Files, rules: seq<Rule>): Baseline {
    if rules == [] then map[]
    else
      BaseOf(files, rules[1..])[rules[0].path := RuleBase(files, rules[0])]
  }

  lemma {:induction false} BaseKeys(files: Files, rules: seq<Rule>)
    ensures forall p :: p in BaseOf(files, rules) <==> exists i :: 0 <= i < |rules| && rules[i].path == p
  {
    if rules != [] {
      BaseKeys(files, rules[1..]);
      assert forall i :: 1 <= i < |rules| ==> rules[i] == rules[1..][i - 1];
    }
  }

  lemma {:induction false} GeneratedMeans(k: Hash, files: Files, ignored: string -> bool, rules: seq<Rule>)
    requires RulesOk(rules) && FirstError(files, ignored, rules).None?
    ensures EntriesMean(k, EntriesOf(k, files, rules), BaseOf(files, rules))
    ensures |EntriesOf(k, files, rules)| == |rules|
    ensures forall i :: 0 <= i < |rules| ==> EntriesOf(k, files, rules)[i].path == rules[i].path
  {
    if rules != [] {
      hide Content, Managed, EntriesMean, Status, RuleBase, EntryOfRule, RuleError, EntriesOf, BaseOf;
      assert forall i :: 1 <= i < |rules| ==> rules[i] == rules[1..][i - 1];
      GeneratedMeans(k, files, ignored, rules[1..]);
      GeneratedStep(k, files, ignored, rules);
    }
  }

  /** What was just recorded of a tracked file is what it holds. */
  lemma {:induction false} GeneratedIsFresh(files: Files, ignored: string -> bool, rules: seq<Rule>, p: string)
    requires FirstError(files, ignored, rules).None?
    ensures var base := BaseOf(files, rules);
            p in base && base[p].tier.Tracked? ==> Status(files, p, base[p]).None? && !base[p].drift
  {
    if rules != [] {
      hide Status, RuleBase, RuleError;
      GeneratedIsFresh(files, ignored, rules[1..], p);
      RuleRecorded(s => "", files, ignored, rules[0]);
    }
  }

  lemma GeneratedStep(k: Hash, files: Files, ignored: string -> bool, rules: seq<Rule>)
    requires RulesOk(rules) && rules != [] && FirstError(files, ignored, rules).None?
    requires EntriesMean(k, EntriesOf(k, files, rules[1..]), BaseOf(files, rules[1..]))
    requires |EntriesOf(k, files, rules[1..])| == |rules| - 1
    requires forall i :: 1 <= i < |rules| ==> EntriesOf(k, files, rules[1..])[i - 1].path == rules[i].path
    ensures EntriesMean(k, EntriesOf(k, files, rules), BaseOf(files, rules))
    ensures |EntriesOf(k, files, rules)| == |rules|
    ensures forall i :: 0 <= i < |rules| ==> EntriesOf(k, files, rules)[i].path == rules[i].path
  {
    hide Content, EntriesMean, Managed, EntryOfRule, EntryFor, RuleBase, Status, RuleError;
    var rest, base := EntriesOf(k, files, rules[1..]), BaseOf(files, rules[1..]);
    RuleRecorded(k, files, ignored, rules[0]);
    var e := EntryOfRule(k, files, rules[0]).value;
    EntryForPath(k, rules[0].path, RuleBase(files, rules[0]));
    assert EntriesOf(k, files, rules) == [e] + rest;
    forall i | 0 <= i < |rest| ensures rest[i].path != e.path {
      assert rest[i].path == rules[i + 1].path;
    }
    MeansCons(k, e, rest, RuleBase(files, rules[0]), base);
  }

  lemma EntryForPath(k: Hash, path: string, b: Base)
    ensures EntryFor(k, path, b).path == path
  {
  }

  lemma MeansCons(k: Hash, e: Entry, rest: seq<Entry>, b: Base, base: Baseline)
    requires EntriesMean(k, rest, base) && e == EntryFor(k, e.path, b)
    requires forall i :: 0 <= i < |rest| ==> rest[i].path != e.path
    ensures EntriesMean(k, [e] + rest, base[e.path := b])
  {
    hide EntryFor;
    var es := [e] + rest;
    assert forall i :: 1 <= i < |es| ==> es[i] == rest[i - 1];
    assert es[0] == e;
    var base' := base[e.path := b];
    forall p | p in base' ensures exists i :: 0 <= i < |es| && es[i].path == p {
      if p == e.path {
        assert es[0].path == p;
      } else {
        var i :| 0 <= i < |rest| && rest[i].path == p;
        assert es[i + 1].path == p;
      }
    }
  }

  /** What stops the lock from being written at rule `r`, in the order of the checks. */
  ghost predicate Stops(files: Files, ignored: string -> bool, r: Rule, e: Error) {
    && r.tier.Tracked?
    && if !r.resolved then e == NoPackage
       else if ignored(r.path) then e == IgnoredTracked(r.path)
       else if r.path !in files then e == NotRendered(r.path)
       else r.cls.Hybrid? && e == NoMarkers(r.path) && forall m: nat, n: nat :: !Marked(Lines(files[r.path]), m, n)
  }

  lemma StopsIs(files: Files, ignored: string -> bool, r: Rule)
    ensures forall e :: RuleError(files, ignored, r) == Some(e) <==> Stops(files, ignored, r, e)
  {
    hide Managed, Holds, Marked;
    if r.path in files {
      ManagedHolds(r.cls, files[r.path]);
      assert Managed(r.cls, files[r.path]).None? <==> r.cls.Hybrid? && forall m: nat, n: nat :: !Marked(Lines(files[r.path]), m, n);
    }
    forall e ensures RuleError(files, ignored, r) == Some(e) <==> Stops(files, ignored, r, e) {
    }
  }

  /** The lock is refused exactly when some rule stops it, with the error of the first that does. */
  lemma {:induction false} RefusedIffStopped(files: Files, ignored: string -> bool, rules: seq<Rule>)
    ensures forall e :: FirstError(files, ignored, rules) == Some(e) <==>
              exists i :: 0 <= i < |rules| && Stops(files, ignored, rules[i], e) &&
                forall j, e' :: 0 <= j < i ==> !Stops(files, ignored, rules[j], e')
  {
    hide Stops, RuleError;
    if rules != [] {
      var rest := rules[1..];
      StopsIs(files, ignored, rules[0]);
      RefusedIffStopped(files, ignored, rest);
      forall e ensures FirstError(files, ignored, rules) == Some(e) <==>
              exists i :: 0 <= i < |rules| && Stops(files, ignored, rules[i], e) &&
                forall j, e' :: 0 <= j < i ==> !Stops(files, ignored, rules[j], e')
      {
        if i :| 0 <= i < |rest| && Stops(files, ignored, rest[i], e) && forall j, e' :: 0 <= j < i ==> !Stops(files, ignored, rest[j], e') {
          if RuleError(files, ignored, rules[0]).None? {
            assert Stops(files, ignored, rules[i + 1], e);
            assert forall j :: 0 < j < i + 1 ==> rules[j] == rest[j - 1];
          }
        }
        if i :| 0 <= i < |rules| && Stops(files, ignored, rules[i], e) && forall j, e' :: 0 <= j < i ==> !Stops(files, ignored, rules[j], e') {
          if i > 0 {
            assert Stops(files, ignored, rest[i - 1], e);
            assert forall j :: 0 <= j < i - 1 ==> rest[j] == rules[j + 1];
          }
        }
      }
    }
  }

  /** What a fresh lock records: of every rule its class and tier, undrifted, and of a tracked one
      the managed text as it is. */
  lemma {:induction false} RulesAreRecorded(files: Files, ignored: string -> bool, rules: seq<Rule>, i: nat)
    requires RulesOk(rules) && FirstError(files, ignored, rules).None? && i < |rules|
    ensures var r := rules[i];
            && r.path in BaseOf(files, rules)
            && var b := BaseOf(files, rules)[r.path];
            && b.cls == r.cls && b.tier == r.tier && !b.drift
            && (r.tier.Tracked? ==> r.path in files && Holds(r.cls, files[r.path], b.content))
  {
    hide Holds;
    if i > 0 {
      RulesAreRecorded(files, ignored, rules[1..], i - 1);
    } else if rules[0].tier.Tracked? {
      ManagedHolds(rules[0].cls, files[rules[0].path]);
      hide Managed;
    }
  }

  /** A freshly written lock means the files as they are, and the check finds nothing. */
  lemma FreshLockIsClean(k: Hash, files: Files, framework: string, rules: seq<Rule>, ignored: string -> bool)
    requires HashOk(k) && RulesOk(rules) && FirstError(files, ignored, rules).None?
    ensures var files' := files[LOCK := Dumps(k, Generated(k, files, framework, rules))];
            LockMeans(k, files', BaseOf(files, rules)) && Checked(k, files', true) == Findings([])
  {
    GeneratedMeans(k, files, ignored, rules);
    BaseKeys(files, rules);
    forall p ensures var base := BaseOf(files, rules);
                     p in base && base[p].tier.Tracked? ==> Status(files, p, base[p]).None? && !base[p].drift
    {
      GeneratedIsFresh(files, ignored, rules, p);
    }
    var files' := files[LOCK := Dumps(k, Generated(k, files, framework, rules))];
    var base := BaseOf(files, rules);
    WrittenMeans(k, files, Generated(k, files, framework, rules), base);
    CheckReportsExactly(k, files', true, base);
    StatusElsewhere(files, files', base);
    hide Dumps, EntriesOf, BaseOf, EntriesMean, Managed, Checked, LockMeans, Status;
    var fs := Checked(k, files', true).findings;
    assert forall f :: f !in fs;
    FirstIn(fs);
  }

  lemma FirstIn(fs: seq<Finding>)
    ensures fs != [] ==> exists f :: f in fs
  {
    if fs != [] {
      assert fs[0] in fs;
    }
  }

  /** A change to the lock alone leaves every recorded file's status. */
  lemma StatusElsewhere(files: Files, files': Files, base: Baseline)
    requires LOCK !in base && forall p :: p != LOCK ==> (p in files <==> p in files') && (p in files ==> files[p] == files'[p])
    ensures forall p :: p in base ==> Status(files', p, base[p]) == Status(files, p, base[p])
  {
  }

  // ---------------------------------------------------------------- drift

  function DriftBase(base: Baseline, paths: seq<string>): Baseline {
    map p | p in base :: if p in paths then base[p].(drift := true) else base[p]
  }

  lemma DriftEntries(k: Hash, es: seq<Entry>, base: Baseline, paths: seq<string>)
    requires EntriesMean(k, es, base)
    ensures EntriesMean(k, WithDrift(es, paths), DriftBase(base, paths))
  {
    var es', base' := WithDrift(es, paths), DriftBase(base, paths);
    forall p | p in base' ensures exists i :: 0 <= i < |es'| && es'[i].path == p {
      var i :| 0 <= i < |es| && es[i].path == p;
      assert es'[i].path == p;
    }
  }

  lemma {:induction false} UnknownNone(k: Hash, es: seq<Entry>, base: Baseline, paths: seq<string>)
    requires EntriesMean(k, es, base)
    ensures forall p :: p in Unknown(es, paths) <==> p in paths && p !in base
  {
    if paths != [] {
      hide EntryFor;
      UnknownNone(k, es, base, paths[1..]);
      assert forall p :: p in paths <==> p == paths[0] || p in paths[1..];
      var known := exists i :: 0 <= i < |es| && es[i].path == paths[0];
      assert known <==> paths[0] in base;
      assert Unknown(es, paths) == (if known then [] else [paths[0]]) + Unknown(es, paths[1..]);
    }
  }

  /** Marking drift succeeds exactly on managed paths, changes the lock only, and records
      exactly those paths as drifted. */
  lemma DriftMeans(k: Hash, files: Files, base: Baseline, paths: seq<string>)
    requires HashOk(k) && LockMeans(k, files, base)
    ensures var (r, files') := Drifted(k, files, paths);
            && (r.Done? <==> forall p :: p in paths ==> p in base)
            && (r.Done? ==> LockMeans(k, files', DriftBase(base, paths)))
            && (!r.Done? ==> files' == files && r.error.Unmanaged? && forall p :: p in r.error.paths <==> p in paths && p !in base)
            && (forall p :: p != LOCK ==> (p in files' <==> p in files) && (p in files ==> files'[p] == files[p]))
  {
    var m := LoadManifest(files[LOCK]).value;
    UnknownNone(k, m.entries, base, paths);
    HasFirst(Unknown(m.entries, paths));
    DriftEntries(k, m.entries, base, paths);
    hide EntriesMean, LoadManifest, Dumps, SelfConsistent, Unknown, WithDrift;
    WrittenMeans(k, files, m.(entries := WithDrift(m.entries, paths)), DriftBase(base, paths));
  }

  // ---------------------------------------------------------------- restore

  lemma {:induction false} EntryAtMeans(k: Hash, es: seq<Entry>, base: Baseline, path: string)
    requires EntriesMean(k, es, base)
    ensures EntryAt(es, path) == if path in base then Some(EntryFor(k, path, base[path])) else None
  {
    EntryAtIs(es, path);
    if path in base {
      var i :| 0 <= i < |es| && es[i].path == path;
    }
  }

  lemma {:induction false} EntryAtIs(es: seq<Entry>, path: string)
    ensures EntryAt(es, path).Some? ==> EntryAt(es, path).value in es && EntryAt(es, path).value.path == path
    ensures EntryAt(es, path).None? ==> forall i :: 0 <= i < |es| ==> es[i].path != path
  {
    if es != [] {
      EntryAtIs(es[1..], path);
      assert forall i :: 1 <= i < |es| ==> es[i] == es[1..][i - 1];
    }
  }

  function RestoredBase(base: Baseline, rel: string, content: string): Baseline
    requires rel in base
  {
    base[rel := base[rel].(content := content, drift := false)]
  }

  lemma RestoredEntries(k: Hash, es: seq<Entry>, base: Baseline, rel: string, content: string)
    requires EntriesMean(k, es, base) && rel in base && base[rel].tier.Tracked?
    ensures EntriesMean(k, WithHash(es, rel, Some(k(content))), RestoredBase(base, rel, content))
  {
    var es', base' := WithHash(es, rel, Some(k(content))), RestoredBase(base, rel, content);
    forall p | p in base' ensures exists i :: 0 <= i < |es'| && es'[i].path == p {
      var i :| 0 <= i < |es| && es[i].path == p;
      assert es'[i].path == p;
    }
  }

  lemma RestoredIsManaged(files: Files, cls: Class, rel: string, canonical: string)
    requires RestoredText(files, cls, rel, canonical).Text?
    ensures Managed(cls, RestoredText(files, cls, rel, canonical).text).Some?
    ensures Managed(cls, RestoredText(files, cls, rel, canonical).text) == Managed(cls, canonical)
  {
    hide Content, Splice, Span;
    if cls.Hybrid? {
      SpliceFailsIff(files[rel], canonical);
      SpliceContent(files[rel], canonical);
    }
  }

  /** The text of a hybrid file after a restore: the canonical section, marker lines included, in
      place of its own; its lines before and after, and its final line break, are the builder's. */
  ghost predicate SectionReplaced(now: string, was: string, canonical: string) {
    && Span(was).Some? && Span(canonical).Some? && Span(now).Some?
    && var t, c, r := Span(was).value, Span(canonical).value, Span(now).value;
    && t.0 < t.1 < |Lines(was)| && c.0 < c.1 < |Lines(canonical)| && r.0 < r.1 < |Lines(now)|
    && r.0 == t.0
    && Lines(now)[..r.0] == Lines(was)[..t.0]
    && Lines(now)[r.0..r.1 + 1] == Lines(canonical)[c.0..c.1 + 1]
    && Lines(now)[r.1 + 1..] == Lines(was)[t.1 + 1..]
    && (EndsWithLF(now) <==> EndsWithLF(was))
  }

  lemma RestoredTextIs(files: Files, cls: Class, rel: string, canonical: string)
    ensures var r := RestoredText(files, cls, rel, canonical);
            && (r.Text? <==> (cls.Hybrid? ==> rel in files && Span(files[rel]).Some? && Span(canonical).Some?))
            && (r.Text? ==> if cls.Hybrid? then SectionReplaced(r.text, files[rel], canonical) else r.text == canonical)
            && (cls.Hybrid? && rel !in files ==> r == Fails(NoTarget))
            && (cls.Hybrid? && rel in files && !r.Text? ==> r == Fails(NoMarkers(rel)))
  {
    hide Span, Splice, Lines, EndsWithLF, Content;
    if cls.Hybrid? && rel in files {
      SpliceFailsIff(files[rel], canonical);
      if Span(files[rel]).Some? && Span(canonical).Some? {
        SpliceRestores(files[rel], canonical);
        SpliceInside(files[rel], canonical);
      }
    }
  }

  lemma SpliceInside(target: string, canonical: string)
    requires Span(target).Some? && Span(canonical).Some?
    ensures var r := Splice(target, canonical);
            r.Spliced? && Span(r.text).Some? && Span(r.text).value.0 < Span(r.text).value.1 < |Lines(r.text)|
  {
    SpliceRestores(target, canonical);
    SpanMarked(Splice(target, canonical).text);
    hide Splice, Span, Lines, EndsWithLF, Content;
  }

  /** When a restore goes ahead, and with which error it is refused otherwise. */
  lemma RestoreRefusedIff(k: Hash, files: Files, rel: string, synced: bool, render: string -> Files)
    ensures var (r, files') := Restore(k, files, rel, synced, render);
            && (!r.Done? ==> files' == files)
            && (r == Refused(NoLock) <==> LOCK !in files)
            && (r == Refused(VersionMismatch) <==> LOCK in files && !synced)
            && (r == Refused(BadLock) <==> LOCK in files && synced && LoadManifest(files[LOCK]).None?)
            && (LOCK in files && synced && LoadManifest(files[LOCK]).Some? ==>
                  var es := LoadManifest(files[LOCK]).value.entries;
                  && (r == Refused(NotRestorable) <==> forall i :: FirstAt(es, i, rel) ==> !es[i].tier.Tracked?)
                  && (forall i :: FirstAt(es, i, rel) && es[i].tier.Tracked? ==> RestoreEnds(r, files, es[i].cls, rel, render)))
  {
    hide LoadManifest, Dumps, Managed, RestoredText, EntryAt, WithHash, Span;
    if LOCK in files && synced && LoadManifest(files[LOCK]).Some? {
      var es := LoadManifest(files[LOCK]).value.entries;
      EntryAtFirst(es, rel);
      if EntryAt(es, rel).Some? && ANSWERS in files && rel in render(files[ANSWERS]) {
        RestoredTextIs(files, EntryAt(es, rel).value.cls, rel, render(files[ANSWERS])[rel]);
      }
    }
  }

  /** The `i`-th entry is the first for `rel`. */
  ghost predicate FirstAt(es: seq<Entry>, i: int, rel: string) {
    0 <= i < |es| && es[i].path == rel && forall j :: 0 <= j < i ==> es[j].path != rel
  }

  lemma {:induction false} EntryAtFirst(es: seq<Entry>, rel: string)
    ensures forall i :: FirstAt(es, i, rel) ==> EntryAt(es, rel) == Some(es[i])
    ensures EntryAt(es, rel).Some? ==> exists i :: FirstAt(es, i, rel)
  {
    if es != [] && es[0].path != rel {
      var rest := es[1..];
      EntryAtFirst(rest, rel);
      forall i | FirstAt(es, i, rel) ensures FirstAt(rest, i - 1, rel) && es[i] == rest[i - 1] {
        assert forall j :: 0 <= j < i - 1 ==> rest[j] == es[j + 1];
      }
      if i :| FirstAt(rest, i, rel) {
        assert forall j :: 0 < j < i + 1 ==> es[j] == rest[j - 1];
        assert FirstAt(es, i + 1, rel);
      }
    } else if es != [] {
      assert FirstAt(es, 0, rel);
    }
  }

  /** How a restore of a tracked file ends. */
  ghost predicate RestoreEnds(r: Outcome, files: Files, cls: Class, rel: string, render: string -> Files) {
    if ANSWERS !in files then r == Refused(NoAnswers)
    else if rel !in render(files[ANSWERS]) then r == Refused(NotRendered(rel))
    else if cls.Hybrid? && rel !in files then r == Refused(NoTarget)
    else if cls.Hybrid? && (Span(files[rel]).None? || Span(render(files[ANSWERS])[rel]).None?) then r == Refused(NoMarkers(rel))
    else r.Done?
  }

  lemma RestoreWrites(k: Hash, files: Files, base: Baseline, rel: string, synced: bool, render: string -> Files)
    requires LockMeans(k, files, base)
    ensures var (r, files') := Restore(k, files, rel, synced, render);
            && (!r.Done? ==> files' == files)
            && (r.Done? <==> CanRestore(files, base, rel, synced, render))
            && (r.Done? ==>
                  && rel in files'
                  && (if base[rel].cls.Hybrid? then SectionReplaced(files'[rel], files[rel], render(files[ANSWERS])[rel])
                      else files'[rel] == render(files[ANSWERS])[rel]))
  {
    RestoreTargetIs(k, files, base, rel, synced, render);
    hide LoadManifest, Dumps, Managed, WithHash, SectionReplaced, RestoreTarget, CanRestore, LockMeans;
  }

  lemma RestoreTargetIs(k: Hash, files: Files, base: Baseline, rel: string, synced: bool, render: string -> Files)
    requires LockMeans(k, files, base)
    ensures LOCK in files && LoadManifest(files[LOCK]).Some?
    ensures var (text, entry) := RestoreTarget(k, files, rel, synced, render);
            && (text.Text? <==> CanRestore(files, base, rel, synced, render))
            && (text.Text? ==> entry.Some? && rel in base && rel != LOCK && ANSWERS in files && rel in render(files[ANSWERS]))
            && (text.Text? ==> if base[rel].cls.Hybrid? then rel in files && SectionReplaced(text.text, files[rel], render(files[ANSWERS])[rel])
                               else text.text == render(files[ANSWERS])[rel])
  {
    var m := LoadManifest(files[LOCK]).value;
    EntryAtMeans(k, m.entries, base, rel);
    hide EntriesMean, LoadManifest, SelfConsistent, EntryAt, RestoredText, SectionReplaced, Span;
    if rel in base && ANSWERS in files && rel in render(files[ANSWERS]) {
      RestoredTextIs(files, base[rel].cls, rel, render(files[ANSWERS])[rel]);
    }
  }

  /** What a restore asks for: the recorded version, a tracked and rendered path, and for a hybrid
      file sound markers on both sides. */
  ghost predicate CanRestore(files: Files, base: Baseline, rel: string, synced: bool, render: string -> Files) {
    && synced && rel in base && base[rel].tier.Tracked? && ANSWERS in files && rel in render(files[ANSWERS])
    && (base[rel].cls.Hybrid? ==> rel in files && Span(files[rel]).Some? && Span(render(files[ANSWERS])[rel]).Some?)
  }

  lemma RestoreLocks(k: Hash, files: Files, base: Baseline, rel: string, synced: bool, render: string -> Files)
    requires HashOk(k) && LockMeans(k, files, base)
    ensures var (r, files') := Restore(k, files, rel, synced, render);
            && (r.Done? ==>
                  && rel in base && base[rel].tier.Tracked? && rel in files'
                  && ANSWERS in files && rel in render(files[ANSWERS])
                  && Managed(base[rel].cls, files'[rel]).Some?
                  && Managed(base[rel].cls, files'[rel]) == Managed(base[rel].cls, render(files[ANSWERS])[rel])
                  && LockMeans(k, files', RestoredBase(base, rel, Managed(base[rel].cls, files'[rel]).value)))
            && (forall p :: p != LOCK && p != rel ==> (p in files' <==> p in files) && (p in files ==> files'[p] == files[p]))
  {
    var (text, entry) := RestoreTarget(k, files, rel, synced, render);
    if text.Text? {
      var m := LoadManifest(files[LOCK]).value;
      EntryAtMeans(k, m.entries, base, rel);
      hide EntriesMean, LoadManifest, Dumps, SelfConsistent, EntryAt, WithHash, RestoredText, Managed;
      var cls := base[rel].cls;
      var canonical := render(files[ANSWERS])[rel];
      RestoredIsManaged(files, cls, rel, canonical);
      var content := Managed(cls, text.text).value;
      RestoredEntries(k, m.entries, base, rel, content);
      WrittenMeans(k, files[rel := text.text], m.(entries := WithHash(m.entries, rel, Some(k(content)))),
                   RestoredBase(base, rel, content));
    }
  }

  /** A restore succeeds exactly when it can; then a hybrid file has its section replaced and keeps
      every line outside it, any other file is the canonical one; the lock means that content,
      undrifted, and nothing else has changed. */
  lemma RestoreMeans(k: Hash, files: Files, base: Baseline, rel: string, synced: bool, render: string -> Files)
    requires HashOk(k) && LockMeans(k, files, base)
    ensures var (r, files') := Restore(k, files, rel, synced, render);
            && (!r.Done? ==> files' == files)
            && (r.Done? <==> CanRestore(files, base, rel, synced, render))
            && (r.Done? ==>
                  && rel in files'
                  && (if base[rel].cls.Hybrid? then SectionReplaced(files'[rel], files[rel], render(files[ANSWERS])[rel])
                      else files'[rel] == render(files[ANSWERS])[rel])
                  && Managed(base[rel].cls, files'[rel]).Some?
                  && Managed(base[rel].cls, files'[rel]) == Managed(base[rel].cls, render(files[ANSWERS])[rel])
                  && LockMeans(k, files', RestoredBase(base, rel, Managed(base[rel].cls, files'[rel]).value)))
            && (forall p :: p != LOCK && p != rel ==> (p in files' <==> p in files) && (p in files ==> files'[p] == files[p]))
  {
    RestoreWrites(k, files, base, rel, synced, render);
    RestoreLocks(k, files, base, rel, synced, render);
    hide Restore, Managed, SectionReplaced, LockMeans, Span;
  }

  /** The lock is of this framework version. */
  ghost predicate LockOf(files: Files, framework: string) {
    LOCK in files && LoadManifest(files[LOCK]).Some? && LoadManifest(files[LOCK]).value.framework == framework
    && LoadManifest(files[LOCK]).value.version == 1
  }

  lemma WrittenVersion(k: Hash, files: Files, m: Manifest)
    requires m.version == 1
    ensures LockOf(files[LOCK := Dumps(k, m)], m.framework)
  {
    DumpsIsConsistent(k, m);
    hide Dumps, Sorted, LoadManifest, SelfConsistent;
  }

  /** A generated lock records the version it was generated for, and marking drift and restoring files
      keep it. */
  lemma VersionIsKept(k: Hash, files: Files, framework: string, rules: seq<Rule>, paths: seq<string>, rel: string, synced: bool, render: string -> Files)
    ensures LockOf(files[LOCK := Dumps(k, Generated(k, files, framework, rules))], framework)
    ensures LockOf(files, framework) ==> LockOf(Drifted(k, files, paths).1, framework)
    ensures LockOf(files, framework) ==> LockOf(Restore(k, files, rel, synced, render).1, framework)
  {
    hide Dumps, LoadManifest, RestoreTarget, Managed, WithHash, WithDrift, Unknown, EntriesOf;
    WrittenVersion(k, files, Generated(k, files, framework, rules));
    if LockOf(files, framework) {
      var m := LoadManifest(files[LOCK]).value;
      WrittenVersion(k, files, m.(entries := WithDrift(m.entries, paths)));
      var (text, entry) := RestoreTarget(k, files, rel, synced, render);
      if text.Text? && entry.Some? {
        var content := Managed(entry.value.cls, text.text);
        var sha := if content.Some? then Some(k(content.value)) else None;
        WrittenVersion(k, files[rel := text.text], m.(entries := WithHash(m.entries, rel, sha)));
      }
    }
  }

  /** After a restore its own path has no finding, and every other path has the finding it had. */
  lemma RestoreClearsOnlyItsOwn(k: Hash, files: Files, base: Baseline, rel: string, synced: bool, render: string -> Files,
                                f: Finding)
    requires HashOk(k) && LockMeans(k, files, base)
    requires Restore(k, files, rel, synced, render).0.Done?
    ensures var files' := Restore(k, files, rel, synced, render).1;
            && Checked(k, files, true).Findings? && Checked(k, files', true).Findings?
            && (f in Checked(k, files', true).findings <==> f.path != rel && f in Checked(k, files, true).findings)
  {
    hide LockMeans, Restore, Checked, Managed, Status, RestoredBase;
    RestoreMeans(k, files, base, rel, synced, render);
    LockNotRecorded(k, files, base);
    var files' := Restore(k, files, rel, synced, render).1;
    var content := Managed(base[rel].cls, files'[rel]).value;
    RestoreStatus(files, files', base, rel, content);
    CheckReportsExactly(k, files, true, base);
    CheckReportsExactly(k, files', true, RestoredBase(base, rel, content));
  }

  lemma RestoreStatus(files: Files, files': Files, base: Baseline, rel: string, content: string)
    requires rel in base && rel in files' && Managed(base[rel].cls, files'[rel]) == Some(content) && LOCK !in base
    requires forall p :: p != LOCK && p != rel ==> (p in files' <==> p in files) && (p in files ==> files'[p] == files[p])
    ensures var base' := RestoredBase(base, rel, content);
            && (forall p :: p in base' <==> p in base)
            && Status(files', rel, base'[rel]).None?
            && (forall p :: p in base && p != rel ==> base'[p] == base[p] && Status(files', p, base'[p]) == Status(files, p, base[p]))
  {
    hide Managed;
  }

  lemma LockNotRecorded(k: Hash, files: Files, base: Baseline)
    requires LockMeans(k, files, base)
    ensures LOCK !in base && LOCK in files && SelfConsistent(k, files[LOCK])
  {
  }

  // ---------------------------------------------------------------- whole runs

  datatype Action =
    | Write(framework: string, rules: seq<Rule>, ignored: string -> bool)
    | Drift(paths: seq<string>)
    | RestoreOne(rel: string, synced: bool, render: string -> Files)
    | Edit(after: Files)

  /** One action; an edit leaves the lock as it is. */
  ghost predicate Acts(k: Hash, a: Action, files: Files, files': Files) {
    match a
    case Write(framework, rules, ignored) =>
      RulesOk(rules) &&
      files' == if FirstError(files, ignored, rules).None? then files[LOCK := Dumps(k, Generated(k, files, framework, rules))]
                else files
    case Drift(paths) => files' == Drifted(k, files, paths).1
    case RestoreOne(rel, synced, render) => files' == Restore(k, files, rel, synced, render).1
    case Edit(after) => files' == after && LOCK in files && LOCK in after && after[LOCK] == files[LOCK]
  }

  /** What the lock should record after the action. */
  ghost function BaseAfter(k: Hash, a: Action, files: Files, base: Baseline): Baseline {
    match a
    case Write(_, rules, ignored) => if FirstError(files, ignored, rules).None? then BaseOf(files, rules) else base
    case Drift(paths) => if Drifted(k, files, paths).0.Done? then DriftBase(base, paths) else base
    case RestoreOne(rel, synced, render) =>
      var (r, files') := Restore(k, files, rel, synced, render);
      if r.Done? && rel in base && rel in files' && Managed(base[rel].cls, files'[rel]).Some?
      then RestoredBase(base, rel, Managed(base[rel].cls, files'[rel]).value) else base
    case Edit(_) => base
  }

  ghost function BaseAt(k: Hash, actions: seq<Action>, states: seq<Files>, first: Baseline, i: nat): Baseline
    requires i <= |actions| && i < |states|
  {
    if i == 0 then first else BaseAfter(k, actions[i - 1], states[i - 1], BaseAt(k, actions, states, first, i - 1))
  }

  ghost predicate IsRun(k: Hash, actions: seq<Action>, states: seq<Files>) {
    |states| == |actions| + 1 && forall i :: 0 <= i < |actions| ==> Acts(k, actions[i], states[i], states[i + 1])
  }

  lemma ActKeepsLock(k: Hash, a: Action, files: Files, files': Files, base: Baseline)
    requires HashOk(k) && LockMeans(k, files, base) && Acts(k, a, files, files')
    ensures LockMeans(k, files', BaseAfter(k, a, files, base))
  {
    hide EntriesMean, LoadManifest, SelfConsistent, Dumps, Restore, Drifted, EntriesOf, FirstError, BaseOf, Managed;
    match a
    case Write(framework, rules, ignored) =>
      if FirstError(files, ignored, rules).None? {
        FreshLockIsClean(k, files, framework, rules, ignored);
      }
    case Drift(paths) => DriftMeans(k, files, base, paths);
    case RestoreOne(rel, synced, render) => RestoreMeans(k, files, base, rel, synced, render);
    case Edit(_) =>
  }

  /** Over every run of generating, drifting, restoring and editing: the lock stays
      self-consistent and keeps recording what was last written for each path, so that the
      check reports exactly the tracked, undrifted files that differ from that. */
  lemma {:induction false} RunKeepsLock(k: Hash, actions: seq<Action>, states: seq<Files>, first: Baseline, i: nat, ci: bool)
    requires HashOk(k) && IsRun(k, actions, states) && LockMeans(k, states[0], first) && i <= |actions|
    ensures var base := BaseAt(k, actions, states, first, i);
            && LockMeans(k, states[i], base)
            && SelfConsistent(k, states[i][LOCK])
            && Checked(k, states[i], ci).Findings?
            && (forall f :: f in Checked(k, states[i], ci).findings <==>
                  f.path in base && ToReport(states[i], ci, f.path, base[f.path], f.problem, f.fatal))
  {
    hide Acts, Checked, LockMeans, ToReport, SelfConsistent, BaseAfter;
    if i > 0 {
      RunKeepsLock(k, actions, states, first, i - 1, ci);
      ActKeepsLock(k, actions[i - 1], states[i - 1], states[i], BaseAt(k, actions, states, first, i - 1));
    }
    var base := BaseAt(k, actions, states, first, i);
    CheckReportsExactly(k, states[i], ci, base);
    LockNotRecorded(k, states[i], base);
  }
}

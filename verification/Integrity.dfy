/** The project tree under integrity: generating the lock, checking against it, marking
    drift and restoring a file. The render of the template is a function of the answers. */
module Integrity {
  import opened Lists
  import opened Text
  import opened Sections
  import opened Manifest

  const LOCK := ".framework/integrity.lock"
  const ANSWERS := ".copier-answers.yml"

  type Files = map<string, string>

  datatype Problem = LockMissing | LockTampered | Absent | Missing | Damaged | SectionAltered | LockedAltered

  datatype Finding = Finding(path: string, problem: Problem, fatal: bool)

  /** `Unreadable` is the exception of a lock that does not parse. */
  datatype CheckResult = Findings(findings: seq<Finding>) | Unreadable

  type KnownTier = t: Tier | t.Tracked? || t.Gitignored? witness Tracked

  /** A path the framework manages. `resolved` is false for the path of a battery's source when
      the project records no package name to put into it; such rules come last. */
  datatype Rule = Rule(path: string, cls: Class, tier: KnownTier, resolved: bool)

  datatype Error =
    | NoLock
    | BadLock
    | Unmanaged(paths: seq<string>)
    | IgnoredTracked(path: string)
    | NotRendered(path: string)
    | NoPackage
    | NoMarkers(path: string)
    | NotRestorable
    | NoAnswers
    | NoTarget
    | VersionMismatch

  datatype Outcome = Done | Refused(error: Error)

  /** The text an entry's hash covers. */
  function Managed(cls: Class, text: string): Option<string> {
    if cls.Hybrid? then Content(text) else Some(text)
  }

  function EntryFinding(k: Hash, files: Files, ci: bool, e: Entry): Option<Finding> {
    if e.drift then None
    else if e.tier.Gitignored? then
      if !ci && e.path !in files then Some(Finding(e.path, Absent, false)) else None
    else if e.path !in files then Some(Finding(e.path, Missing, true))
    else if e.cls.Hybrid? then
      var content := Content(files[e.path]);
      if content.None? then Some(Finding(e.path, Damaged, true))
      else if Some(k(content.value)) != e.sha256 then Some(Finding(e.path, SectionAltered, true))
      else None
    else if Some(k(files[e.path])) != e.sha256 then Some(Finding(e.path, LockedAltered, true))
    else None
  }

  function EntryFindings(k: Hash, files: Files, ci: bool, es: seq<Entry>): seq<Finding> {
    if es == [] then []
    else
      var f := EntryFinding(k, files, ci, es[0]);
      (if f.Some? then [f.value] else []) + EntryFindings(k, files, ci, es[1..])
  }

  function Checked(k: Hash, files: Files, ci: bool): CheckResult {
    if LOCK !in files then Findings([Finding(LOCK, LockMissing, true)])
    else if LoadManifest(files[LOCK]).None? then Unreadable
    else if !SelfConsistent(k, files[LOCK]) then Findings([Finding(LOCK, LockTampered, true)])
    else Findings(EntryFindings(k, files, ci, LoadManifest(files[LOCK]).value.entries))
  }

  // ---------------------------------------------------------------- generating the lock

  function EntryOfRule(k: Hash, files: Files, r: Rule): Option<Entry> {
    if r.tier.Gitignored? then Some(Entry(r.path, r.cls, r.tier, None, false))
    else if !r.resolved || r.path !in files || Managed(r.cls, files[r.path]).None? then None
    else Some(Entry(r.path, r.cls, r.tier, Some(k(Managed(r.cls, files[r.path]).value)), false))
  }

  /** What stops `build_manifest` at rule `r`. */
  function RuleError(files: Files, ignored: string -> bool, r: Rule): Option<Error> {
    if r.tier.Gitignored? then None
    else if !r.resolved then Some(NoPackage)
    else if ignored(r.path) then Some(IgnoredTracked(r.path))
    else if r.path !in files then Some(NotRendered(r.path))
    else if Managed(r.cls, files[r.path]).None? then Some(NoMarkers(r.path))
    else None
  }

  function FirstError(files: Files, ignored: string -> bool, rules: seq<Rule>): Option<Error> {
    if rules == [] then None
    else
      var e := RuleError(files, ignored, rules[0]);
      if e.Some? then e else FirstError(files, ignored, rules[1..])
  }

  function EntriesOf(k: Hash, files: Files, rules: seq<Rule>): seq<Entry> {
    if rules == [] then []
    else
      var e := EntryOfRule(k, files, rules[0]);
      (if e.Some? then [e.value] else []) + EntriesOf(k, files, rules[1..])
  }

  lemma NextRule(k: Hash, files: Files, ignored: string -> bool, rules: seq<Rule>, i: nat)
    requires i < |rules|
    ensures FirstError(files, ignored, rules[i..]) ==
            (if RuleError(files, ignored, rules[i]).Some? then RuleError(files, ignored, rules[i])
             else FirstError(files, ignored, rules[i + 1..]))
    ensures EntryOfRule(k, files, rules[i]).Some? ==>
              forall done :: done + [EntryOfRule(k, files, rules[i]).value] + EntriesOf(k, files, rules[i + 1..]) ==
                             done + EntriesOf(k, files, rules[i..])
  {
    hide Managed;
    assert rules[i..][1..] == rules[i + 1..];
    var e := EntryOfRule(k, files, rules[i]);
    if e.Some? {
      var rest := EntriesOf(k, files, rules[i + 1..]);
      assert EntriesOf(k, files, rules[i..]) == [e.value] + rest;
      forall done: seq<Entry> ensures done + [e.value] + rest == done + ([e.value] + rest) {}
    }
  }

  lemma NoRules(k: Hash, files: Files, ignored: string -> bool)
    ensures EntriesOf(k, files, []) == [] && FirstError(files, ignored, []) == None
  {
  }

  function Generated(k: Hash, files: Files, framework: string, rules: seq<Rule>): Manifest {
    Manifest(VERSION, framework, EntriesOf(k, files, rules))
  }

  // ---------------------------------------------------------------- drift and restore

  function WithDrift(es: seq<Entry>, paths: seq<string>): seq<Entry> {
    seq(|es|, i requires 0 <= i < |es| => if es[i].path in paths then es[i].(drift := true) else es[i])
  }

  function Unknown(es: seq<Entry>, paths: seq<string>): seq<string> {
    if paths == [] then []
    else (if exists i :: 0 <= i < |es| && es[i].path == paths[0] then [] else [paths[0]]) + Unknown(es, paths[1..])
  }

  function EntryAt(es: seq<Entry>, path: string): Option<Entry> {
    if es == [] then None else if es[0].path == path then Some(es[0]) else EntryAt(es[1..], path)
  }

  function WithHash(es: seq<Entry>, path: string, sha256: Option<string>): seq<Entry> {
    seq(|es|, i requires 0 <= i < |es| =>
      if es[i].path == path then es[i].(sha256 := sha256, drift := false) else es[i])
  }

  datatype Restored = Text(text: string) | Fails(error: Error)

  /** The new text of the file: the canonical one, or for a hybrid file the splice. */
  function RestoredText(files: Files, cls: Class, rel: string, canonical: string): Restored {
    if !cls.Hybrid? then Restored.Text(canonical)
    else if rel !in files then Fails(NoTarget)
    else
      var r := Splice(files[rel], canonical);
      if r.Spliced? then Restored.Text(r.text) else Fails(NoMarkers(rel))
  }

  class Project {
    var files: Files

    /** `check` */
    method Check(k: Hash, ci: bool) returns (r: CheckResult)
      ensures r == Checked(k, files, ci)
    {
      hide EntryFinding, SelfConsistent, LoadManifest;
      if LOCK !in files {
        return Findings([Finding(LOCK, LockMissing, true)]);
      }
      var loaded := LoadManifest(files[LOCK]);
      if loaded.None? {
        return Unreadable;
      }
      if !SelfConsistent(k, files[LOCK]) {
        return Findings([Finding(LOCK, LockTampered, true)]);
      }
      var entries := loaded.value.entries;
      var findings: seq<Finding> := [];
      assert entries[0..] == entries;
      for i := 0 to |entries|
        invariant findings + EntryFindings(k, files, ci, entries[i..]) == EntryFindings(k, files, ci, entries)
      {
        assert entries[i..][1..] == entries[i + 1..];
        var f := EntryFinding(k, files, ci, entries[i]);
        if f.Some? {
          findings := findings + [f.value];
        }
      }
      assert entries[|entries|..] == [] && findings + [] == findings;
      r := Findings(findings);
    }

    /** `write_manifest`; `rules` are the framework's for this project, and `ignored` is the
        project's `.gitignore`. */
    method WriteManifest(k: Hash, framework: string, rules: seq<Rule>, ignored: string -> bool) returns (r: Outcome)
      modifies this
      ensures r == (if FirstError(old(files), ignored, rules).Some?
                    then Refused(FirstError(old(files), ignored, rules).value) else Done)
      ensures files == if r.Done? then old(files)[LOCK := Dumps(k, Generated(k, old(files), framework, rules))]
                       else old(files)
    {
      hide Dumps, Managed, EntriesOf, FirstError;
      var entries: seq<Entry> := [];
      assert rules[0..] == rules;
      for i := 0 to |rules|
        invariant entries + EntriesOf(k, files, rules[i..]) == EntriesOf(k, files, rules)
        invariant FirstError(files, ignored, rules[i..]) == FirstError(files, ignored, rules)
        invariant files == old(files)
      {
        var rule := rules[i];
        NextRule(k, files, ignored, rules, i);
        if rule.tier.Tracked? {
          if !rule.resolved {
            return Refused(NoPackage);
          }
          if ignored(rule.path) {
            return Refused(IgnoredTracked(rule.path));
          }
          if rule.path !in files {
            return Refused(NotRendered(rule.path));
          }
          var content := Managed(rule.cls, files[rule.path]);
          if content.None? {
            return Refused(NoMarkers(rule.path));
          }
          entries := entries + [Entry(rule.path, rule.cls, rule.tier, Some(k(content.value)), false)];
        } else {
          entries := entries + [Entry(rule.path, rule.cls, rule.tier, None, false)];
        }
      }
      assert rules[|rules|..] == [] && entries + [] == entries;
      NoRules(k, files, ignored);
      files := files[LOCK := Dumps(k, Manifest(VERSION, framework, entries))];
      r := Done;
    }

    /** `record_drift` */
    method RecordDrift(k: Hash, paths: seq<string>) returns (r: Outcome)
      modifies this
      ensures (r, files) == Drifted(k, old(files), paths)
    {
      hide LoadManifest, Dumps;
      if LOCK !in files {
        return Refused(NoLock);
      }
      var m := LoadManifest(files[LOCK]);
      if m.None? {
        return Refused(BadLock);
      }
      var unknown := Unknown(m.value.entries, paths);
      if unknown != [] {
        return Refused(Unmanaged(unknown));
      }
      files := files[LOCK := Dumps(k, m.value.(entries := WithDrift(m.value.entries, paths)))];
      r := Done;
    }

    /** `restore_file`; `synced` says that the installed version is the recorded one. */
    method RestoreFile(k: Hash, rel: string, synced: bool, render: string -> Files) returns (r: Outcome)
      modifies this
      ensures (r, files) == Restore(k, old(files), rel, synced, render)
    {
      hide LoadManifest, Dumps, Managed, RestoredText, EntryAt, WithHash;
      if LOCK !in files {
        return Refused(NoLock);
      }
      if !synced {
        return Refused(VersionMismatch);
      }
      var m := LoadManifest(files[LOCK]);
      if m.None? {
        return Refused(BadLock);
      }
      var entry := EntryAt(m.value.entries, rel);
      if entry.None? || !entry.value.tier.Tracked? {
        return Refused(NotRestorable);
      }
      if ANSWERS !in files {
        return Refused(NoAnswers);
      }
      var canonical := render(files[ANSWERS]);
      if rel !in canonical {
        return Refused(NotRendered(rel));
      }
      var text := RestoredText(files, entry.value.cls, rel, canonical[rel]);
      if text.Fails? {
        return Refused(text.error);
      }
      files := files[rel := text.text];
      var content := Managed(entry.value.cls, files[rel]);
      var sha := if content.Some? then Some(k(content.value)) else None;
      files := files[LOCK := Dumps(k, m.value.(entries := WithHash(m.value.entries, rel, sha)))];
      r := Done;
    }
  }

  function Drifted(k: Hash, files: Files, paths: seq<string>): (Outcome, Files) {
    if LOCK !in files then (Refused(NoLock), files)
    else
      var m := LoadManifest(files[LOCK]);
      if m.None? then (Refused(BadLock), files)
      else
        var unknown := Unknown(m.value.entries, paths);
        if unknown != [] then (Refused(Unmanaged(unknown)), files)
        else (Done, files[LOCK := Dumps(k, m.value.(entries := WithDrift(m.value.entries, paths)))])
  }

  /** The checks before anything is written. */
  function RestoreTarget(k: Hash, files: Files, rel: string, synced: bool, render: string -> Files): (Restored, Option<Entry>) {
    if LOCK !in files then (Fails(NoLock), None)
    else if !synced then (Fails(VersionMismatch), None)
    else if LoadManifest(files[LOCK]).None? then (Fails(BadLock), None)
    else
      var entry := EntryAt(LoadManifest(files[LOCK]).value.entries, rel);
      if entry.None? || !entry.value.tier.Tracked? then (Fails(NotRestorable), None)
      else if ANSWERS !in files then (Fails(NoAnswers), None)
      else if rel !in render(files[ANSWERS]) then (Fails(NotRendered(rel)), None)
      else (RestoredText(files, entry.value.cls, rel, render(files[ANSWERS])[rel]), entry)
  }

  function Restore(k: Hash, files: Files, rel: string, synced: bool, render: string -> Files): (Outcome, Files) {
    var (text, entry) := RestoreTarget(k, files, rel, synced, render);
    if text.Fails? then (Refused(text.error), files)
    else if LOCK !in files || LoadManifest(files[LOCK]).None? || entry.None? then (Refused(NoLock), files)
    else
      var m := LoadManifest(files[LOCK]).value;
      var content := Managed(entry.value.cls, text.text);
      var sha := if content.Some? then Some(k(content.value)) else None;
      (Done, files[rel := text.text][LOCK := Dumps(k, m.(entries := WithHash(m.entries, rel, sha)))])
  }
}

/** What removing a battery leaves: on a project as rendered, the project as rendered without
    it; on any project, the builder's files as they were. */
module DownskillLaws {
  import opened Lists
  import opened Text
  import opened Sections
  import opened Manifest
  import opened Integrity
  import opened IntegrityRuns
  import opened Downskill
  import Batteries
  import Answers
  import AnswersLaws
  import AnswersView

  // ---------------------------------------------------------------- any project

  ghost predicate SameAt(a: Files, b: Files, p: string) {
    (p in a <==> p in b) && (p in a ==> a[p] == b[p])
  }

  /** What stands at `p` after a completed pass. */
  lemma SettledAt(before: Files, w: Files, wo: Files, hybrid: set<string>, done: set<string>, p: string)
    ensures var now, fate := Settle(before, w, wo, hybrid, done), FateOf(before, w, wo, hybrid, p);
            && (p !in done || fate.Keep? || fate.Warn? || fate.Fail? ==> SameAt(now, before, p))
            && (p in done && fate.Delete? ==> p !in now)
            && (p in done && fate.Write? ==> p in before && p in now && now[p] == fate.text)
  {
    assert FateOf(before, w, wo, hybrid, p).Write? ==> p in before by { hide Splice; }
    hide FateOf;
  }

  /** Whatever the outcome, the tree is the settled one up to the answers and the lock. */
  lemma CarriedIsSettled(f: Framework, before: Files, w: Files, wo: Files, reduced: seq<string>, r: Removal, after: Files)
    requires Carries(f, before, w, wo, reduced, r, after)
    ensures exists done: set<string> :: done <= w.Keys && (r.Removed? ==> done == w.Keys) &&
              forall p :: p != ANSWERS && p != LOCK ==> SameAt(after, Settle(before, w, wo, f.hybrid, done), p)
  {
    hide Settle, FateOf, Dumps, Generated, Recording, FirstError, AtMost, ReportIs;
    var done := if exists p :: Failing(before, w, wo, f.hybrid, p) then Owned(w, wo) + Before(Shared(w, wo), r.path) else w.Keys;
    assert forall p :: p != ANSWERS && p != LOCK ==> SameAt(after, Settle(before, w, wo, f.hybrid, done), p);
  }

  ghost predicate Migration(p: string) {
    exists q :: p == "migrations/versions/" + q
  }

  lemma StartsWithIff(p: string, prefix: string)
    ensures StartsWith(p, prefix) <==> exists q :: p == prefix + q
  {
    if StartsWith(p, prefix) {
      assert p == prefix + p[|prefix|..];
    }
  }

  /** A file the render does not know is never touched; nor is a shared one that the builder
      changed or that the battery leaves alone, nor a migration. */
  ghost predicate Untouchable(before: Files, w: Files, wo: Files, hybrid: set<string>, p: string) {
    || p !in w
    || (p !in wo && Migration(p))
    || (p in wo && w[p] == wo[p])
    || (p in wo && p !in hybrid && (p !in before || before[p] != w[p]))
  }

  lemma UntouchableStays(before: Files, w: Files, wo: Files, hybrid: set<string>, done: set<string>, p: string)
    requires Untouchable(before, w, wo, hybrid, p)
    ensures SameAt(Settle(before, w, wo, hybrid, done), before, p)
  {
    SettledAt(before, w, wo, hybrid, done, p);
    StartsWithIff(p, MIGRATIONS);
    hide Settle, Splice, StartsWith;
  }

  /** On every project and with every outcome, even a removal cut short, what is untouchable
      stays as it was. */
  lemma BuildersFilesStay(f: Framework, before: Files, w: Files, wo: Files, reduced: seq<string>, r: Removal, after: Files, p: string)
    requires Carries(f, before, w, wo, reduced, r, after)
    requires p != ANSWERS && p != LOCK && Untouchable(before, w, wo, f.hybrid, p)
    ensures SameAt(after, before, p)
  {
    hide Carries, Settle, Untouchable;
    CarriedIsSettled(f, before, w, wo, reduced, r, after);
    var done: set<string> :| done <= w.Keys && (r.Removed? ==> done == w.Keys) &&
                             forall p :: p != ANSWERS && p != LOCK ==> SameAt(after, Settle(before, w, wo, f.hybrid, done), p);
    UntouchableStays(before, w, wo, f.hybrid, done, p);
    assert SameAt(after, Settle(before, w, wo, f.hybrid, done), p);
  }

  /** A completed removal path by path: owned files are gone, an unmodified shared file is the
      reduced render's, a hybrid file has the reduced render's section and its own lines around it;
      the report lists the deleted files and the kept migrations, and warns of exactly the shared
      files the builder changed and of the kept migrations. */
  lemma CompletedRemoval(f: Framework, before: Files, w: Files, wo: Files, reduced: seq<string>, r: Removal, after: Files, p: string)
    requires Carries(f, before, w, wo, reduced, r, after) && r.Removed?
    requires p in w && p != ANSWERS && p != LOCK
    ensures p !in wo && !Migration(p) ==> p !in after
    ensures p in r.report.removed <==> p !in wo && !Migration(p)
    ensures p in r.report.preserved <==> p !in wo && Migration(p)
    ensures p in wo && p !in f.hybrid && p in before && before[p] == w[p] ==> p in after && after[p] == wo[p]
    ensures p in wo && p in f.hybrid && w[p] != wo[p] ==>
              p in before && p in after && SectionReplaced(after[p], before[p], wo[p])
    ensures Modified(p) in r.report.warnings <==>
              p in wo && w[p] != wo[p] && p !in f.hybrid && (p !in before || before[p] != w[p])
    ensures forall kept :: MigrationsKept(kept) in r.report.warnings <==> kept == r.report.preserved && kept != []
    ensures Ascending(r.report.removed) && Ascending(r.report.preserved)
  {
    hide Settle, FateOf, Splice, Finishes, ReportIs, Migration, StartsWith, SectionReplaced, Ascending;
    StartsWithIff(p, MIGRATIONS);
    assert StartsWith(p, MIGRATIONS) <==> Migration(p) by { MigrationIff(p); }
    CompletedTree(f, before, w, wo, reduced, r, after);
    SettledAt(before, w, wo, f.hybrid, w.Keys, p);
    assert SameAt(after, Settle(before, w, wo, f.hybrid, w.Keys), p);
    assert !Failing(before, w, wo, f.hybrid, p);
    WarnedPaths(r.report, before, w, wo, f.hybrid, p);
    if p in wo {
      assert p in Shared(w, wo);
      SharedFate(before, w, wo, f.hybrid, p);
      if p in f.hybrid && w[p] != wo[p] {
        SpliceFailsIff(before[p], wo[p]);
        RestoredTextIs(before, Hybrid, p, wo[p]);
        SplicedIsRestored(before, p, wo[p]);
      }
    } else {
      OwnedFate(before, w, wo, f.hybrid, p);
    }
  }

  lemma MigrationIff(p: string)
    ensures StartsWith(p, MIGRATIONS) <==> Migration(p)
  {
    StartsWithIff(p, MIGRATIONS);
    hide StartsWith;
  }

  lemma SplicedIsRestored(files: Files, p: string, canonical: string)
    requires p in files && Splice(files[p], canonical).Spliced?
    ensures RestoredText(files, Hybrid, p, canonical) == Restored.Text(Splice(files[p], canonical).text)
  {
    hide Splice;
  }

  /** A hybrid file that the battery changes and that has no sound markers, or is not there. */
  ghost predicate CannotSplice(before: Files, w: Files, wo: Files, hybrid: set<string>, p: string) {
    && p in w && p in wo && p != ANSWERS && w[p] != wo[p] && p in hybrid
    && !(p in before && Span(before[p]).Some? && Span(wo[p]).Some?)
  }

  lemma FailingIff(before: Files, w: Files, wo: Files, hybrid: set<string>, p: string)
    ensures Failing(before, w, wo, hybrid, p) <==> CannotSplice(before, w, wo, hybrid, p)
  {
    hide FateOf, Splice, Span;
    if p in Shared(w, wo) {
      SharedFate(before, w, wo, hybrid, p);
      if p in before {
        SpliceFailsIff(before[p], wo[p]);
      }
    }
  }

  /** A removal stops at the first hybrid file that cannot be spliced: the owned files are gone by
      then, the shared ones before it are dealt with, and from it on everything is as it was. */
  lemma StoppedRemoval(f: Framework, before: Files, w: Files, wo: Files, reduced: seq<string>, r: Removal, after: Files, p: string)
    requires Carries(f, before, w, wo, reduced, r, after)
    requires exists q :: CannotSplice(before, w, wo, f.hybrid, q)
    ensures r.Stuck? && CannotSplice(before, w, wo, f.hybrid, r.path)
    ensures CannotSplice(before, w, wo, f.hybrid, p) ==> AtMost(r.path, p)
    ensures p in w && p !in wo && !Migration(p) ==> p !in after
    ensures p in w && p in wo && AtMost(r.path, p) ==> SameAt(after, before, p)
    ensures p in w && p in wo && p != ANSWERS && w[p] != wo[p] && AtMost(p, r.path) && p != r.path ==>
              if p in f.hybrid then p in before && p in after && SectionReplaced(after[p], before[p], wo[p])
              else if p in before && before[p] == w[p] then p in after && after[p] == wo[p] else SameAt(after, before, p)
  {
    hide Settle, FateOf, Splice, Finishes, ReportIs, Migration, StartsWith, SectionReplaced, AtMost, Failing, CannotSplice;
    forall q ensures Failing(before, w, wo, f.hybrid, q) <==> CannotSplice(before, w, wo, f.hybrid, q) {
      FailingIff(before, w, wo, f.hybrid, q);
    }
    var done := Owned(w, wo) + Before(Shared(w, wo), r.path);
    assert after == Settle(before, w, wo, f.hybrid, done);
    StoppedAt(before, w, wo, f.hybrid, r.path, p);
  }

  lemma StoppedAt(before: Files, w: Files, wo: Files, hybrid: set<string>, stop: string, p: string)
    requires forall q :: Failing(before, w, wo, hybrid, q) ==> AtMost(stop, q)
    ensures var after := Settle(before, w, wo, hybrid, Owned(w, wo) + Before(Shared(w, wo), stop));
            && (p in w && p !in wo && !Migration(p) ==> p !in after)
            && (p in w && p in wo && AtMost(stop, p) ==> SameAt(after, before, p))
            && (p in w && p in wo && p != ANSWERS && w[p] != wo[p] && AtMost(p, stop) && p != stop ==>
                  if p in hybrid then p in before && p in after && SectionReplaced(after[p], before[p], wo[p])
                  else if p in before && before[p] == w[p] then p in after && after[p] == wo[p] else SameAt(after, before, p))
  {
    hide Settle, FateOf, Splice, Migration, StartsWith, SectionReplaced, AtMost;
    var done := Owned(w, wo) + Before(Shared(w, wo), stop);
    SettledAt(before, w, wo, hybrid, done, p);
    MigrationIff(p);
    if p in w && p !in wo {
      OwnedFate(before, w, wo, hybrid, p);
    } else if p in w && p in wo {
      SharedFate(before, w, wo, hybrid, p);
      if AtMost(p, stop) && AtMost(stop, p) {
        AtMostAntisymmetric(p, stop);
      }
      if p in before && Splice(before[p], wo[p]).Spliced? {
        SpliceFailsIff(before[p], wo[p]);
        RestoredTextIs(before, Hybrid, p, wo[p]);
        SplicedIsRestored(before, p, wo[p]);
      }
    }
  }

  lemma WarnedPaths(report: Report, before: Files, w: Files, wo: Files, hybrid: set<string>, p: string)
    requires ReportIs(report, before, w, wo, hybrid)
    ensures Modified(p) in report.warnings <==> p in Shared(w, wo) && FateOf(before, w, wo, hybrid, p).Warn?
    ensures forall kept :: MigrationsKept(kept) in report.warnings <==> kept == report.preserved && kept != []
    ensures p in report.removed <==> p in Owned(w, wo) && !StartsWith(p, MIGRATIONS)
    ensures p in report.preserved <==> p in Owned(w, wo) && StartsWith(p, MIGRATIONS)
    ensures Ascending(report.removed) && Ascending(report.preserved)
  {
    hide FateOf, Ascending, StartsWith;
    assert p in report.removed <==> p in ToSet(report.removed);
    assert p in report.preserved <==> p in ToSet(report.preserved);
    var modified: seq<string> :|
      && ListsExactly(modified, set p | p in Shared(w, wo) && FateOf(before, w, wo, hybrid, p).Warn?)
      && report.warnings == Warnings(modified, report.preserved);
    if report.preserved != [] {
      assert report.warnings[|modified|] == MigrationsKept(report.preserved);
    }
    var ws := ModifiedAll(modified);
    assert p in modified <==> p in ToSet(modified);
    if p in modified {
      var i :| 0 <= i < |modified| && modified[i] == p;
      assert ws[i] == Modified(p);
      assert report.warnings[i] == ws[i];
    }
  }

  lemma CompletedTree(f: Framework, before: Files, w: Files, wo: Files, reduced: seq<string>, r: Removal, after: Files)
    requires Carries(f, before, w, wo, reduced, r, after) && r.Removed?
    ensures forall p :: p != ANSWERS && p != LOCK ==> SameAt(after, Settle(before, w, wo, f.hybrid, w.Keys), p)
    ensures Finishes(f, Settle(before, w, wo, f.hybrid, w.Keys), reduced, r, after)
    ensures ReportIs(r.report, before, w, wo, f.hybrid) && forall p :: !Failing(before, w, wo, f.hybrid, p)
  {
    hide Settle, FateOf, Dumps, Generated, Recording, FirstError, ReportIs;
  }

  // ---------------------------------------------------------------- refusals

  /** A builder's source file with the battery's name in it: under `src/`, not one of the battery's
      own, and not as rendered. */
  ghost predicate Mentions(files: Files, w: Files, wo: Files, battery: string, p: string) {
    && p in files && (exists q :: p == "src/" + q + ".py")
    && !(p in w && p !in wo)
    && (exists a, b :: files[p] == a + battery + b)
    && !(p in w && w[p] == files[p])
  }

  lemma SourceIff(p: string)
    ensures IsSource(p) <==> exists q :: p == "src/" + q + ".py"
  {
    if IsSource(p) {
      assert |p| >= 7 by {
        assert p[..4] == "src/" && p[|p| - 3..] == ".py";
        assert p[0] == 's' && p[1] == 'r' && p[2] == 'c' && p[3] == '/';
        assert p[|p| - 3] == p[|p| - 3..][0] == '.';
      }
      assert p == "src/" + p[4..|p| - 3] + ".py";
    }
    if q :| p == "src/" + q + ".py" {
      assert p[..4] == "src/" && p[|p| - 3..] == ".py";
    }
  }

  lemma MentionedIsUsed(files: Files, w: Files, wo: Files, package: string, battery: string)
    ensures References(files, w, Owned(w, wo), package, battery) == set p | p in files && Mentions(files, w, wo, battery, p)
  {
    forall p | p in files ensures Uses(files, w, Owned(w, wo), package, battery, p) <==> Mentions(files, w, wo, battery, p) {
      SourceIff(p);
      ContainsIff(files[p], battery);
      QualifiedContains(files[p], package, battery);
      hide IsSource, Contains;
    }
    hide Uses, Mentions;
  }

  lemma QualifiedContains(text: string, package: string, battery: string)
    ensures Contains(text, package + "." + battery) ==> Contains(text, battery)
  {
    ContainsIff(text, package + "." + battery);
    ContainsIff(text, battery);
    hide Contains;
    if a, b :| text == a + (package + "." + battery) + b {
      assert text == (a + package + ".") + battery + b;
    }
  }

  ghost predicate Stray(reg: Batteries.Registry, current: seq<string>, battery: string) {
    exists b :: b in current && b != battery && Unresolvable(reg, b)
  }

  ghost function Dependents(reg: Batteries.Registry, current: seq<string>, battery: string): set<string> {
    set b | b in current && b != battery && Batteries.DependsOn(reg, b, battery)
  }

  /** When a removal is refused before the tree is looked at, and why. */
  lemma RefusedEarlyIff(f: Framework, before: Files, battery: string, force: bool, r: Removal, after: Files)
    requires IsRemoval(f, before, battery, force, r, after)
    ensures var current := Recorded(before);
            && (r.Rejected? ==> after == before)
            && (r == Rejected(UnknownBattery) <==> battery !in f.registry)
            && (r == Rejected(NotActive) <==> battery in f.registry && battery !in current)
            && (r == Rejected(UnknownRequirement) <==> battery in f.registry && battery in current && Stray(f.registry, current, battery))
            && (r.Rejected? && r.refusal.StillRequired? <==>
                  battery in f.registry && battery in current && !Stray(f.registry, current, battery) &&
                  Dependents(f.registry, current, battery) != {})
            && (r.Rejected? && r.refusal.StillRequired? ==> r.refusal.dependents == Dependents(f.registry, current, battery))
  {
    hide Settle, FateOf, Unresolvable, Package, Batteries.DependsOn, Carries, References;
    var current := Recorded(before);
    if ANSWERS in before {
      var w, wo := f.render(before[ANSWERS], current), f.render(before[ANSWERS], Without(current, {battery}));
      if Carries(f, before, w, wo, Without(current, {battery}), r, after) {
        CarriedIsNoRefusal(f, before, w, wo, Without(current, {battery}), r, after);
      }
    }
  }

  /** Past that, the removal is refused exactly when it is not forced and some file mentions the
      battery; the refusal names exactly those files, and changes nothing. */
  lemma InUseIff(f: Framework, before: Files, battery: string, force: bool, r: Removal, after: Files)
    requires IsRemoval(f, before, battery, force, r, after)
    requires battery in f.registry && battery in Recorded(before)
    requires !Stray(f.registry, Recorded(before), battery) && Dependents(f.registry, Recorded(before), battery) == {}
    ensures ANSWERS in before
    ensures var current := Recorded(before);
            var w, wo := f.render(before[ANSWERS], current), f.render(before[ANSWERS], Without(current, {battery}));
            var refs := set p | p in before && Mentions(before, w, wo, battery, p);
            if !force && refs != {} then r == Rejected(InUse(refs)) && after == before
            else !r.Rejected? && Carries(f, before, w, wo, Without(current, {battery}), r, after)
  {
    var current := Recorded(before);
    hide Settle, FateOf, Unresolvable, Package, Batteries.DependsOn, Carries, Mentions, References;
    var w, wo := f.render(before[ANSWERS], current), f.render(before[ANSWERS], Without(current, {battery}));
    MentionedIsUsed(before, w, wo, Package(before[ANSWERS]), battery);
    if Carries(f, before, w, wo, Without(current, {battery}), r, after) {
      CarriedIsNoRefusal(f, before, w, wo, Without(current, {battery}), r, after);
    }
  }

  lemma CarriedIsNoRefusal(f: Framework, before: Files, w: Files, wo: Files, reduced: seq<string>, r: Removal, after: Files)
    requires Carries(f, before, w, wo, reduced, r, after)
    ensures !r.Rejected?
  {
    hide Settle, FateOf, ReportIs, Dumps, Generated, Recording, FirstError;
  }

  // ---------------------------------------------------------------- what is recorded

  lemma AnswersKept(before: Files, w: Files, wo: Files, hybrid: set<string>)
    requires ANSWERS in Settle(before, w, wo, hybrid, w.Keys)
    ensures ANSWERS in before && Settle(before, w, wo, hybrid, w.Keys)[ANSWERS] == before[ANSWERS]
  {
    hide Splice;
  }

  lemma RecordedIn(f: Framework, before: Files, w: Files, wo: Files, reduced: seq<string>, r: Removal, after: Files)
    requires Carries(f, before, w, wo, reduced, r, after) && r.Removed?
    ensures ANSWERS in before && ANSWERS in after && after[ANSWERS] == Recording(before[ANSWERS], reduced)
  {
    hide Settle, Dumps, Generated, Recording, FirstError, ReportIs;
    CompletedTree(f, before, w, wo, reduced, r, after);
    AnswersKept(before, w, wo, f.hybrid);
    LockIsNotAnswers();
  }

  lemma LockIsNotAnswers()
    ensures LOCK != ANSWERS
  {
    assert LOCK[1] == 'f' && ANSWERS[1] == 'c';
  }

  ghost predicate NamesPlain(names: seq<string>) {
    forall i :: 0 <= i < |names| ==> AnswersLaws.Plain(names[i])
  }

  /** After a removal the answers file lists the reduced set, which is closed when the set before
      was, and says nothing else differently; so a second removal is refused. */
  lemma RemovalIsRecorded(f: Framework, before: Files, battery: string, force: bool, r: Removal, after: Files)
    requires IsRemoval(f, before, battery, force, r, after) && r.Removed?
    requires NamesPlain(Recorded(before)) && AnswersView.Flat(Lines(before[ANSWERS]))
    ensures ANSWERS in after && Recorded(after) == Without(Recorded(before), {battery}) && battery !in Recorded(after)
    ensures AnswersView.Sees(after[ANSWERS]) == AnswersView.Sees(before[ANSWERS]).(batteries := Recorded(after))
    ensures Batteries.SetOk(f.registry, Recorded(before)) ==> Batteries.SetOk(f.registry, Recorded(after))
  {
    hide Carries, Ascending, Settle, References, Unresolvable, Package, AnswersView.Sees, AnswersView.After, Lines, AnswersView.Flat,
         Batteries.DependsOn, AnswersLaws.Plain, Answers.ReadBatteries;
    var current := Recorded(before);
    var reduced := Without(current, {battery});
    var w, wo := f.render(before[ANSWERS], current), f.render(before[ANSWERS], reduced);
    assert Carries(f, before, w, wo, reduced, r, after);
    RecordedIn(f, before, w, wo, reduced, r, after);
    WithoutMembers(current, {battery});
    PlainRest(current, reduced);
    AnswersView.WriteIsReadBack(before[ANSWERS], AnswersView.Batteries(reduced));
    SeenBatteries(after[ANSWERS]);
    if Batteries.SetOk(f.registry, current) {
      RemovalKeepsOrder(f.registry, current, battery);
    }
  }

  lemma SeenBatteries(text: string)
    ensures AnswersView.Sees(text).batteries == Answers.ReadBatteries(Lines(text))
  {
  }

  lemma PlainRest(names: seq<string>, reduced: seq<string>)
    requires NamesPlain(names) && forall n :: n in reduced ==> n in names
    ensures NamesPlain(reduced)
  {
    hide AnswersLaws.Plain;
    forall i | 0 <= i < |reduced| ensures AnswersLaws.Plain(reduced[i]) {
      assert reduced[i] in names;
    }
  }

  lemma RemovalKeepsOrder(reg: Batteries.Registry, current: seq<string>, battery: string)
    requires Batteries.SetOk(reg, current)
    requires forall b :: b in current && b != battery ==> !Batteries.DependsOn(reg, b, battery)
    ensures Batteries.SetOk(reg, Without(current, {battery}))
  {
    hide AtMost, Batteries.DependsOn;
    Batteries.RemovalClosedIffUnblocked(reg, current, battery);
    Batteries.WithoutAscending(current, {battery});
    WithoutMembers(current, {battery});
    assert ToSet(Without(current, {battery})) == ToSet(current) - {battery};
  }

  /** A removal that no hybrid file stops ends in one of three ways: the answers file was the
      battery's own and is gone, so the set cannot be recorded; the lock cannot be written, with the
      error of the tree as it then is; or all is done, and a project with a lock checks clean. */
  lemma RemovalEnds(f: Framework, before: Files, w: Files, wo: Files, reduced: seq<string>, r: Removal, after: Files)
    requires Carries(f, before, w, wo, reduced, r, after)
    requires forall p :: !CannotSplice(before, w, wo, f.hybrid, p)
    ensures r.Removed? || r.Unlocked? || r == Stuck(ANSWERS)
    ensures r == Stuck(ANSWERS) <==> ANSWERS !in after
    ensures !r.Stuck? ==> ANSWERS in before && after[ANSWERS] == Recording(before[ANSWERS], reduced)
    ensures r.Unlocked? ==> LOCK in after && FirstError(after, f.ignored, f.rules(after[ANSWERS])) == Some(r.error)
    ensures r.Removed? && LOCK in after && HashOk(f.hash) && RulesOk(f.rules(after[ANSWERS])) ==>
              Checked(f.hash, after, true) == Findings([])
  {
    forall p ensures !Failing(before, w, wo, f.hybrid, p) { FailingIff(before, w, wo, f.hybrid, p); }
    hide Failing, CannotSplice, Settle, Dumps, Generated, Recording, FirstError, ReportIs, Checked, RulesOk;
    var settled := Settle(before, w, wo, f.hybrid, w.Keys);
    assert Finishes(f, settled, reduced, r, after);
    LockIsNotAnswers();
    if ANSWERS in settled {
      AnswersKept(before, w, wo, f.hybrid);
      var recorded := settled[ANSWERS := Recording(settled[ANSWERS], reduced)];
      if r.Removed? && LOCK in after && HashOk(f.hash) && RulesOk(f.rules(after[ANSWERS])) {
        FreshLockIsClean(f.hash, recorded, f.version, f.rules(recorded[ANSWERS]), f.ignored);
      }
    }
  }

  // ---------------------------------------------------------------- a project as rendered

  /** The project is the render, up to the answers file and the lock. */
  ghost predicate AsRendered(files: Files, w: Files) {
    && ANSWERS in w && LOCK !in w
    && (forall p :: p in w ==> p in files && (p != ANSWERS ==> files[p] == w[p]))
    && (forall p :: p in files ==> p in w || p == LOCK)
  }

  /** The battery only adds paths to the render, and hybrid files are soundly marked in both. */
  ghost predicate RendersOk(w: Files, wo: Files, hybrid: set<string>) {
    && ANSWERS in wo && wo.Keys <= w.Keys
    && forall p :: p in hybrid && p in wo ==> Span(w[p]).Some? && Span(wo[p]).Some?
  }

  lemma StartsElsewhere(s: string, prefix: string)
    requires s != "" && prefix != "" && s[0] != prefix[0]
    ensures !StartsWith(s, prefix)
  {
  }

  lemma NotASource()
    ensures !IsSource(ANSWERS) && !IsSource(LOCK)
  {
    assert ANSWERS[0] == '.' && LOCK[0] == '.' && SRC[0] == 's';
    StartsElsewhere(ANSWERS, SRC);
    StartsElsewhere(LOCK, SRC);
    hide StartsWith;
  }

  /** No file of a project as rendered counts as a use. */
  lemma RenderedUsesNothing(files: Files, w: Files, owned: set<string>, package: string, battery: string)
    requires AsRendered(files, w)
    ensures References(files, w, owned, package, battery) == {}
  {
    NotASource();
    hide IsSource, Contains;
  }

  lemma RenderedNeverFails(files: Files, w: Files, wo: Files, hybrid: set<string>)
    requires AsRendered(files, w) && RendersOk(w, wo, hybrid)
    ensures forall p :: !Failing(files, w, wo, hybrid, p)
    ensures forall p :: p in Shared(w, wo) ==> !FateOf(files, w, wo, hybrid, p).Warn?
  {
    hide Span, FateOf, Splice;
    forall p | p in Shared(w, wo)
      ensures !FateOf(files, w, wo, hybrid, p).Fail? && !FateOf(files, w, wo, hybrid, p).Warn?
    {
      SharedFate(files, w, wo, hybrid, p);
      if p in hybrid {
        SpliceFailsIff(files[p], wo[p]);
      }
    }
  }

  /** `p` is as in the reduced render: equal, or for a spliced file equal in its managed section. */
  ghost predicate Reduced(files: Files, w: Files, wo: Files, hybrid: set<string>, p: string)
    requires p in w && p in wo
  {
    && p in files
    && (if p in hybrid && w[p] != wo[p] then Content(files[p]) == Content(wo[p]) && Content(wo[p]).Some?
        else files[p] == wo[p])
  }

  lemma SettledIsReduced(files: Files, w: Files, wo: Files, hybrid: set<string>, p: string)
    requires AsRendered(files, w) && RendersOk(w, wo, hybrid)
    ensures p in wo && p != ANSWERS ==> Reduced(Settle(files, w, wo, hybrid, w.Keys), w, wo, hybrid, p)
    ensures p in w && p !in wo ==>
              if StartsWith(p, MIGRATIONS) then SameAt(Settle(files, w, wo, hybrid, w.Keys), w, p) || p == ANSWERS
              else p !in Settle(files, w, wo, hybrid, w.Keys)
    ensures p == ANSWERS || p !in w ==> SameAt(Settle(files, w, wo, hybrid, w.Keys), files, p)
  {
    hide Settle, FateOf, Span, Splice, Content;
    SettledAt(files, w, wo, hybrid, w.Keys, p);
    if p in wo {
      SharedFate(files, w, wo, hybrid, p);
      if p in hybrid && p != ANSWERS {
        SpliceRestores(files[p], wo[p]);
      }
    } else if p in w {
      OwnedFate(files, w, wo, hybrid, p);
    } else {
      UntouchableStays(files, w, wo, hybrid, w.Keys, p);
    }
  }

  /** The rules can be locked on the reduced render. */
  ghost predicate Lockable(f: Framework, wo: Files, rules: seq<Rule>) {
    && HashOk(f.hash) && RulesOk(rules) && FirstError(wo, f.ignored, rules).None?
    && forall i :: 0 <= i < |rules| ==> rules[i].path != ANSWERS && (rules[i].cls.Hybrid? <==> rules[i].path in f.hybrid)
  }

  /** A tree that is reduced everywhere can be locked when the reduced render can. */
  lemma {:induction false} ReducedIsLockable(f: Framework, files: Files, w: Files, wo: Files, rules: seq<Rule>)
    requires Lockable(f, wo, rules) && wo.Keys <= w.Keys
    requires forall p :: p in wo && p != ANSWERS ==> Reduced(files, w, wo, f.hybrid, p)
    ensures FirstError(files, f.ignored, rules).None?
  {
    hide Content, Reduced;
    if rules != [] {
      var rest := rules[1..];
      assert forall i :: 0 <= i < |rest| ==> rest[i] == rules[i + 1];
      hide FirstError;
      FirstErrorStep(wo, f.ignored, rules);
      FirstErrorStep(files, f.ignored, rules);
      ReducedIsLockable(f, files, w, wo, rest);
      RuleStaysLockable(f, files, w, wo, rules[0]);
    } else {
      assert FirstError(files, f.ignored, rules).None?;
    }
  }

  lemma FirstErrorStep(files: Files, ignored: string -> bool, rules: seq<Rule>)
    requires rules != []
    ensures FirstError(files, ignored, rules).None? <==>
            RuleError(files, ignored, rules[0]).None? && FirstError(files, ignored, rules[1..]).None?
  {
    hide RuleError;
  }

  lemma RuleStaysLockable(f: Framework, files: Files, w: Files, wo: Files, r: Rule)
    requires wo.Keys <= w.Keys && r.path != ANSWERS && (r.cls.Hybrid? <==> r.path in f.hybrid)
    requires forall p :: p in wo && p != ANSWERS ==> Reduced(files, w, wo, f.hybrid, p)
    requires RuleError(wo, f.ignored, r).None?
    ensures RuleError(files, f.ignored, r).None?
  {
    hide Content;
    if r.tier.Tracked? {
      assert Reduced(files, w, wo, f.hybrid, r.path);
    }
  }

  /** Removing a battery that nothing else needs from a project as rendered is never refused for
      use, succeeds with no warning but that of kept migrations, and leaves the project as rendered without the battery:
      the same paths but for preserved migrations, each with the reduced render's text - a
      hybrid file that changes, with its managed section - and the lock clean. */
  lemma RenderedProjectReduces(f: Framework, before: Files, battery: string, force: bool, r: Removal, after: Files)
    requires IsRemoval(f, before, battery, force, r, after)
    requires ANSWERS in before && battery in f.registry && battery in Recorded(before)
    requires forall b :: b in Recorded(before) && b != battery ==>
               !Unresolvable(f.registry, b) && !Batteries.DependsOn(f.registry, b, battery)
    requires AsRendered(before, f.render(before[ANSWERS], Recorded(before)))
    requires RendersOk(f.render(before[ANSWERS], Recorded(before)),
                       f.render(before[ANSWERS], Without(Recorded(before), {battery})), f.hybrid)
    requires LOCK in before ==>
               Lockable(f, f.render(before[ANSWERS], Without(Recorded(before), {battery})),
                        f.rules(Recording(before[ANSWERS], Without(Recorded(before), {battery}))))
    ensures var reduced := Without(Recorded(before), {battery});
            var w, wo := f.render(before[ANSWERS], Recorded(before)), f.render(before[ANSWERS], reduced);
            && r.Removed? && r.report.warnings == Warnings([], r.report.preserved)
            && ToSet(r.report.preserved) == (set p | p in Owned(w, wo) && StartsWith(p, MIGRATIONS))
            && (forall p :: p != LOCK ==>
                 (p in after <==> p in wo || (p in w && StartsWith(p, MIGRATIONS))))
            && (forall p :: p in wo && p != ANSWERS ==> Reduced(after, w, wo, f.hybrid, p))
            && (forall p :: p in w && p !in wo && p in after ==> after[p] == w[p])
            && after[ANSWERS] == Recording(before[ANSWERS], reduced)
            && (LOCK in after <==> LOCK in before)
            && (LOCK in before ==> Checked(f.hash, after, true) == Findings([]))
  {
    hide Settle, FateOf, Unresolvable, References, Package, Batteries.DependsOn, Carries, AsRendered, RendersOk, Reduced, Recording,
         Lockable, StartsWith, SameAt, Recorded, Checked;
    var current := Recorded(before);
    var reduced := Without(current, {battery});
    var w, wo := f.render(before[ANSWERS], current), f.render(before[ANSWERS], reduced);
    RenderedUsesNothing(before, w, Owned(w, wo), Package(before[ANSWERS]), battery);
    var dependents := set b | b in current && b != battery && Batteries.DependsOn(f.registry, b, battery);
    assert dependents == {};
    assert Carries(f, before, w, wo, reduced, r, after);
    CarriedReduces(f, before, w, wo, reduced, r, after);
  }

  lemma CarriedReduces(f: Framework, before: Files, w: Files, wo: Files, reduced: seq<string>, r: Removal, after: Files)
    requires Carries(f, before, w, wo, reduced, r, after)
    requires AsRendered(before, w) && RendersOk(w, wo, f.hybrid) && ANSWERS in before
    requires LOCK in before ==> Lockable(f, wo, f.rules(Recording(before[ANSWERS], reduced)))
    ensures r.Removed? && r.report.warnings == Warnings([], r.report.preserved)
    ensures ToSet(r.report.preserved) == set p | p in Owned(w, wo) && StartsWith(p, MIGRATIONS)
    ensures forall p :: p != LOCK ==> (p in after <==> p in wo || (p in w && StartsWith(p, MIGRATIONS)))
    ensures forall p :: p in wo && p != ANSWERS ==> p in w && Reduced(after, w, wo, f.hybrid, p)
    ensures forall p :: p in w && p !in wo && p in after ==> after[p] == w[p]
    ensures ANSWERS in after && after[ANSWERS] == Recording(before[ANSWERS], reduced)
    ensures LOCK in after <==> LOCK in before
    ensures LOCK in before ==> Checked(f.hash, after, true) == Findings([])
  {
    hide Settle, FateOf, StartsWith, Reduced, Recording, Lockable, Ascending, Span, Finishes, Checked, RendersOk, SameAt, AsRendered;
    var settled := Settle(before, w, wo, f.hybrid, w.Keys);
    RenderedNeverFails(before, w, wo, f.hybrid);
    CarriedOut(f, before, w, wo, reduced, r, after);
    SettledReduces(before, w, wo, f.hybrid);
    assert wo.Keys <= w.Keys && ANSWERS in wo && LOCK !in w by { ReadRendersOk(before, w, wo, f.hybrid); }
    FinishReduces(f, settled, w, wo, before[ANSWERS], reduced, r, after);
  }

  lemma ReadRendersOk(files: Files, w: Files, wo: Files, hybrid: set<string>)
    requires AsRendered(files, w) && RendersOk(w, wo, hybrid)
    ensures wo.Keys <= w.Keys && ANSWERS in wo && LOCK !in w
  {
  }

  lemma CarriedOut(f: Framework, before: Files, w: Files, wo: Files, reduced: seq<string>, r: Removal, after: Files)
    requires Carries(f, before, w, wo, reduced, r, after)
    requires forall p :: !Failing(before, w, wo, f.hybrid, p)
    requires forall p :: p in Shared(w, wo) ==> !FateOf(before, w, wo, f.hybrid, p).Warn?
    ensures Finishes(f, Settle(before, w, wo, f.hybrid, w.Keys), reduced, r, after)
    ensures r.Removed? ==>
              && r.report.warnings == Warnings([], r.report.preserved)
              && ToSet(r.report.preserved) == set p | p in Owned(w, wo) && StartsWith(p, MIGRATIONS)
  {
    hide Settle, FateOf, StartsWith, Ascending, Finishes, Failing;
    if r.Removed? {
      var modified: seq<string> :|
        && ListsExactly(modified, set p | p in Shared(w, wo) && FateOf(before, w, wo, f.hybrid, p).Warn?)
        && r.report.warnings == Warnings(modified, r.report.preserved);
      assert (set p | p in Shared(w, wo) && FateOf(before, w, wo, f.hybrid, p).Warn?) == {};
      EmptyListed(modified);
    }
  }

  lemma EmptyListed(names: seq<string>)
    requires ToSet(names) == {}
    ensures names == []
  {
    assert forall n :: n in names ==> n in ToSet(names);
    NothingIn(names);
  }

  /** The tree before the last step. */
  ghost predicate SettledReduced(settled: Files, w: Files, wo: Files, hybrid: set<string>) {
    && (forall p :: p != LOCK ==> (p in settled <==> p in wo || (p in w && StartsWith(p, MIGRATIONS))))
    && (forall p :: p in wo && p != ANSWERS && p in w ==> Reduced(settled, w, wo, hybrid, p))
    && (forall p :: p in w && p !in wo && p in settled ==> settled[p] == w[p])
  }

  lemma SettledReduces(before: Files, w: Files, wo: Files, hybrid: set<string>)
    requires AsRendered(before, w) && RendersOk(w, wo, hybrid)
    ensures var settled := Settle(before, w, wo, hybrid, w.Keys);
            && SettledReduced(settled, w, wo, hybrid)
            && ANSWERS in before && ANSWERS in settled && settled[ANSWERS] == before[ANSWERS]
            && (LOCK in settled <==> LOCK in before)
  {
    hide Settle, StartsWith, Span, Content;
    var settled := Settle(before, w, wo, hybrid, w.Keys);
    SettledIsReduced(before, w, wo, hybrid, ANSWERS);
    SettledIsReduced(before, w, wo, hybrid, LOCK);
    forall p | p != LOCK
      ensures p in settled <==> p in wo || (p in w && StartsWith(p, MIGRATIONS))
      ensures p in wo && p != ANSWERS && p in w ==> Reduced(settled, w, wo, hybrid, p)
      ensures p in w && p !in wo && p in settled ==> settled[p] == w[p]
    {
      SettledIsReduced(before, w, wo, hybrid, p);
    }
  }

  lemma ReducedIsLocal(a: Files, b: Files, w: Files, wo: Files, hybrid: set<string>, p: string)
    requires SameAt(a, b, p) && p in w && p in wo
    ensures Reduced(a, w, wo, hybrid, p) <==> Reduced(b, w, wo, hybrid, p)
  {
    hide Content;
  }

  /** Writing the answers or the lock leaves the rest of the tree reduced. */
  lemma StaysReduced(settled: Files, after: Files, w: Files, wo: Files, hybrid: set<string>)
    requires SettledReduced(settled, w, wo, hybrid) && wo.Keys <= w.Keys && LOCK !in w && ANSWERS in wo && ANSWERS in after
    requires forall p :: p != ANSWERS && p != LOCK ==> SameAt(after, settled, p)
    ensures SettledReduced(after, w, wo, hybrid)
  {
    hide Reduced, StartsWith;
    forall p | p != LOCK
      ensures p in after <==> p in wo || (p in w && StartsWith(p, MIGRATIONS))
      ensures p in wo && p != ANSWERS && p in w ==> Reduced(after, w, wo, hybrid, p)
      ensures p in w && p !in wo && p in after ==> after[p] == w[p]
    {
      if p != ANSWERS {
        assert SameAt(after, settled, p);
        if p in wo {
          ReducedIsLocal(after, settled, w, wo, hybrid, p);
        }
      }
    }
  }

  lemma FinishReduces(f: Framework, settled: Files, w: Files, wo: Files, answers: string, reduced: seq<string>, r: Removal, after: Files)
    requires Finishes(f, settled, reduced, r, after)
    requires SettledReduced(settled, w, wo, f.hybrid) && wo.Keys <= w.Keys && LOCK !in w && ANSWERS in wo
    requires ANSWERS in settled && settled[ANSWERS] == answers
    requires LOCK in settled ==> Lockable(f, wo, f.rules(Recording(answers, reduced)))
    ensures r.Removed? && SettledReduced(after, w, wo, f.hybrid)
    ensures ANSWERS in after && after[ANSWERS] == Recording(answers, reduced)
    ensures LOCK in after <==> LOCK in settled
    ensures LOCK in settled ==> Checked(f.hash, after, true) == Findings([])
  {
    hide Reduced, Recording, Lockable, Dumps, FirstError, Checked, Generated, SettledReduced, RulesOk;
    LockIsNotAnswers();
    var recorded := settled[ANSWERS := Recording(answers, reduced)];
    var rules := f.rules(Recording(answers, reduced));
    StaysReduced(settled, recorded, w, wo, f.hybrid);
    StaysReduced(settled, recorded[LOCK := Dumps(f.hash, Generated(f.hash, recorded, f.version, rules))], w, wo, f.hybrid);
    if LOCK in settled {
      SettledIsLockable(f, recorded, w, wo, rules);
      FreshLockIsClean(f.hash, recorded, f.version, rules, f.ignored);
    }
  }

  lemma SettledIsLockable(f: Framework, files: Files, w: Files, wo: Files, rules: seq<Rule>)
    requires SettledReduced(files, w, wo, f.hybrid) && Lockable(f, wo, rules) && wo.Keys <= w.Keys
    ensures FirstError(files, f.ignored, rules).None? && HashOk(f.hash) && RulesOk(rules)
  {
    hide Reduced;
    ReducedIsLockable(f, files, w, wo, rules);
  }
}

/** Runs of the audit over many sessions: a new one, then resumes, each ended by the backend or
    killed between any two of its writes. When they end, whose reports and verdicts the result
    rests on. */
module AuditSessions {
  import opened Lists
  import opened Json
  import opened Checkpoint
  import opened RunStage
  import opened StageLaws
  import opened Changelists
  import opened AuditRun
  import opened AuditLaws

  /** Where a session is killed: after the stamp, while or after auditing, after writing the
      changelist, while or after refuting; or not at all. A kill between two items of a stage is
      the same as exhausting the backend at the second. */
  datatype Stop = AtStamp | BeforeReconciled | BeforeRefuting | BeforeWritten | Ran

  ghost function Session(d: Dir, x: Inputs, resume: bool, stop: Stop): (d': Dir)
    requires Usable(d)
    ensures Usable(d')
  {
    var end := AuditEnd(d, x, resume);
    if end.1.Stale? then d
    else
      match stop
      case AtStamp => d.(stamp := Some(x.fingerprint))
      case BeforeReconciled =>
        d.(stamp := Some(x.fingerprint), stage1 := StageEnd(d.stage1, x.targets, x.audit, resume).0)
      case BeforeRefuting => end.0.(stage3 := d.stage3, written := d.written)
      case BeforeWritten => end.0.(written := d.written)
      case Ran => end.0
  }

  /** What the sessions of one run have in common. `audit` and `refute` say what each piece of work
      gives when it is allowed to finish. A session may name the targets in another order: the
      fingerprint digests them sorted. */
  datatype Plan = Plan(fingerprint: string, targets: seq<string>, audit: Id -> Outcome<Json>, refute: Item -> Outcome<Verdict>)

  ghost predicate Fits(plan: Plan, x: Inputs) {
    && x.fingerprint == plan.fingerprint && ToSet(x.targets) == ToSet(plan.targets)
    && CutShort(x.targets, x.audit, plan.audit)
    && forall it :: x.refute(it).Exhausted? || x.refute(it) == plan.refute(it)
  }

  /** One of these sessions' reconcilers, given the reports of all targets, answers `cl`. */
  ghost predicate MadeBy(plan: Plan, xs: seq<Inputs>, cl: Changelist) {
    exists j :: 0 <= j < |xs| && MadeFrom(plan, xs[j], cl)
  }

  ghost predicate MadeFrom(plan: Plan, x: Inputs, cl: Changelist) {
    && (forall t :: t in x.targets ==> !plan.audit(t).Exhausted?)
    && x.reconcile(AllRecords(x.targets, plan.audit)) == Returned(cl)
  }

  /** Everything in the directory that a resume would use is of this run. */
  ghost predicate Own(plan: Plan, xs: seq<Inputs>, d: Dir) {
    && Usable(d) && d.stamp == Some(plan.fingerprint)
    && (d.stage1.state.Some? ==> Faithful(d.stage1, plan.targets, plan.audit))
    && (d.stage2.None? ==> d.stage3.state.None?)
    && (d.stage2.Some? ==> exists cl :: OwnEdits(plan, xs, d, cl))
  }

  ghost predicate OwnEdits(plan: Plan, xs: seq<Inputs>, d: Dir, cl: Changelist) {
    && d.stage2 == Some(Dumps(cl)) && MadeBy(plan, xs, cl)
    && (d.stage3.state.Some? ==> Faithful(d.stage3, Ids(Flat(cl)), RefuteWork(Flat(cl), plan.refute)))
  }

  /** The decision on `cl`, and the edits that survive it. */
  ghost predicate Decides(cl: Changelist, refute: Item -> Outcome<Verdict>, r: AuditResult) {
    && r.Done? && Heard(Flat(cl), refute) && r.full == DecidedBy(cl, refute) && r.vetted == Vetted(r.full)
    && (IdsMeanItems(cl) ==> r.full == Judgement(cl, refute))
  }

  // ---------------------------------------------------------------- the third stage

  lemma WorkIsCut(items: seq<Item>, cut: Item -> Outcome<Verdict>, whole: Item -> Outcome<Verdict>)
    requires forall it :: it in items ==> cut(it).Exhausted? || cut(it) == whole(it)
    ensures CutShort(Ids(items), RefuteWork(items, cut), RefuteWork(items, whole))
  {
    hide RefuteWork, Ids, Key, StandsFor;
    forall id | id in Ids(items)
      ensures RefuteWork(items, cut)(id).Exhausted? || RefuteWork(items, cut)(id) == RefuteWork(items, whole)(id)
    {
      IdIsItem(items, id);
      var it :| it in items && Key(it.agent, it.idx) == id;
      WorkIs(items, cut, it);
      WorkIs(items, whole, it);
      StandsForOne(items, it);
    }
  }

  /** A session of the run refutes: what it leaves is the run's own, and when it ends, it ends with
      the decision on the changelist. */
  lemma RefutingDecides(d: Dir, x: Inputs, resume: bool, cl: Changelist, refute: Item -> Outcome<Verdict>)
    requires Usable(d)
    requires forall it :: it in Flat(cl) ==> x.refute(it).Exhausted? || x.refute(it) == refute(it)
    requires resume ==> d.stage3.state.None? || Faithful(d.stage3, Ids(Flat(cl)), RefuteWork(Flat(cl), refute))
    ensures var (d', r) := Refuting(d, x, resume, cl);
            && d' == d.(stage3 := d'.stage3, written := d'.written)
            && Faithful(d'.stage3, Ids(Flat(cl)), RefuteWork(Flat(cl), refute))
            && (r.Done? || r.OutOfBackend?) && (r.Done? ==> Decides(cl, refute, r))
            && (NoneExhausts(Flat(cl), x.refute) ==> r.Done?)
  {
    var items := Flat(cl);
    var ids, cut, work := Ids(items), RefuteWork(items, x.refute), RefuteWork(items, refute);
    WorkIsCut(items, x.refute, refute);
    if NoneExhausts(items, x.refute) {
      WorkNeverExhausts(items, x.refute);
    }
    hide Flat, Ids, RefuteWork, Faithful, Sound, VerdictMap, Vetted, StageEnd, CutShort, Judgement, IdsMeanItems, Decided, NoneExhausts;
    StageAdvances(d.stage3, ids, cut, work, resume);
    if Refuting(d, x, resume, cl).1.Done? && IdsMeanItems(cl) {
      DecidedIsJudgement(cl, refute);
    }
  }

  /** What a session that completes has written: the vetted changelist it returns, and the full one. */
  lemma DoneIsWritten(d: Dir, x: Inputs, resume: bool)
    requires Usable(d)
    ensures var (d', r) := AuditEnd(d, x, resume);
            && (r.Done? ==> d'.written == Some((r.vetted, r.full)) && r.vetted == Vetted(r.full))
            && (!r.Done? ==> d'.written == d.written)
            && (!r.Stale? ==> d'.stamp == Some(x.fingerprint)) && (r.Stale? ==> d' == d)
  {
    hide StageEnd, Sound, Flat, Ids, RefuteWork, VerdictMap, Vetted, Dumps, ReadFile, Decided;
  }

  // ---------------------------------------------------------------- one session of a run

  ghost predicate Reached(d: Dir, x: Inputs, cl: Changelist)
    requires Usable(d)
  {
    var r1 := StageEnd(d.stage1, x.targets, x.audit, false).1;
    r1.Finished? && x.reconcile(r1.records) == Returned(cl)
  }

  /** A new session wrote its own changelist; it began its own third stage. */
  ghost predicate WroteTwo(d: Dir, x: Inputs, stop: Stop)
    requires Usable(d)
  {
    !stop.AtStamp? && !stop.BeforeReconciled? && exists cl :: Reached(d, x, cl)
  }

  ghost predicate BeganThree(d: Dir, x: Inputs, stop: Stop)
    requires Usable(d)
  {
    !stop.BeforeRefuting? && WroteTwo(d, x, stop)
  }

  /** Each stage's file was there from an earlier run only if the new session went on to replace it. */
  ghost predicate CleanStart(d: Dir, x: Inputs, stop: Stop)
    requires Usable(d)
  {
    && (stop.AtStamp? ==> d.stage1.state.None?)
    && (d.stage2.Some? ==> WroteTwo(d, x, stop))
    && (d.stage3.state.Some? ==> BeganThree(d, x, stop))
  }

  lemma MadeByOne(plan: Plan, xs: seq<Inputs>, x: Inputs, cl: Changelist)
    requires MadeFrom(plan, x, cl)
    ensures MadeBy(plan, xs + [x], cl)
  {
    hide MadeFrom;
    assert (xs + [x])[|xs|] == x;
  }

  lemma MadeByMore(plan: Plan, xs: seq<Inputs>, x: Inputs, cl: Changelist)
    requires MadeBy(plan, xs, cl)
    ensures MadeBy(plan, xs + [x], cl)
  {
    hide MadeFrom;
    var j :| 0 <= j < |xs| && MadeFrom(plan, xs[j], cl);
    assert (xs + [x])[j] == xs[j];
  }

  /** The first two stages of a session: what is in the directory before refuting. */
  ghost predicate Before(plan: Plan, xs: seq<Inputs>, d: Dir, x: Inputs, resume: bool) {
    && Usable(d) && Fits(plan, x)
    && (resume ==> Own(plan, xs, d))
  }

  /** A session that gets past reconciling refutes a changelist of this run. */
  lemma ReconcilesOwn(plan: Plan, xs: seq<Inputs>, d: Dir, x: Inputs, resume: bool)
    requires Before(plan, xs, d, x, resume)
    ensures var (s1, r1) := StageEnd(d.stage1, x.targets, x.audit, resume);
            && Faithful(s1, plan.targets, plan.audit)
            && (r1.Finished? && Reconciling(d, x, resume, r1.records).Returned? ==>
                  MadeBy(plan, xs + [x], Reconciling(d, x, resume, r1.records).value))
            && ((forall t :: t in plan.targets ==> !x.audit(t).Exhausted?) ==> r1.Finished?)
  {
    hide StageEnd, Sound, Faithful, Flat, Ids, RefuteWork, Dumps, ReadFile, AllRecords, CutShort, MadeBy;
    FaithfulAlike(d.stage1, x.targets, plan.targets, plan.audit);
    SameItems(x.targets, plan.targets);
    StageAdvances(d.stage1, x.targets, x.audit, plan.audit, resume);
    FaithfulAlike(StageEnd(d.stage1, x.targets, x.audit, resume).0, x.targets, plan.targets, plan.audit);
    var r1 := StageEnd(d.stage1, x.targets, x.audit, resume).1;
    if r1.Finished? && Reconciling(d, x, resume, r1.records).Returned? {
      var cl := Reconciling(d, x, resume, r1.records).value;
      if resume && d.stage2.Some? {
        var made :| OwnEdits(plan, xs, d, made);
        FileReadsBack(made);
        MadeByMore(plan, xs, x, made);
      } else {
        MadeByOne(plan, xs, x, cl);
      }
    }
  }

  /** The third stage as the session finds it is the run's own. */
  lemma FindsOwnStageThree(plan: Plan, xs: seq<Inputs>, d: Dir, cl: Changelist)
    requires Own(plan, xs, d)
    requires d.stage2.Some? ==> ReadFile(d.stage2.value) == Some(cl)
    ensures d.stage3.state.None? || Faithful(d.stage3, Ids(Flat(cl)), RefuteWork(Flat(cl), plan.refute))
  {
    hide Sound, Faithful, Flat, Ids, RefuteWork, Dumps, ReadFile, MadeBy;
    if d.stage2.Some? {
      var made :| OwnEdits(plan, xs, d, made);
      FileReadsBack(made);
    }
  }

  /** What a whole session of the run leaves and returns. */
  lemma SessionOwns(plan: Plan, xs: seq<Inputs>, d: Dir, x: Inputs, resume: bool)
    requires Before(plan, xs, d, x, resume)
    ensures var (d', r) := AuditEnd(d, x, resume);
            && !r.Stale? && d'.stamp == Some(plan.fingerprint)
            && Faithful(d'.stage1, plan.targets, plan.audit)
            && (var r1 := StageEnd(d.stage1, x.targets, x.audit, resume).1;
                if r1.Finished? && Reconciling(d, x, resume, r1.records).Returned?
                then var cl := Reconciling(d, x, resume, r1.records).value;
                     && MadeBy(plan, xs + [x], cl) && d'.stage2 == (if resume && d.stage2.Some? then d.stage2 else Some(Dumps(cl)))
                     && Faithful(d'.stage3, Ids(Flat(cl)), RefuteWork(Flat(cl), plan.refute))
                     && (r.Done? ==> Decides(cl, plan.refute, r))
                     && (NoneExhausts(Flat(cl), x.refute) ==> r.Done?)
                else d'.stage2 == d.stage2 && d'.stage3 == d.stage3 && !r.Done?)
  {
    hide StageEnd, Sound, Faithful, Flat, Ids, RefuteWork, Dumps, ReadFile, MadeBy, Decides, NoneExhausts, CutShort, Refuting;
    ReconcilesOwn(plan, xs, d, x, resume);
    RefusedIffStale(d, x);
    var (s1, r1) := StageEnd(d.stage1, x.targets, x.audit, resume);
    var d1 := d.(stamp := Some(x.fingerprint), stage1 := s1);
    assert Usable(d1);
    if r1.Finished? && Reconciling(d, x, resume, r1.records).Returned? {
      var cl := Reconciling(d, x, resume, r1.records).value;
      if resume {
        FindsOwnStageThree(plan, xs, d, cl);
      }
      var d2 := if resume && d1.stage2.Some? then d1 else d1.(stage2 := Some(Dumps(cl)));
      assert Reconciling(d1, x, resume, r1.records) == Reconciling(d, x, resume, r1.records);
      assert AuditEnd(d, x, resume) == Refuting(d2, x, resume, cl);
      RefutingDecides(d2, x, resume, cl, plan.refute);
    }
  }

  /** A resume of the run, ended or killed anywhere, leaves the directory the run's own. */
  lemma ResumeKeepsOwn(plan: Plan, xs: seq<Inputs>, d: Dir, x: Inputs, stop: Stop)
    requires Own(plan, xs, d) && Fits(plan, x)
    ensures Own(plan, xs + [x], Session(d, x, true, stop))
  {
    hide StageEnd, Sound, Faithful, Flat, Ids, RefuteWork, Dumps, ReadFile, MadeBy, Decides, NoneExhausts, CutShort, AuditEnd;
    SessionOwns(plan, xs, d, x, true);
    ReconcilesOwn(plan, xs, d, x, true);
    var d' := Session(d, x, true, stop);
    if d.stage2.Some? {
      var cl :| OwnEdits(plan, xs, d, cl);
      FileReadsBack(cl);
      MadeByMore(plan, xs, x, cl);
      assert OwnEdits(plan, xs + [x], d', cl);
    } else if d'.stage2.Some? {
      var cl := Reconciling(d, x, true, StageEnd(d.stage1, x.targets, x.audit, true).1.records).value;
      assert OwnEdits(plan, xs + [x], d', cl);
    }
  }

  /** A new session that starts cleanly, ended or killed anywhere, leaves the directory its own. */
  lemma NewSessionOwns(plan: Plan, d: Dir, x: Inputs, stop: Stop)
    requires Usable(d) && Fits(plan, x) && CleanStart(d, x, stop)
    ensures Own(plan, [x], Session(d, x, false, stop))
  {
    hide StageEnd, Sound, Faithful, Flat, Ids, RefuteWork, Dumps, ReadFile, MadeBy, Decides, NoneExhausts, CutShort, AuditEnd;
    SessionOwns(plan, [], d, x, false);
    ReconcilesOwn(plan, [], d, x, false);
    assert [] + [x] == [x];
    var d' := Session(d, x, false, stop);
    var r1 := StageEnd(d.stage1, x.targets, x.audit, false).1;
    if r1.Finished? && x.reconcile(r1.records).Returned? {
      var cl := x.reconcile(r1.records).value;
      assert Reached(d, x, cl);
      if d'.stage2.Some? {
        assert OwnEdits(plan, [x], d', cl);
      }
    }
  }

  // ---------------------------------------------------------------- a run of sessions

  /** A new session and then resumes, all of one plan. */
  ghost predicate RunOf(plan: Plan, xs: seq<Inputs>, stops: seq<Stop>, dirs: seq<Dir>) {
    && xs != [] && |stops| == |xs| && |dirs| == |xs| + 1
    && (forall i :: 0 <= i < |dirs| ==> Usable(dirs[i]))
    && (forall i :: 0 <= i < |xs| ==> Fits(plan, xs[i]))
    && forall i :: 0 <= i < |xs| ==> dirs[i + 1] == Session(dirs[i], xs[i], i > 0, stops[i])
  }

  lemma {:induction false} RunStaysOwn(plan: Plan, xs: seq<Inputs>, stops: seq<Stop>, dirs: seq<Dir>, i: nat)
    requires RunOf(plan, xs, stops, dirs) && CleanStart(dirs[0], xs[0], stops[0]) && 0 < i <= |xs|
    ensures Own(plan, xs[..i], dirs[i])
  {
    hide Own, Fits, Session, Usable, CleanStart;
    assert xs[..i] == xs[..i - 1] + [xs[i - 1]];
    if i == 1 {
      assert xs[..1] == [xs[0]];
      NewSessionOwns(plan, dirs[0], xs[0], stops[0]);
    } else {
      RunStaysOwn(plan, xs, stops, dirs, i - 1);
      ResumeKeepsOwn(plan, xs[..i - 1], dirs[i - 1], xs[i - 1], stops[i - 1]);
    }
  }

  /** The result is the decision on a changelist that these sessions made. */
  ghost predicate RestsOnRun(plan: Plan, xs: seq<Inputs>, r: AuditResult) {
    exists cl :: MadeBy(plan, xs, cl) && Decides(cl, plan.refute, r)
  }

  /** However often a run is ended by the backend, killed and resumed: when it starts cleanly, a
      session that completes returns the decision on a changelist that this run reconciled from
      this run's reports - and when no two different edits share an id, that is each edit with the
      verdict of its own refutation. */
  lemma RunJudges(plan: Plan, xs: seq<Inputs>, stops: seq<Stop>, dirs: seq<Dir>, i: nat)
    requires RunOf(plan, xs, stops, dirs) && CleanStart(dirs[0], xs[0], stops[0]) && i < |xs|
    requires Usable(dirs[i]) && AuditEnd(dirs[i], xs[i], i > 0).1.Done?
    ensures RestsOnRun(plan, xs[..i + 1], AuditEnd(dirs[i], xs[i], i > 0).1)
  {
    hide Own, Fits, Session, Usable, CleanStart, AuditEnd, Decides, MadeBy, StageEnd, NoneExhausts, Faithful, Dumps;
    assert xs[..i + 1] == xs[..i] + [xs[i]];
    if i > 0 {
      RunStaysOwn(plan, xs, stops, dirs, i);
    }
    assert Before(plan, xs[..i], dirs[i], xs[i], i > 0);
    SessionOwns(plan, xs[..i], dirs[i], xs[i], i > 0);
  }

  /** And a session that nothing cuts short completes. */
  lemma UncutSessionCompletes(plan: Plan, xs: seq<Inputs>, stops: seq<Stop>, dirs: seq<Dir>, i: nat)
    requires RunOf(plan, xs, stops, dirs) && CleanStart(dirs[0], xs[0], stops[0]) && i < |xs|
    requires Usable(dirs[i]) && (forall t :: t in plan.targets ==> !xs[i].audit(t).Exhausted?)
    requires (forall it :: !xs[i].refute(it).Exhausted?) && forall records :: xs[i].reconcile(records).Returned?
    ensures AuditEnd(dirs[i], xs[i], i > 0).1.Done?
  {
    hide Fits, Session, CleanStart, AuditEnd, Decides, MadeBy, StageEnd, Faithful, Dumps, ReadFile, Sound;
    if i > 0 {
      RunStaysOwn(plan, xs, stops, dirs, i);
    }
    var d, x, resume := dirs[i], xs[i], i > 0;
    assert Before(plan, xs[..i], d, x, resume);
    SessionOwns(plan, xs[..i], d, x, resume);
    ReconcilesOwn(plan, xs[..i], d, x, resume);
    if resume && d.stage2.Some? {
      var cl :| OwnEdits(plan, xs[..i], d, cl);
      FileReadsBack(cl);
    }
    var r1 := StageEnd(d.stage1, x.targets, x.audit, resume).1;
    assert Reconciling(d, x, resume, r1.records).Returned?;
    var cl := Reconciling(d, x, resume, r1.records).value;
    assert NoneExhausts(Flat(cl), x.refute);
  }

  /** A new run that is not cut short: the vetted changelist is the reconciled one with each
      edit's own verdict, less the refuted edits. */
  lemma NewRunJudges(d: Dir, x: Inputs, cl: Changelist)
    requires Usable(d) && Reached(d, x, cl) && IdsMeanItems(cl) && NoneExhausts(Flat(cl), x.refute)
    ensures AuditEnd(d, x, false).1 == Done(Vetted(Judgement(cl, x.refute)), Judgement(cl, x.refute))
  {
    hide StageEnd, Sound, Flat, NoneExhausts, Judgement, Vetted, Refuting, IdsMeanItems, Dumps, Heard, DecidedBy;
    var d1 := d.(stamp := Some(x.fingerprint), stage1 := StageEnd(d.stage1, x.targets, x.audit, false).0, stage2 := Some(Dumps(cl)));
    RefutingDecides(d1, x, false, cl, x.refute);
  }

  /** What a new run leaves when it ends after reconciling. */
  lemma CutRunLeaves(d: Dir, x: Inputs, cl: Changelist, refute: Item -> Outcome<Verdict>)
    requires Usable(d) && Reached(d, x, cl)
    requires forall it :: it in Flat(cl) ==> x.refute(it).Exhausted? || x.refute(it) == refute(it)
    ensures var d' := AuditEnd(d, x, false).0;
            && d'.stamp == Some(x.fingerprint) && d'.stage2 == Some(Dumps(cl))
            && d'.stage1 == StageEnd(d.stage1, x.targets, x.audit, false).0
            && Faithful(d'.stage3, Ids(Flat(cl)), RefuteWork(Flat(cl), refute))
  {
    hide StageEnd, Sound, Flat, Ids, RefuteWork, Dumps, Faithful, Refuting, Decides, NoneExhausts;
    var d1 := d.(stamp := Some(x.fingerprint), stage1 := StageEnd(d.stage1, x.targets, x.audit, false).0, stage2 := Some(Dumps(cl)));
    assert AuditEnd(d, x, false) == Refuting(d1, x, false, cl);
    RefutingDecides(d1, x, false, cl, refute);
  }

  lemma DoneAlike<R>(d: Disk<R>, ids: seq<Id>, ids': seq<Id>)
    requires AllDone(d, ids) && ToSet(ids) == ToSet(ids')
    ensures AllDone(d, ids')
  {
    SameItems(ids, ids');
  }

  /** A run cut short while refuting, and resumed with whatever the auditors and the reconciler
      would say now: it ends with the changelist of an uninterrupted run. */
  lemma ResumedRunJudges(d: Dir, x: Inputs, y: Inputs, cl: Changelist)
    requires Usable(d) && Reached(d, x, cl) && IdsMeanItems(cl)
    requires y.fingerprint == x.fingerprint && ToSet(y.targets) == ToSet(x.targets)
    requires forall it :: it in Flat(cl) ==> x.refute(it).Exhausted? || x.refute(it) == y.refute(it)
    requires NoneExhausts(Flat(cl), y.refute)
    ensures AuditEnd(AuditEnd(d, x, false).0, y, true).1 == Done(Vetted(Judgement(cl, y.refute)), Judgement(cl, y.refute))
  {
    hide StageEnd, Sound, Flat, NoneExhausts, Judgement, Vetted, Refuting, IdsMeanItems, Dumps, Faithful, AllDone, ReadFile, Ids,
         RefuteWork, Heard, DecidedBy;
    CutRunLeaves(d, x, cl, y.refute);
    var d1 := AuditEnd(d, x, false).0;
    FinishedIsDone(d.stage1, x.targets, x.audit);
    DoneAlike(d1.stage1, x.targets, y.targets);
    DoneStageReturns(d1.stage1, y.targets, y.audit);
    FileReadsBack(cl);
    assert d1.(stage1 := StageEnd(d1.stage1, y.targets, y.audit, true).0) == d1;
    assert AuditEnd(d1, y, true) == Refuting(d1, y, true, cl);
    RefutingDecides(d1, y, true, cl, y.refute);
  }

  // ---------------------------------------------------------------- what an earlier run leaves behind

  /** A resumed session is refused exactly when the stamp is there and differs; then nothing changes. */
  lemma RefusedIffStale(d: Dir, x: Inputs)
    requires Usable(d)
    ensures AuditEnd(d, x, true).1.Stale? <==> d.stamp.Some? && d.stamp.value != x.fingerprint
    ensures AuditEnd(d, x, true).1.Stale? ==> AuditEnd(d, x, true).0 == d
    ensures !AuditEnd(d, x, false).1.Stale?
  {
    hide StageEnd, Sound, Flat, Ids, RefuteWork, VerdictMap, Vetted, Dumps, ReadFile;
  }

  /** What a new session leaves of each stage: its own file when it got there, and else whatever
      an earlier run had left. */
  lemma NewSessionLeaves(d: Dir, x: Inputs, stop: Stop)
    requires Usable(d)
    ensures var d' := Session(d, x, false, stop);
            && d'.stamp == Some(x.fingerprint)
            && d'.stage1 == (if stop.AtStamp? then d.stage1 else StageEnd(d.stage1, x.targets, x.audit, false).0)
            && (if WroteTwo(d, x, stop) then WroteItsOwn(d, x, d'.stage2) else d'.stage2 == d.stage2)
            && (if BeganThree(d, x, stop) then BeganItsOwn(d, x, d'.stage3) else d'.stage3 == d.stage3)
  {
    hide StageEnd, Sound, Flat, Ids, RefuteWork, VerdictMap, Vetted, Dumps;
    var r1 := StageEnd(d.stage1, x.targets, x.audit, false).1;
    if r1.Finished? && x.reconcile(r1.records).Returned? {
      var cl := x.reconcile(r1.records).value;
      assert Reached(d, x, cl);
    }
  }

  /** The changelist file is the one this session made. */
  ghost predicate WroteItsOwn(d: Dir, x: Inputs, text: Option<string>)
    requires Usable(d)
  {
    exists cl :: Reached(d, x, cl) && text == Some(Dumps(cl))
  }

  /** The third stage is the one this session began. */
  ghost predicate BeganItsOwn(d: Dir, x: Inputs, stage3: Disk<JudgedItem>)
    requires Usable(d)
  {
    exists cl :: Reached(d, x, cl) && stage3 == StageEnd(d.stage3, Ids(Flat(cl)), RefuteWork(Flat(cl), x.refute), false).0
  }

  /** After a new session, ended or killed anywhere, the reports that a resume finds are the run's
      own, or still to be made, exactly when the session got past its stamp or there were none. */
  lemma ReportsAreOwnIff(d: Dir, x: Inputs, stop: Stop)
    requires Usable(d)
    ensures var d' := Session(d, x, false, stop);
            d'.stage1.state.None? || (!stop.AtStamp? && d'.stage1 == StageEnd(d.stage1, x.targets, x.audit, false).0) <==>
            d.stage1.state.None? || !stop.AtStamp?
  {
    hide Session, WroteTwo, StageEnd, BeganThree, Usable;
    NewSessionLeaves(d, x, stop);
  }

  /** After a new session, ended or killed anywhere, the changelist that a resume finds is the
      run's own, or still to be made, exactly when the session wrote one or there was none. */
  lemma ChangelistIsOwnIff(d: Dir, x: Inputs, stop: Stop)
    requires Usable(d)
    ensures var d' := Session(d, x, false, stop);
            d'.stage2.None? || (WroteTwo(d, x, stop) && WroteItsOwn(d, x, d'.stage2)) <==>
            d.stage2.None? || WroteTwo(d, x, stop)
  {
    hide Session, Reached, WroteTwo, Dumps, StageEnd, BeganThree, Usable;
    NewSessionLeaves(d, x, stop);
  }

  /** And the verdicts are, exactly when the session began to refute or there were none. */
  lemma VerdictsAreOwnIff(d: Dir, x: Inputs, stop: Stop)
    requires Usable(d)
    ensures var d' := Session(d, x, false, stop);
            d'.stage3.state.None? || (BeganThree(d, x, stop) && BeganItsOwn(d, x, d'.stage3)) <==>
            d.stage3.state.None? || BeganThree(d, x, stop)
  {
    hide Session, Reached, WroteTwo, Dumps, StageEnd, BeganThree, Usable, Flat, Ids, RefuteWork;
    NewSessionLeaves(d, x, stop);
  }

  /** What is in the directory of the last two stages outlives a resume: the changelist as it is,
      and the record of every item that is done. */
  ghost predicate Outlives(d: Dir, d': Dir) {
    && (d.stage2.Some? ==> d'.stage2 == d.stage2)
    && (d.stage3.state.Some? ==>
          && d'.stage3.state.Some? && d'.stage3.state.value.planned == d.stage3.state.value.planned
          && forall id :: id in d.stage3.state.value.done ==>
               id in d'.stage3.state.value.done
               && (id in d'.stage3.findings <==> id in d.stage3.findings)
               && (id in d.stage3.findings ==> d'.stage3.findings[id] == d.stage3.findings[id]))
  }

  lemma StageOutlives<R>(d: Disk<R>, ids: seq<Id>, work: Id -> Outcome<R>)
    requires Sound(d) && d.state.Some?
    ensures var d' := StageEnd(d, ids, work, true).0;
            && d'.state.Some? && d'.state.value.planned == d.state.value.planned
            && forall id :: id in d.state.value.done ==>
                 id in d'.state.value.done && (id in d'.findings <==> id in d.findings)
                 && (id in d.findings ==> d'.findings[id] == d.findings[id])
  {
    hide Results, SerialRun, Within, Without, Runnable, Sound;
    var todo := StageTodo(d, ids, true);
    WithinMembers(ids, ToSet(Pending(d.state.value)));
    WithoutMembers(d.state.value.planned, ToSet(d.state.value.done));
    SerialRunDoes(todo, work, d, "");
    var k := Runnable(todo, work);
    forall id | id in d.state.value.done
      ensures var d' := SerialRun(todo, work, d).0;
              id in d'.state.value.done && (id in d'.findings <==> id in d.findings)
              && (id in d.findings ==> d'.findings[id] == d.findings[id])
    {
      SerialRunDoes(todo, work, d, id);
      assert id in todo[..k] ==> id in todo;
    }
  }

  lemma ResumeOutlives(d: Dir, x: Inputs, stop: Stop)
    requires Usable(d)
    ensures Outlives(d, Session(d, x, true, stop))
  {
    hide StageEnd, Sound, Flat, Ids, RefuteWork, VerdictMap, Vetted, Dumps, ReadFile;
    forall cl, e: Dir | Usable(e) && e.stage3 == d.stage3 && d.stage3.state.Some?
      ensures Outlives(d.(stage2 := None), Refuting(e, x, true, cl).0.(stage2 := None))
    {
      StageOutlives(d.stage3, Ids(Flat(cl)), RefuteWork(Flat(cl), x.refute));
    }
  }

  /** So what a new session did not replace itself outlives every later resume of its run. */
  lemma {:induction false} ResumesOutlive(plan: Plan, xs: seq<Inputs>, stops: seq<Stop>, dirs: seq<Dir>, i: nat)
    requires RunOf(plan, xs, stops, dirs) && 0 < i <= |xs|
    ensures Outlives(dirs[1], dirs[i])
  {
    hide Session, Usable, Fits;
    if i > 1 {
      ResumesOutlive(plan, xs, stops, dirs, i - 1);
      ResumeOutlives(dirs[i - 1], xs[i - 1], stops[i - 1]);
    }
  }

  /** Before a new run, what a caller can check: it starts cleanly wherever its first session may be
      killed exactly when the directory holds nothing of an earlier run. */
  lemma AlwaysCleanIff(d: Dir, x: Inputs)
    requires Usable(d)
    ensures (forall stop :: CleanStart(d, x, stop)) <==> d.stage1.state.None? && d.stage2.None? && d.stage3.state.None?
  {
    assert !WroteTwo(d, x, AtStamp) && !BeganThree(d, x, AtStamp);
    hide Reached, Usable;
    if forall stop :: CleanStart(d, x, stop) {
      assert CleanStart(d, x, AtStamp);
    }
  }

  /** So a run in such a directory rests on its own reports and refutations, whatever happens. */
  lemma NewDirectoryJudges(plan: Plan, xs: seq<Inputs>, stops: seq<Stop>, dirs: seq<Dir>, i: nat)
    requires RunOf(plan, xs, stops, dirs) && i < |xs|
    requires dirs[0].stage1.state.None? && dirs[0].stage2.None? && dirs[0].stage3.state.None?
    requires Usable(dirs[i]) && AuditEnd(dirs[i], xs[i], i > 0).1.Done?
    ensures RestsOnRun(plan, xs[..i + 1], AuditEnd(dirs[i], xs[i], i > 0).1)
  {
    hide Fits, Session, Usable, CleanStart, AuditEnd, Decides, MadeBy;
    AlwaysCleanIff(dirs[0], xs[0]);
    RunJudges(plan, xs, stops, dirs, i);
  }

  /** The older reports are really used: a new session is killed right after its stamp, in a
      directory where an earlier run had audited the same targets; its resume audits nothing and
      hands the older reports to the reconciler. */
  lemma OlderReportsAreUsed(d: Dir, x: Inputs, y: Inputs)
    requires Usable(d) && AllDone(d.stage1, x.targets) && d.stage2.None?
    requires y.fingerprint == x.fingerprint && ToSet(y.targets) == ToSet(x.targets)
    ensures var older := Results(y.targets, d.stage1);
            var d1 := Session(d, x, false, AtStamp);
            && d1 == d.(stamp := Some(x.fingerprint))
            && AuditEnd(d1, y, true) ==
               (match y.reconcile(older)
                case Exhausted => (d1, OutOfBackend)
                case Raised(_) => (d1, Broken)
                case Returned(cl) => Refuting(d1.(stage2 := Some(Dumps(cl))), y, true, cl))
  {
    hide StageEnd, Sound, Results, Refuting, Dumps, ReadFile;
    var d1 := Session(d, x, false, AtStamp);
    RefusedIffStale(d, x);
    DoneAlike(d.stage1, x.targets, y.targets);
    DoneStageReturns(d1.stage1, y.targets, y.audit);
    assert d1.(stage1 := StageEnd(d1.stage1, y.targets, y.audit, true).0) == d1;
  }

  /** The older changelist is really used: a new session with other inputs exhausts the backend
      while auditing; its resume is not refused, and refutes the edits of the older run's
      changelist, whatever its own reconciler says. */
  lemma OlderChangelistIsUsed(d: Dir, x: Inputs, y: Inputs, older: Changelist)
    requires Usable(d) && d.stage2 == Some(Dumps(older))
    requires ToSet(y.targets) == ToSet(x.targets) && y.fingerprint == x.fingerprint
    requires exists t :: t in x.targets && x.audit(t).Exhausted?
    requires forall t :: t in y.targets ==> !y.audit(t).Exhausted?
    ensures AuditEnd(d, x, false).1 == OutOfBackend
    ensures exists d': Dir :: Usable(d') && d'.stage2 == d.stage2 &&
              AuditEnd(AuditEnd(d, x, false).0, y, true) == Refuting(d', y, true, older)
  {
    hide Flat, Ids, RefuteWork, VerdictMap, Vetted, Dumps, ReadFile, Refuting, StageEnd, Sound;
    StageRaisesIff(d.stage1, x.targets, x.audit, false);
    FileReadsBack(older);
    var d1 := AuditEnd(d, x, false).0;
    assert d1 == d.(stamp := Some(x.fingerprint), stage1 := StageEnd(d.stage1, x.targets, x.audit, false).0);
    StageRaisesIff(d1.stage1, y.targets, y.audit, true);
    var d2 := d1.(stage1 := StageEnd(d1.stage1, y.targets, y.audit, true).0);
    assert AuditEnd(d1, y, true) == Refuting(d2, y, true, older);
  }

  /** The older verdicts are really used: an earlier run had refuted items with the same ids to the
      end, and the new session is killed between writing its changelist and beginning to refute;
      its resume asks no skeptic and attaches the records that are there. */
  lemma OlderVerdictsAreUsed(d: Dir, x: Inputs, y: Inputs, cl: Changelist)
    requires Usable(d) && Reached(d, x, cl) && AllDone(d.stage3, Ids(Flat(cl)))
    requires y.fingerprint == x.fingerprint && ToSet(y.targets) == ToSet(x.targets)
    ensures var r := AuditEnd(Session(d, x, false, BeforeRefuting), y, true).1;
            r.Done? && r.full == Decided(cl, VerdictMap(Results(Ids(Flat(cl)), d.stage3)))
  {
    hide Flat, Ids, RefuteWork, VerdictMap, Vetted, Dumps, ReadFile, StageEnd, Sound, Decided, Results;
    var d1 := Session(d, x, false, BeforeRefuting);
    assert d1.stage1 == StageEnd(d.stage1, x.targets, x.audit, false).0 && d1.stage2 == Some(Dumps(cl)) && d1.stage3 == d.stage3;
    FinishedIsDone(d.stage1, x.targets, x.audit);
    DoneAlike(d1.stage1, x.targets, y.targets);
    DoneStageReturns(d1.stage1, y.targets, y.audit);
    FileReadsBack(cl);
    DoneStageReturns(d.stage3, Ids(Flat(cl)), RefuteWork(Flat(cl), y.refute));
  }
}

/** What the pool promises over whole runs. */
module PoolTheorems {
  import opened Lists
  import opened Checkpoint
  import opened RunStage
  import opened StageLaws
  import opened PoolMachine
  import opened PoolInvariant
  import opened PoolSteps

  /** In every state of every run: done ids are planned and listed once, each has been worked
      by exactly the call recorded for it and its file holds that call's record; no session
      works an id twice, and nothing done in an earlier session was worked in a later one. */
  lemma DoneIsSafe<R>(plan: seq<Id>, limit: nat, work: Work<R>, run: seq<System<R>>, i: nat)
    requires Distinct(plan) && IsRun(plan, limit, work, run) && i < |run|
    ensures var s := run[i];
            && s.disk.state.Some? && s.disk.state.value.planned == plan
            && Distinct(s.disk.state.value.done) && Distinct(s.calls)
            && (forall id :: id in s.disk.state.value.done ==>
                  && id in plan && id in s.savedIn
                  && id in s.disk.findings && Tells(s.disk.findings[id], id, work(s.savedIn[id], id)))
            && (forall c :: c in s.calls && c.1 in s.disk.state.value.done ==> c.0 <= s.savedIn[c.1])
            && s.todo == Without(plan, ToSet(Done(s.begin)))
  {
    RunKeepsInvariant(plan, limit, work, run, i);
    hide LockOk, HoldOk, AppendsOk, OutcomesOk, ExhaustedOk, UnsavedOk, CountOk, StopOk, LeftOk;
  }

  // ---------------------------------------------------------------- nothing done is undone

  /** From `s` to `s'` nothing recorded is lost or redone. */
  ghost predicate Advances<R>(s: System<R>, s': System<R>) {
    && Done(s.disk) <= Done(s'.disk)
    && (forall id :: id in Done(s.disk) ==>
          id in s.disk.findings && id in s'.disk.findings && s'.disk.findings[id] == s.disk.findings[id])
    && s.calls <= s'.calls
    && (forall k :: |s.calls| <= k < |s'.calls| ==> s'.calls[k].1 !in Done(s.disk))
  }

  lemma DoneHaveFiles<R>(plan: seq<Id>, limit: nat, work: Work<R>, s: System<R>)
    requires Inv(plan, limit, work, s)
    ensures s.disk.state.Some?
    ensures forall id :: id in Done(s.disk) ==> id in s.disk.findings
  {
    hide LockOk, HoldOk, AppendsOk, OutcomesOk, ExhaustedOk, CallsOk, UnsavedOk, CountOk, StopOk, LeftOk;
  }

  /** A step that leaves the recorded state and log alone, and writes no done id's file. */
  lemma QuietAdvances<R>(s: System<R>, s': System<R>, id: Id, file: File<R>)
    requires s.disk.state.Some? && s'.disk.state == s.disk.state && id !in Done(s.disk)
    requires forall x :: x in Done(s.disk) ==> x in s.disk.findings
    requires s'.disk.findings == s.disk.findings || s'.disk.findings == s.disk.findings[id := file]
    requires s'.calls == s.calls || exists e :: s'.calls == s.calls + [(e, id)]
    ensures Advances(s, s')
  {
  }

  lemma SameAdvances<R>(s: System<R>, s': System<R>)
    requires s.disk.state.Some? && s'.disk.findings == s.disk.findings && s'.calls == s.calls
    requires forall x :: x in Done(s.disk) ==> x in s.disk.findings
    requires Done(s.disk) <= Done(s'.disk)
    ensures Advances(s, s')
  {
  }

  lemma ThreadAdvances<R>(plan: seq<Id>, limit: nat, work: Work<R>, s: System<R>, t: nat)
    requires Inv(plan, limit, work, s) && Enabled(s, t)
    ensures Advances(s, ThreadStep(work, s, t))
  {
    hide Inv, AppendOk, OutcomeOk, DiskOk, AfterWork, MarkedDone, Advances;
    DoneHaveFiles(plan, limit, work, s);
    var pc := s.threads[t];
    if !pc.Idle? {
      HolderFacts(plan, limit, work, s, t);
    }
    match pc
    case Idle => SameAdvances(s, TakeNext(s, t));
    case Taken(id) => if s.stop { SameAdvances(s, MoveTo(s, t, Idle)); } else { QuietAdvances(s, StartWork(s, t), id, Torn); }
    case Working(id) => SameAdvances(s, MoveTo(s, t, AfterWork(work, s, id)));
    case Exhausting(_) => SameAdvances(s, SignalStop(s, t));
    case Stopped(_) => SameAdvances(s, NoteExhausted(s, t));
    case Ready(id, _) => QuietAdvances(s, OpenRecord(s, t), id, Torn);
    case Writing(id, rec) => QuietAdvances(s, CompleteRecord(s, t), id, Whole(rec));
    case Written(id, rec) => SameAdvances(s, MoveTo(s, t, Loaded(id, rec, s.disk.state.value)));
    case Loaded(_, _, _) => SameAdvances(s, OpenTmp(s, t));
    case Staging(_, _, _) => SameAdvances(s, CompleteTmp(s, t));
    case Staged(_, _, _) => ReplaceFacts(plan, limit, work, s, t); SameAdvances(s, ReplaceState(s, t));
    case Replaced(_) => SameAdvances(s, Release(s, t));
  }

  lemma StepAdvances<R>(plan: seq<Id>, limit: nat, work: Work<R>, s: System<R>, s': System<R>)
    requires Inv(plan, limit, work, s) && Step(plan, limit, work, s, s')
    ensures Advances(s, s')
  {
    hide Inv, ThreadStep, Enabled, Advances;
    DoneHaveFiles(plan, limit, work, s);
    if t: nat :| Enabled(s, t) && s' == ThreadStep(work, s, t) {
      ThreadAdvances(plan, limit, work, s, t);
    } else {
      SameAdvances(s, s');
    }
  }

  lemma AdvancesTransitive<R>(a: System<R>, b: System<R>, c: System<R>)
    requires Advances(a, b) && Advances(b, c)
    ensures Advances(a, c)
  {
    forall k | |a.calls| <= k < |c.calls| ensures c.calls[k].1 !in Done(a.disk) {
      if k < |b.calls| {
        assert c.calls[k] == b.calls[k];
      }
    }
  }

  /** Over every run, crashes and resumes included: `done` only grows, at its end; the record
      of a done id never changes again, not even by being truncated; and no call of `work`
      made after an id is done is for that id. */
  lemma {:induction false} RunAdvances<R>(plan: seq<Id>, limit: nat, work: Work<R>, run: seq<System<R>>, i: nat, j: nat)
    requires Distinct(plan) && IsRun(plan, limit, work, run) && i <= j < |run|
    ensures Advances(run[i], run[j])
    decreases j
  {
    hide Inv, Step, Initial, Advances;
    RunKeepsInvariant(plan, limit, work, run, i);
    if i == j {
      AdvancesNowhere(plan, limit, work, run[i]);
    } else {
      RunAdvances(plan, limit, work, run, i, j - 1);
      RunKeepsInvariant(plan, limit, work, run, j - 1);
      StepAdvances(plan, limit, work, run[j - 1], run[j]);
      AdvancesTransitive(run[i], run[j - 1], run[j]);
    }
  }

  lemma AdvancesNowhere<R>(plan: seq<Id>, limit: nat, work: Work<R>, s: System<R>)
    requires Inv(plan, limit, work, s)
    ensures Advances(s, s)
  {
    DoneHaveFiles(plan, limit, work, s);
    hide Inv;
  }

  // ---------------------------------------------------------------- how much work is done

  lemma {:induction false} InjectiveValues(m: map<nat, Id>, u: set<Id>)
    requires forall t :: t in m ==> m[t] in u
    requires forall t, v :: t in m && v in m && t != v ==> m[t] != m[v]
    ensures |m| <= |u|
  {
    if m.Keys != {} {
      var t :| t in m;
      var rest := m - {t};
      assert rest.Keys == m.Keys - {t};
      InjectiveValues(rest, u - {m[t]});
    }
  }

  /** At every moment, `work` has been called at most once for each planned item, plus once
      for each thread and interruption (a crash, or a session the backend ended). */
  lemma WorkIsBounded<R>(plan: seq<Id>, limit: nat, work: Work<R>, run: seq<System<R>>, i: nat)
    requires Distinct(plan) && IsRun(plan, limit, work, run) && i < |run|
    ensures |run[i].calls| <= |plan| + limit * run[i].interruptions
  {
    RunKeepsInvariant(plan, limit, work, run, i);
    hide LockOk, HoldOk, AppendsOk, OutcomesOk, ExhaustedOk, SavedOk, CallsOk, StopOk, LeftOk, QueueOk;
    var s := run[i];
    var done := ToSet(Done(s.disk));
    var left := ToSet(plan) - done;
    InjectiveValues(s.unsaved, left);
    DistinctLength(Done(s.disk), done);
    ToSetSize(plan);
    assert done <= ToSet(plan);
    assert |ToSet(plan)| == |done + left| == |done| + |left|;
  }

  // ---------------------------------------------------------------- pool and serial path agree

  lemma DrainedStop<R>(plan: seq<Id>, limit: nat, work: Work<R>, s: System<R>)
    requires Inv(plan, limit, work, s) && Drained(s)
    ensures s.stop <==> s.exhausted != []
    ensures TakenIds(s) == s.todo
    ensures s.exhausted == [] ==> forall id :: id in s.todo ==> id in Done(s.disk)
  {
    hide DiskOk, QueueOk, LockOk, HoldOk, AppendsOk, OutcomesOk, ExhaustedOk, SavedOk, CallsOk, UnsavedOk, CountOk;
    assert forall id :: !Holds(s.threads, id);
  }

  /** A drained pool raises exactly when the (deterministic) work of some pending item
      exhausts the backend, which is exactly when the serial path raises. */
  lemma RaisesIffExhausted<R>(plan: seq<Id>, limit: nat, work: Work<R>, s: System<R>)
    requires Inv(plan, limit, work, s) && Drained(s)
    ensures s.exhausted != [] <==> exists id :: id in s.todo && work(s.epoch, id).Exhausted?
    ensures s.begin.state.Some?
    ensures SerialRun(s.todo, id => work(s.epoch, id), s.begin).1 <==> s.exhausted != []
  {
    DrainedStop(plan, limit, work, s);
    assert forall id :: id in s.todo && id in Done(s.disk) ==> s.savedIn[id] == s.epoch && !work(s.epoch, id).Exhausted?;
    if s.exhausted != [] {
      assert s.exhausted[0] in s.todo && work(s.epoch, s.exhausted[0]).Exhausted?;
    }
    SerialRunMarks(s.todo, id => work(s.epoch, id), s.begin);
  }

  lemma SessionSound<R>(plan: seq<Id>, limit: nat, work: Work<R>, s: System<R>)
    requires Inv(plan, limit, work, s)
    ensures s.begin.state.Some? && Sound(s.begin) && s.disk.state.Some? && Sound(s.disk)
  {
    hide LockOk, HoldOk, AppendsOk, OutcomesOk, ExhaustedOk, CallsOk, UnsavedOk, CountOk, StopOk, LeftOk;
  }

  /** A drained pool that did not raise returns the same list, in the same order, as the
      serial path started on the same directory with the same work. */
  lemma PoolReturnsSerialList<R>(plan: seq<Id>, limit: nat, work: Work<R>, s: System<R>)
    requires Inv(plan, limit, work, s) && Drained(s) && s.exhausted == []
    ensures s.begin.state.Some? && Sound(s.begin) && s.disk.state.Some? && Sound(s.disk)
    ensures var (d, raised) := SerialRun(s.todo, id => work(s.epoch, id), s.begin);
            && !raised && d.state.Some? && Sound(d)
            && Results(plan, s.disk) == Results(plan, d)
            && |Results(plan, s.disk)| == |plan|
  {
    SessionSound(plan, limit, work, s);
    DrainedStop(plan, limit, work, s);
    RaisesIffExhausted(plan, limit, work, s);
    var w := id => work(s.epoch, id);
    var d := SerialRun(s.todo, w, s.begin).0;
    SerialRunSound(s.todo, w, s.begin);
    SerialRunMarks(s.todo, w, s.begin);
    assert s.todo[..|s.todo|] == s.todo;
    assert d.state.value.done == Done(s.begin) + s.todo;
    hide LockOk, HoldOk, AppendsOk, OutcomesOk, ExhaustedOk, CallsOk, UnsavedOk, CountOk, StopOk, LeftOk;
    forall id | id in plan
      ensures id in d.state.value.done && id in Done(s.disk) && s.disk.findings[id] == d.findings[id]
    {
      SerialRunFiles(s.todo, w, s.begin, id);
    }
    ResultsAgree(plan, s.disk, d);
    ResultsAt(plan, s.disk);
  }

  /** Every session's calls answer as `work` does, when they are allowed to finish. */
  ghost predicate CutFrom<R(!new)>(calls: Work<R>, work: Id -> Outcome<R>) {
    forall e, id :: calls(e, id).Exhausted? || calls(e, id) == work(id)
  }

  lemma InvIsFaithful<R(!new)>(plan: seq<Id>, limit: nat, calls: Work<R>, work: Id -> Outcome<R>, s: System<R>)
    requires Inv(plan, limit, calls, s) && CutFrom(calls, work)
    ensures Faithful(s.disk, plan, work)
  {
    SessionSound(plan, limit, calls, s);
    hide LockOk, HoldOk, AppendsOk, OutcomesOk, ExhaustedOk, CallsOk, UnsavedOk, CountOk, StopOk, LeftOk, QueueOk, Sound;
  }

  /** A pool leaves of a stage what a serial session may: in every state of every run the stage is
      faithful to `work`, and once a pool has drained without exhaustion it returns the record of
      every item. What `AuditSessions` says of serial stages rests on no more. */
  lemma PoolIsFaithful<R(!new)>(plan: seq<Id>, limit: nat, calls: Work<R>, work: Id -> Outcome<R>, run: seq<System<R>>, i: nat)
    requires Distinct(plan) && IsRun(plan, limit, calls, run) && i < |run| && CutFrom(calls, work)
    ensures Faithful(run[i].disk, plan, work)
    ensures FinishedClean(run[i]) ==>
              && (forall id :: id in plan ==> !work(id).Exhausted?)
              && Results(plan, run[i].disk) == AllRecords(plan, work)
              && TellsAll(Results(plan, run[i].disk), plan, work)
  {
    RunKeepsInvariant(plan, limit, calls, run, i);
    hide Inv, IsRun, Drained, Faithful, Results, AllRecords, TellsAll;
    var s := run[i];
    InvIsFaithful(plan, limit, calls, work, s);
    if FinishedClean(s) {
      AllPlanDone(plan, limit, calls, s);
      FaithfulReturns(s.disk, plan, work);
      AllRecordsTell(plan, work);
    }
  }

  /** A faithful stage with every item done returns every record. */
  lemma FaithfulReturns<R(!new)>(d: Disk<R>, ids: seq<Id>, work: Id -> Outcome<R>)
    requires Faithful(d, ids, work) && forall id :: id in ids ==> id in d.state.value.done
    ensures forall id :: id in ids ==> !work(id).Exhausted?
    ensures Results(ids, d) == AllRecords(ids, work)
  {
    hide Results;
    ResultsAt(ids, d);
    assert Results(ids, d) == AllRecords(ids, work);
  }

  lemma AllPlanDone<R>(plan: seq<Id>, limit: nat, work: Work<R>, s: System<R>)
    requires Inv(plan, limit, work, s) && Drained(s) && s.exhausted == []
    ensures s.disk.state.Some? && forall id :: id in plan ==> id in s.disk.state.value.done
  {
    DrainedStop(plan, limit, work, s);
    hide LockOk, HoldOk, AppendsOk, OutcomesOk, ExhaustedOk, CallsOk, UnsavedOk, CountOk, StopOk, LeftOk;
  }

  // ---------------------------------------------------------------- the pool gets done

  /** Until the pool has drained, some thread can move: no schedule deadlocks. */
  lemma NoDeadlock<R>(plan: seq<Id>, limit: nat, work: Work<R>, s: System<R>)
    requires Inv(plan, limit, work, s) && !Drained(s)
    ensures exists t: nat :: Enabled(s, t)
  {
    hide AppendsOk, OutcomesOk, ExhaustedOk, SavedOk, CallsOk, UnsavedOk, CountOk, StopOk, LeftOk, HoldOk;
    if s.lock.Some? {
      assert Enabled(s, s.lock.value);
    } else if t: nat :| t < |s.threads| && !s.threads[t].Idle? {
      assert Enabled(s, t);
    } else {
      assert Enabled(s, 0);
    }
  }

  function Rank<R>(pc: Pc<R>): nat {
    match pc
    case Idle => 0
    case Taken(_) => 11
    case Working(_) => 10
    case Exhausting(_) => 9
    case Stopped(_) => 8
    case Ready(_, _) => 7
    case Writing(_, _) => 6
    case Written(_, _) => 5
    case Loaded(_, _, _) => 4
    case Staging(_, _, _) => 3
    case Staged(_, _, _) => 2
    case Replaced(_) => 1
  }

  function Ranks<R>(threads: seq<Pc<R>>): nat {
    if threads == [] then 0 else Rank(threads[0]) + Ranks(threads[1..])
  }

  /** The steps a session may still take. */
  function StepsLeft<R>(s: System<R>): int {
    12 * (|s.todo| - s.next) + Ranks(s.threads)
  }

  lemma {:induction false} RanksSet<R>(threads: seq<Pc<R>>, t: nat, pc: Pc<R>)
    requires t < |threads|
    ensures Ranks(threads[t := pc]) == Ranks(threads) - Rank(threads[t]) + Rank(pc)
  {
    if t > 0 {
      RanksSet(threads[1..], t - 1, pc);
      assert threads[t := pc][1..] == threads[1..][t - 1 := pc];
    } else {
      assert threads[t := pc][1..] == threads[1..];
    }
  }

  lemma Moves<R>(s: System<R>, t: nat, s': System<R>, pc: Pc<R>)
    requires t < |s.threads| && s'.todo == s.todo && s'.threads == s.threads[t := pc] && s.next <= |s.todo|
    requires if s.threads[t].Idle? then s'.next == s.next + 1 <= |s.todo| else s'.next == s.next
    requires Rank(pc) < Rank(s.threads[t]) + (if s.threads[t].Idle? then 12 else 0)
    ensures 0 <= StepsLeft(s') < StepsLeft(s)
  {
    RanksSet(s.threads, t, pc);
  }

  /** Every schedule drains: each step uses up one of finitely many. */
  lemma SessionTerminates<R>(plan: seq<Id>, limit: nat, work: Work<R>, s: System<R>, t: nat)
    requires Inv(plan, limit, work, s) && Enabled(s, t)
    ensures 0 <= StepsLeft(ThreadStep(work, s, t)) < StepsLeft(s)
  {
    hide Inv, StepsLeft;
    StepQueue(plan, limit, work, s);
    match s.threads[t]
    case Idle => Moves(s, t, TakeNext(s, t), Taken(s.todo[s.next]));
    case Taken(id) =>
      if s.stop { Moves(s, t, MoveTo(s, t, Idle), Idle); } else { Moves(s, t, StartWork(s, t), Working(id)); }
    case Working(id) => Moves(s, t, MoveTo(s, t, AfterWork(work, s, id)), AfterWork(work, s, id));
    case Exhausting(id) => Moves(s, t, SignalStop(s, t), Stopped(id));
    case Stopped(_) => Moves(s, t, NoteExhausted(s, t), Idle);
    case Ready(id, rec) => Moves(s, t, OpenRecord(s, t), Writing(id, rec));
    case Writing(id, rec) => Moves(s, t, CompleteRecord(s, t), Written(id, rec));
    case Written(id, rec) =>
      Moves(s, t, MoveTo(s, t, Loaded(id, rec, s.disk.state.value)), Loaded(id, rec, s.disk.state.value));
    case Loaded(id, rec, seen) => Moves(s, t, OpenTmp(s, t), Staging(id, rec, seen));
    case Staging(id, rec, seen) => Moves(s, t, CompleteTmp(s, t), Staged(id, rec, seen));
    case Staged(id, _, _) => Moves(s, t, ReplaceState(s, t), Replaced(id));
    case Replaced(_) => Moves(s, t, Release(s, t), Idle);
  }

  lemma StepQueue<R>(plan: seq<Id>, limit: nat, work: Work<R>, s: System<R>)
    requires Inv(plan, limit, work, s)
    ensures s.next <= |s.todo|
  {
  }
}

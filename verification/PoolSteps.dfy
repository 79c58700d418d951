/** The invariant survives each step of each thread, a crash, and a resume. */
module PoolSteps {
  import opened Lists
  import opened Checkpoint
  import opened PoolMachine
  import opened PoolInvariant

  lemma TakeIsNew(plan: seq<Id>, limit: nat, before: seq<Id>, todo: seq<Id>, next: nat, n: nat)
    requires QueueOk(plan, limit, before, todo, next, n) && next < |todo|
    ensures todo[..next + 1] == todo[..next] + [todo[next]] && todo[next] !in todo[..next] && todo[next] !in before
  {
    assert todo[next] in todo;
  }

  lemma NotTakenNotDone<R>(work: Work<R>, epoch: nat, before: Disk<R>, findings: map<Id, File<R>>,
                           savedIn: map<Id, nat>, done: seq<Id>, taken: seq<Id>, id: Id)
    requires SavedOk(work, epoch, before, findings, savedIn, done, taken) && id !in taken && id !in Done(before)
    ensures id !in done
  {
  }

  lemma NotTakenNotCalled<R>(plan: seq<Id>, epoch: nat, taken: seq<Id>, savedIn: map<Id, nat>, calls: seq<(nat, Id)>,
                             threads: seq<Pc<R>>, id: Id)
    requires CallsOk(plan, epoch, taken, savedIn, calls, threads) && id !in taken
    ensures (epoch, id) !in calls
  {
  }

  lemma TakeFacts<R>(plan: seq<Id>, limit: nat, work: Work<R>, s: System<R>, t: nat)
    requires Inv(plan, limit, work, s) && Enabled(s, t) && s.threads[t].Idle?
    ensures s.next < |s.todo| && TakenIds(TakeNext(s, t)) == TakenIds(s) + [s.todo[s.next]]
    ensures s.todo[s.next] !in TakenIds(s) && s.todo[s.next] !in Done(s.disk)
    ensures (s.epoch, s.todo[s.next]) !in s.calls
  {
    hide DiskOk, QueueOk, HoldOk, AppendsOk, OutcomesOk, ExhaustedOk, UnsavedOk, CountOk, StopOk, LeftOk, LockOk, SavedOk, CallsOk;
    var id := s.todo[s.next];
    TakeIsNew(plan, limit, Done(s.begin), s.todo, s.next, |s.threads|);
    NotTakenNotDone(work, s.epoch, s.begin, s.disk.findings, s.savedIn, Done(s.disk), TakenIds(s), id);
    NotTakenNotCalled(plan, s.epoch, TakenIds(s), s.savedIn, s.calls, s.threads, id);
  }

  /** What the holder of an id knows: it is planned, taken, and no other thread has it. */
  lemma HolderFacts<R>(plan: seq<Id>, limit: nat, work: Work<R>, s: System<R>, t: nat)
    requires Inv(plan, limit, work, s) && Enabled(s, t) && !s.threads[t].Idle?
    ensures s.threads[t].id in TakenIds(s) && s.threads[t].id in s.todo && s.threads[t].id in plan
    ensures s.threads[t].Replaced? <==> s.threads[t].id in Done(s.disk)
    ensures s.threads[t].id in s.savedIn <==> s.threads[t].Replaced?
    ensures forall u :: 0 <= u < |s.threads| && u != t && !s.threads[u].Idle? ==> s.threads[u].id != s.threads[t].id
    ensures AppendOk(s.disk, s.threads[t]) && OutcomeOk(work, s.epoch, s.threads[t])
    ensures s.threads[t].Taken? ==> (s.epoch, s.threads[t].id) !in s.calls
  {
    hide UnsavedOk, CountOk, StopOk, LeftOk, LockOk, DiskOk;
  }

  /** A thread that does not hold the lock fits any disk. */
  lemma OutsideFits<R>(disk: Disk<R>, work: Work<R>, epoch: nat, pc: Pc<R>)
    requires !Critical(pc)
    ensures AppendOk(disk, pc)
    ensures pc.Idle? || pc.Taken? || pc.Working? ==> OutcomeOk(work, epoch, pc)
  {
  }

  lemma TakeStep<R>(plan: seq<Id>, limit: nat, work: Work<R>, s: System<R>, t: nat)
    requires Inv(plan, limit, work, s) && Enabled(s, t) && s.threads[t].Idle?
    ensures Inv(plan, limit, work, TakeNext(s, t))
  {
    var s' := TakeNext(s, t);
    var pc := s'.threads[t];
    hide DiskOk, LockOk, HoldOk, AppendsOk, AppendOk, OutcomesOk, OutcomeOk, ExhaustedOk, SavedOk, CallsOk, UnsavedOk,
         CountOk, StopOk, LeftOk;
    var id := s.todo[s.next];
    TakeFacts(plan, limit, work, s, t);
    OutsideFits(s.disk, work, s.epoch, pc);
    LockSet(s.lock, s.threads, t, pc, s.lock);
    HoldTake(TakenIds(s), Done(s.disk), s.threads, t, id);
    AppendsSet(s.disk, s.disk, s.threads, t, pc);
    OutcomesSet(work, s.epoch, s.threads, t, pc);
    ExhaustedTake(work, s.epoch, TakenIds(s), s.exhausted, id);
    SavedTake(work, s.epoch, s.begin, s.disk.findings, s.savedIn, Done(s.disk), TakenIds(s), id);
    CallsTake(plan, s.epoch, TakenIds(s), s.savedIn, s.calls, s.threads, t, id);
    UnsavedSet(plan, s.epoch, s.calls, Done(s.disk), s.unsaved, s.threads, s.stop, t, pc, s'.stop);
    StopSame(s.stop, s.exhausted, s.threads, t, pc);
    LeftTake(TakenIds(s), Done(s.disk), s.stop, s.threads, t, id);
  }

  lemma StartStep<R>(plan: seq<Id>, limit: nat, work: Work<R>, s: System<R>, t: nat)
    requires Inv(plan, limit, work, s) && Enabled(s, t) && s.threads[t].Taken? && !s.stop
    ensures Inv(plan, limit, work, StartWork(s, t))
  {
    var s' := StartWork(s, t);
    var pc := s'.threads[t];
    hide DiskOk, LockOk, HoldOk, AppendsOk, AppendOk, OutcomesOk, OutcomeOk, ExhaustedOk, SavedOk, CallsOk, UnsavedOk,
         CountOk, StopOk, LeftOk;
    var id := s.threads[t].id;
    HolderFacts(plan, limit, work, s, t);
    OutsideFits(s.disk, work, s.epoch, pc);
    LockSet(s.lock, s.threads, t, pc, s'.lock);
    HoldSame(TakenIds(s), Done(s.disk), s.threads, t, pc);
    AppendsSet(s.disk, s'.disk, s.threads, t, pc);
    OutcomesSet(work, s.epoch, s.threads, t, pc);
    CallsStart(plan, s.epoch, TakenIds(s), s.savedIn, s.calls, s.threads, t, id);
    UnsavedStart(plan, s.epoch, s.calls, Done(s.disk), s.unsaved, s.threads, t, id);
    StopSame(s.stop, s.exhausted, s.threads, t, pc);
    LeftSame(TakenIds(s), Done(s.disk), s.stop, s.threads, t, pc);
    CountMore(limit, |s.calls|, |Done(s.disk)|, s.waste, |s.unsaved|, s.interruptions);
  }

  lemma CountMore(limit: nat, calls: nat, done: nat, waste: nat, unsaved: nat, interruptions: nat)
    requires CountOk(limit, calls, done, waste, unsaved, interruptions)
    ensures CountOk(limit, calls + 1, done, waste, unsaved + 1, interruptions)
    ensures unsaved > 0 ==> CountOk(limit, calls, done + 1, waste, unsaved - 1, interruptions)
  {
  }

  /** A step that changes nothing but this thread's place keeps the invariant if the new
      place fits: the stop check that gives up, the return of `work`, loading the state. */
  lemma MoveStep<R>(plan: seq<Id>, limit: nat, work: Work<R>, s: System<R>, t: nat, pc: Pc<R>)
    requires Inv(plan, limit, work, s) && Enabled(s, t) && !s.threads[t].Idle? && !s.threads[t].Stopped?
    requires Critical(pc) <==> Critical(s.threads[t])
    requires if pc.Idle? then s.stop else pc.id == s.threads[t].id
    requires !s.threads[t].Replaced? && !pc.Replaced? && !pc.Taken? && !pc.Stopped?
    requires InFlight(pc) ==> InFlight(s.threads[t])
    requires s.stop || InFlight(pc) || pc.Exhausting?
    requires AppendOk(s.disk, pc) && OutcomeOk(work, s.epoch, pc)
    ensures Inv(plan, limit, work, MoveTo(s, t, pc))
  {
    hide DiskOk, LockOk, HoldOk, AppendsOk, AppendOk, OutcomesOk, OutcomeOk, ExhaustedOk, SavedOk, CallsOk, UnsavedOk,
         CountOk, StopOk, LeftOk;
    var s' := MoveTo(s, t, pc);
    LockSet(s.lock, s.threads, t, pc, s'.lock);
    HoldSame(TakenIds(s), Done(s.disk), s.threads, t, pc);
    AppendsSet(s.disk, s'.disk, s.threads, t, pc);
    OutcomesSet(work, s.epoch, s.threads, t, pc);
    CallsSet(plan, s.epoch, TakenIds(s), s.savedIn, s.calls, s.threads, t, pc);
    UnsavedSet(plan, s.epoch, s.calls, Done(s.disk), s.unsaved, s.threads, s.stop, t, pc, s'.stop);
    StopSame(s.stop, s.exhausted, s.threads, t, pc);
    LeftSame(TakenIds(s), Done(s.disk), s.stop, s.threads, t, pc);
  }

  lemma QuietStep<R>(plan: seq<Id>, limit: nat, work: Work<R>, s: System<R>, t: nat)
    requires Inv(plan, limit, work, s) && Enabled(s, t)
    requires (s.threads[t].Taken? && s.stop) || s.threads[t].Working? || s.threads[t].Written?
    ensures Inv(plan, limit, work, ThreadStep(work, s, t))
  {
    hide Inv;
    HolderFacts(plan, limit, work, s, t);
    match s.threads[t]
    case Taken(_) => MoveStep(plan, limit, work, s, t, Idle);
    case Working(id) => MoveStep(plan, limit, work, s, t, AfterWork(work, s, id));
    case Written(id, rec) => MoveStep(plan, limit, work, s, t, Loaded(id, rec, s.disk.state.value));
  }

  lemma SignalStep<R>(plan: seq<Id>, limit: nat, work: Work<R>, s: System<R>, t: nat)
    requires Inv(plan, limit, work, s) && Enabled(s, t) && s.threads[t].Exhausting?
    ensures Inv(plan, limit, work, SignalStop(s, t))
  {
    var s' := SignalStop(s, t);
    var pc := s'.threads[t];
    hide DiskOk, LockOk, HoldOk, AppendsOk, AppendOk, OutcomesOk, OutcomeOk, ExhaustedOk, SavedOk, CallsOk, UnsavedOk,
         CountOk, StopOk, LeftOk;
    HolderFacts(plan, limit, work, s, t);
    StoppedFits(work, s.epoch, s.threads[t], pc);
    OutsideFits(s.disk, work, s.epoch, pc);
    LockSet(s.lock, s.threads, t, pc, s'.lock);
    HoldSame(TakenIds(s), Done(s.disk), s.threads, t, pc);
    AppendsSet(s.disk, s'.disk, s.threads, t, pc);
    OutcomesSet(work, s.epoch, s.threads, t, pc);
    CallsSet(plan, s.epoch, TakenIds(s), s.savedIn, s.calls, s.threads, t, pc);
    UnsavedSet(plan, s.epoch, s.calls, Done(s.disk), s.unsaved, s.threads, s.stop, t, pc, s'.stop);
    StopSignal(s.exhausted, s.threads, t, pc.id);
    LeftStopped(TakenIds(s), Done(s.disk), s'.threads);
  }

  lemma StoppedFits<R>(work: Work<R>, epoch: nat, pc: Pc<R>, pc': Pc<R>)
    requires OutcomeOk(work, epoch, pc) && pc.Exhausting? && pc' == Stopped(pc.id)
    ensures OutcomeOk(work, epoch, pc')
  {
  }

  lemma LeftStopped<R>(taken: seq<Id>, done: seq<Id>, threads: seq<Pc<R>>)
    ensures LeftOk(taken, done, true, threads)
  {
  }

  lemma NoteStep<R>(plan: seq<Id>, limit: nat, work: Work<R>, s: System<R>, t: nat)
    requires Inv(plan, limit, work, s) && Enabled(s, t) && s.threads[t].Stopped?
    ensures Inv(plan, limit, work, NoteExhausted(s, t))
  {
    var s' := NoteExhausted(s, t);
    var pc := s'.threads[t];
    hide DiskOk, LockOk, HoldOk, AppendsOk, AppendOk, OutcomesOk, OutcomeOk, ExhaustedOk, SavedOk, CallsOk, UnsavedOk,
         CountOk, StopOk, LeftOk;
    HolderFacts(plan, limit, work, s, t);
    OutsideFits(s.disk, work, s.epoch, pc);
    StopNote(s.stop, s.exhausted, s.threads, t);
    ExhaustedNote(work, s.epoch, TakenIds(s), s.exhausted, s.threads[t]);
    LockSet(s.lock, s.threads, t, pc, s'.lock);
    HoldSame(TakenIds(s), Done(s.disk), s.threads, t, pc);
    AppendsSet(s.disk, s'.disk, s.threads, t, pc);
    OutcomesSet(work, s.epoch, s.threads, t, pc);
    CallsSet(plan, s.epoch, TakenIds(s), s.savedIn, s.calls, s.threads, t, pc);
    UnsavedSet(plan, s.epoch, s.calls, Done(s.disk), s.unsaved, s.threads, s.stop, t, pc, s'.stop);
    LeftSame(TakenIds(s), Done(s.disk), s.stop, s.threads, t, pc);
  }

  /** Inside the lock, the next place fits what the step just wrote. */
  lemma InsideFits<R>(disk: Disk<R>, disk': Disk<R>, work: Work<R>, epoch: nat, pc: Pc<R>, pc': Pc<R>)
    requires AppendOk(disk, pc) && OutcomeOk(work, epoch, pc)
    requires
      || (pc.Ready? && pc' == Writing(pc.id, pc.rec))
      || (pc.Writing? && pc' == Written(pc.id, pc.rec) && pc.id in disk'.findings && disk'.findings[pc.id] == Whole(pc.rec))
      || (pc.Loaded? && pc' == Staging(pc.id, pc.rec, pc.seen) && disk' == disk.(tmp := TornTmp))
      || (pc.Staging? && pc' == Staged(pc.id, pc.rec, pc.seen) &&
          disk' == disk.(tmp := WholeTmp(MarkedDone(pc.seen, pc.id))))
    ensures AppendOk(disk', pc') && OutcomeOk(work, epoch, pc')
  {
  }

  lemma OpenRecordStep<R>(plan: seq<Id>, limit: nat, work: Work<R>, s: System<R>, t: nat)
    requires Inv(plan, limit, work, s) && Enabled(s, t) && s.threads[t].Ready?
    ensures Inv(plan, limit, work, OpenRecord(s, t))
  {
    var s' := OpenRecord(s, t);
    var pc := s'.threads[t];
    hide DiskOk, LockOk, HoldOk, AppendsOk, AppendOk, OutcomesOk, OutcomeOk, ExhaustedOk, SavedOk, CallsOk, UnsavedOk,
         CountOk, StopOk, LeftOk;
    HolderFacts(plan, limit, work, s, t);
    Alone(s.lock, s.threads, t);
    InsideFits(s.disk, s'.disk, work, s.epoch, s.threads[t], pc);
    LockSet(s.lock, s.threads, t, pc, s'.lock);
    HoldSame(TakenIds(s), Done(s.disk), s.threads, t, pc);
    AppendsSet(s.disk, s'.disk, s.threads, t, pc);
    OutcomesSet(work, s.epoch, s.threads, t, pc);
    SavedWrite(work, s.epoch, s.begin, s.disk.findings, s.savedIn, Done(s.disk), TakenIds(s), pc.id, s'.disk.findings[pc.id]);
    CallsSet(plan, s.epoch, TakenIds(s), s.savedIn, s.calls, s.threads, t, pc);
    UnsavedSet(plan, s.epoch, s.calls, Done(s.disk), s.unsaved, s.threads, s.stop, t, pc, s'.stop);
    StopSame(s.stop, s.exhausted, s.threads, t, pc);
    LeftSame(TakenIds(s), Done(s.disk), s.stop, s.threads, t, pc);
  }

  lemma CompleteRecordStep<R>(plan: seq<Id>, limit: nat, work: Work<R>, s: System<R>, t: nat)
    requires Inv(plan, limit, work, s) && Enabled(s, t) && s.threads[t].Writing?
    ensures Inv(plan, limit, work, CompleteRecord(s, t))
  {
    var s' := CompleteRecord(s, t);
    var pc := s'.threads[t];
    hide DiskOk, LockOk, HoldOk, AppendsOk, AppendOk, OutcomesOk, OutcomeOk, ExhaustedOk, SavedOk, CallsOk, UnsavedOk,
         CountOk, StopOk, LeftOk;
    HolderFacts(plan, limit, work, s, t);
    Alone(s.lock, s.threads, t);
    InsideFits(s.disk, s'.disk, work, s.epoch, s.threads[t], pc);
    LockSet(s.lock, s.threads, t, pc, s'.lock);
    HoldSame(TakenIds(s), Done(s.disk), s.threads, t, pc);
    AppendsSet(s.disk, s'.disk, s.threads, t, pc);
    OutcomesSet(work, s.epoch, s.threads, t, pc);
    SavedWrite(work, s.epoch, s.begin, s.disk.findings, s.savedIn, Done(s.disk), TakenIds(s), pc.id, s'.disk.findings[pc.id]);
    CallsSet(plan, s.epoch, TakenIds(s), s.savedIn, s.calls, s.threads, t, pc);
    UnsavedSet(plan, s.epoch, s.calls, Done(s.disk), s.unsaved, s.threads, s.stop, t, pc, s'.stop);
    StopSame(s.stop, s.exhausted, s.threads, t, pc);
    LeftSame(TakenIds(s), Done(s.disk), s.stop, s.threads, t, pc);
  }

  lemma OpenTmpStep<R>(plan: seq<Id>, limit: nat, work: Work<R>, s: System<R>, t: nat)
    requires Inv(plan, limit, work, s) && Enabled(s, t) && s.threads[t].Loaded?
    ensures Inv(plan, limit, work, OpenTmp(s, t))
  {
    var s' := OpenTmp(s, t);
    var pc := s'.threads[t];
    hide DiskOk, LockOk, HoldOk, AppendsOk, AppendOk, OutcomesOk, OutcomeOk, ExhaustedOk, SavedOk, CallsOk, UnsavedOk,
         CountOk, StopOk, LeftOk;
    HolderFacts(plan, limit, work, s, t);
    Alone(s.lock, s.threads, t);
    InsideFits(s.disk, s'.disk, work, s.epoch, s.threads[t], pc);
    LockSet(s.lock, s.threads, t, pc, s'.lock);
    HoldSame(TakenIds(s), Done(s.disk), s.threads, t, pc);
    AppendsSet(s.disk, s'.disk, s.threads, t, pc);
    OutcomesSet(work, s.epoch, s.threads, t, pc);
    CallsSet(plan, s.epoch, TakenIds(s), s.savedIn, s.calls, s.threads, t, pc);
    UnsavedSet(plan, s.epoch, s.calls, Done(s.disk), s.unsaved, s.threads, s.stop, t, pc, s'.stop);
    StopSame(s.stop, s.exhausted, s.threads, t, pc);
    LeftSame(TakenIds(s), Done(s.disk), s.stop, s.threads, t, pc);
  }

  lemma CompleteTmpStep<R>(plan: seq<Id>, limit: nat, work: Work<R>, s: System<R>, t: nat)
    requires Inv(plan, limit, work, s) && Enabled(s, t) && s.threads[t].Staging?
    ensures Inv(plan, limit, work, CompleteTmp(s, t))
  {
    var s' := CompleteTmp(s, t);
    var pc := s'.threads[t];
    hide DiskOk, LockOk, HoldOk, AppendsOk, AppendOk, OutcomesOk, OutcomeOk, ExhaustedOk, SavedOk, CallsOk, UnsavedOk,
         CountOk, StopOk, LeftOk;
    HolderFacts(plan, limit, work, s, t);
    Alone(s.lock, s.threads, t);
    InsideFits(s.disk, s'.disk, work, s.epoch, s.threads[t], pc);
    LockSet(s.lock, s.threads, t, pc, s'.lock);
    HoldSame(TakenIds(s), Done(s.disk), s.threads, t, pc);
    AppendsSet(s.disk, s'.disk, s.threads, t, pc);
    OutcomesSet(work, s.epoch, s.threads, t, pc);
    CallsSet(plan, s.epoch, TakenIds(s), s.savedIn, s.calls, s.threads, t, pc);
    UnsavedSet(plan, s.epoch, s.calls, Done(s.disk), s.unsaved, s.threads, s.stop, t, pc, s'.stop);
    StopSame(s.stop, s.exhausted, s.threads, t, pc);
    LeftSame(TakenIds(s), Done(s.disk), s.stop, s.threads, t, pc);
  }

  /** The rename is the only step that moves the recorded state, by exactly this thread's id. */
  lemma ReplaceFacts<R>(plan: seq<Id>, limit: nat, work: Work<R>, s: System<R>, t: nat)
    requires Inv(plan, limit, work, s) && Enabled(s, t) && s.threads[t].Staged?
    ensures s.disk.state.Some? && s.threads[t].id !in Done(s.disk)
    ensures ReplaceState(s, t).disk.state == Some(RunState(plan, Done(s.disk) + [s.threads[t].id]))
    ensures DiskOk(plan, ReplaceState(s, t).disk.state, s.begin.state)
    ensures var id := s.threads[t].id;
            && !work(s.epoch, id).Exhausted? && id in s.disk.findings
            && s.disk.findings[id] == Whole(RecordOf(id, work(s.epoch, id)))
  {
    HolderFacts(plan, limit, work, s, t);
    hide UnsavedOk, CountOk, StopOk, LeftOk, LockOk, SavedOk, CallsOk, HoldOk, AppendsOk, OutcomesOk, ExhaustedOk, QueueOk;
    DiskMark(plan, s.disk.state, s.begin.state, s.threads[t].id);
  }

  lemma DiskMark(plan: seq<Id>, state: Option<RunState>, before: Option<RunState>, id: Id)
    requires DiskOk(plan, state, before) && id in plan && id !in state.value.done
    ensures DiskOk(plan, Some(RunState(plan, state.value.done + [id])), before)
    ensures MarkedDone(state.value, id) == RunState(plan, state.value.done + [id])
  {
  }

  lemma ReplacedFits<R>(disk: Disk<R>, work: Work<R>, epoch: nat, id: Id)
    ensures AppendOk(disk, Replaced(id)) && OutcomeOk(work, epoch, Replaced(id))
  {
  }

  lemma ReplaceStep<R>(plan: seq<Id>, limit: nat, work: Work<R>, s: System<R>, t: nat)
    requires Inv(plan, limit, work, s) && Enabled(s, t) && s.threads[t].Staged?
    ensures Inv(plan, limit, work, ReplaceState(s, t))
  {
    var s' := ReplaceState(s, t);
    var pc := s'.threads[t];
    hide DiskOk, LockOk, HoldOk, AppendsOk, AppendOk, OutcomesOk, OutcomeOk, ExhaustedOk, SavedOk, CallsOk, UnsavedOk,
         CountOk, StopOk, LeftOk;
    var id := s.threads[t].id;
    HolderFacts(plan, limit, work, s, t);
    ReplaceFacts(plan, limit, work, s, t);
    ReplacedFits(s'.disk, work, s.epoch, id);
    Alone(s.lock, s.threads, t);
    LockSet(s.lock, s.threads, t, pc, s.lock);
    HoldReplace(TakenIds(s), Done(s.disk), s.threads, t, id);
    AppendsSet(s.disk, s'.disk, s.threads, t, pc);
    OutcomesSet(work, s.epoch, s.threads, t, pc);
    SavedMark(work, s.epoch, s.begin, s.disk.findings, s.savedIn, Done(s.disk), TakenIds(s), id);
    CallsMark(plan, s.epoch, TakenIds(s), s.savedIn, s.calls, s.threads, t, id);
    UnsavedMark(plan, s.epoch, s.calls, Done(s.disk), s.unsaved, s.threads, s.stop, t, id);
    CountMore(limit, |s.calls|, |Done(s.disk)|, s.waste, |s.unsaved|, s.interruptions);
    StopSame(s.stop, s.exhausted, s.threads, t, pc);
    LeftMark(TakenIds(s), Done(s.disk), s.stop, s.threads, t, id);
  }

  lemma LeftMark<R>(taken: seq<Id>, done: seq<Id>, stop: bool, threads: seq<Pc<R>>, t: nat, id: Id)
    requires LeftOk(taken, done, stop, threads) && t < |threads| && threads[t].Staged? && threads[t].id == id
    ensures LeftOk(taken, done + [id], stop, threads[t := Replaced(id)])
  {
    LeftSame(taken, done, stop, threads, t, Replaced(id));
  }

  lemma ReleaseStep<R>(plan: seq<Id>, limit: nat, work: Work<R>, s: System<R>, t: nat)
    requires Inv(plan, limit, work, s) && Enabled(s, t) && s.threads[t].Replaced?
    ensures Inv(plan, limit, work, Release(s, t))
  {
    var s' := Release(s, t);
    var pc := s'.threads[t];
    hide DiskOk, LockOk, HoldOk, AppendsOk, AppendOk, OutcomesOk, OutcomeOk, ExhaustedOk, SavedOk, CallsOk, UnsavedOk,
         CountOk, StopOk, LeftOk;
    HolderFacts(plan, limit, work, s, t);
    OutsideFits(s.disk, work, s.epoch, pc);
    LockSet(s.lock, s.threads, t, pc, s'.lock);
    HoldSame(TakenIds(s), Done(s.disk), s.threads, t, pc);
    AppendsSet(s.disk, s'.disk, s.threads, t, pc);
    OutcomesSet(work, s.epoch, s.threads, t, pc);
    CallsSet(plan, s.epoch, TakenIds(s), s.savedIn, s.calls, s.threads, t, pc);
    UnsavedSet(plan, s.epoch, s.calls, Done(s.disk), s.unsaved, s.threads, s.stop, t, pc, s'.stop);
    StopSame(s.stop, s.exhausted, s.threads, t, pc);
    LeftSame(TakenIds(s), Done(s.disk), s.stop, s.threads, t, pc);
  }

  lemma EveryThreadStep<R>(plan: seq<Id>, limit: nat, work: Work<R>, s: System<R>, t: nat)
    requires Inv(plan, limit, work, s) && Enabled(s, t)
    ensures Inv(plan, limit, work, ThreadStep(work, s, t))
  {
    hide Inv, TakeNext, StartWork, MoveTo, SignalStop, NoteExhausted, OpenRecord, CompleteRecord, OpenTmp, CompleteTmp,
         ReplaceState, Release;
    match s.threads[t]
    case Idle => TakeStep(plan, limit, work, s, t);
    case Taken(_) => if s.stop { QuietStep(plan, limit, work, s, t); } else { StartStep(plan, limit, work, s, t); }
    case Working(_) => QuietStep(plan, limit, work, s, t);
    case Exhausting(_) => SignalStep(plan, limit, work, s, t);
    case Stopped(_) => NoteStep(plan, limit, work, s, t);
    case Ready(_, _) => OpenRecordStep(plan, limit, work, s, t);
    case Writing(_, _) => CompleteRecordStep(plan, limit, work, s, t);
    case Written(_, _) => QuietStep(plan, limit, work, s, t);
    case Loaded(_, _, _) => OpenTmpStep(plan, limit, work, s, t);
    case Staging(_, _, _) => CompleteTmpStep(plan, limit, work, s, t);
    case Staged(_, _, _) => ReplaceStep(plan, limit, work, s, t);
    case Replaced(_) => ReleaseStep(plan, limit, work, s, t);
  }

  // ---------------------------------------------------------------- crash and resume

  lemma {:induction false} KeysBelow(m: map<nat, Id>, n: nat)
    requires forall t :: t in m ==> t < n
    ensures |m| <= n
  {
    if n == 0 {
      assert m.Keys == {};
    } else if n - 1 in m {
      KeysBelow(m - {n - 1}, n - 1);
      assert (m - {n - 1}).Keys == m.Keys - {n - 1};
    } else {
      KeysBelow(m, n - 1);
    }
  }

  /** A pool that drained without exhaustion has no unsaved call. */
  lemma CleanHasNoUnsaved<R>(plan: seq<Id>, limit: nat, work: Work<R>, s: System<R>)
    requires Inv(plan, limit, work, s) && FinishedClean(s)
    ensures s.unsaved == map[] && !s.stop
  {
    hide DiskOk, QueueOk, LockOk, HoldOk, AppendsOk, OutcomesOk, ExhaustedOk, SavedOk, CallsOk, CountOk, LeftOk;
  }

  lemma RestartStep<R>(plan: seq<Id>, limit: nat, work: Work<R>, s: System<R>, n: nat)
    requires Inv(plan, limit, work, s) && 1 <= n <= limit
    ensures s.disk.state.Some? && Inv(plan, limit, work, Restart(plan, s, n))
  {
    hide DiskOk, LockOk, HoldOk, AppendsOk, AppendOk, OutcomesOk, OutcomeOk, ExhaustedOk, SavedOk, CallsOk, UnsavedOk,
         CountOk, StopOk, LeftOk;
    RestartCount(plan, limit, work, s, n);
    var s' := Restart(plan, s, n);
    RestartQueue(plan, s.disk, s.begin, s', n, limit);
    RestartHistory(plan, limit, work, s, n);
    IdleThreads(plan, work, s.epoch + 1, s.disk, s.calls, s'.threads);
  }

  lemma IdleThreads<R>(plan: seq<Id>, work: Work<R>, epoch: nat, disk: Disk<R>, calls: seq<(nat, Id)>, threads: seq<Pc<R>>)
    requires forall t :: 0 <= t < |threads| ==> threads[t].Idle?
    ensures LockOk(None, threads) && HoldOk([], Done(disk), threads) && AppendsOk(disk, threads)
    ensures OutcomesOk(work, epoch, threads) && ExhaustedOk(work, epoch, [], [])
    ensures UnsavedOk(plan, epoch, calls, Done(disk), map[], threads, false)
    ensures StopOk(false, [], threads) && LeftOk([], Done(disk), false, threads)
  {
  }

  lemma RestartQueue<R>(plan: seq<Id>, disk: Disk<R>, before: Disk<R>, s': System<R>, n: nat, limit: nat)
    requires DiskOk(plan, disk.state, before.state) && 1 <= n <= limit
    requires s'.todo == Within(plan, ToSet(Pending(disk.state.value))) && s'.next == 0
    ensures QueueOk(plan, limit, Done(disk), s'.todo, 0, n) && DiskOk(plan, disk.state, disk.state)
    ensures TakenIds(s') == []
  {
    WithinWithout(plan, ToSet(Done(disk)));
    WithoutMembers(plan, ToSet(Done(disk)));
  }

  lemma RestartHistory<R>(plan: seq<Id>, limit: nat, work: Work<R>, s: System<R>, n: nat)
    requires Inv(plan, limit, work, s)
    ensures SavedOk(work, s.epoch + 1, s.disk, s.disk.findings, s.savedIn, Done(s.disk), [])
    ensures CallsOk(plan, s.epoch + 1, [], s.savedIn, s.calls, seq(n, _ => Pc<R>.Idle))
  {
    hide DiskOk, QueueOk, LockOk, HoldOk, AppendsOk, OutcomesOk, ExhaustedOk, UnsavedOk, CountOk, StopOk, LeftOk;
  }

  lemma RestartCount<R>(plan: seq<Id>, limit: nat, work: Work<R>, s: System<R>, n: nat)
    requires Inv(plan, limit, work, s) && 1 <= n <= limit
    ensures s.disk.state.Some?
    ensures var s' := Restart(plan, s, n);
            CountOk(limit, |s'.calls|, |Done(s'.disk)|, s'.waste, |s'.unsaved|, s'.interruptions)
  {
    hide LockOk, HoldOk, AppendsOk, OutcomesOk, ExhaustedOk, SavedOk, CallsOk, UnsavedOk, StopOk, LeftOk, QueueOk, CountOk,
         FinishedClean;
    UnsavedBound(plan, limit, work, s);
    if FinishedClean(s) {
      CleanHasNoUnsaved(plan, limit, work, s);
    }
    CountRestart(limit, |s.calls|, |Done(s.disk)|, s.waste, |s.unsaved|, s.interruptions);
  }

  lemma CountRestart(limit: nat, calls: nat, done: nat, waste: nat, unsaved: nat, interruptions: nat)
    requires CountOk(limit, calls, done, waste, unsaved, interruptions) && unsaved <= limit
    ensures CountOk(limit, calls, done, waste + unsaved, 0, interruptions + 1)
    ensures unsaved == 0 ==> CountOk(limit, calls, done, waste + unsaved, 0, interruptions)
  {
    assert limit * (interruptions + 1) == limit * interruptions + limit;
  }

  /** Each thread has at most one call that is not saved. */
  lemma UnsavedBound<R>(plan: seq<Id>, limit: nat, work: Work<R>, s: System<R>)
    requires Inv(plan, limit, work, s)
    ensures |s.unsaved| <= |s.threads| <= limit
  {
    hide DiskOk, LockOk, HoldOk, AppendsOk, OutcomesOk, ExhaustedOk, SavedOk, CallsOk, CountOk, StopOk, LeftOk;
    KeysBelow(s.unsaved, |s.threads|);
  }

  lemma InitialHolds<R>(plan: seq<Id>, limit: nat, work: Work<R>, s: System<R>)
    requires Distinct(plan) && Initial(plan, limit, s)
    ensures Inv(plan, limit, work, s)
  {
    assert ToSet(s.disk.state.value.done) == {};
    WithinWithout(plan, {});
    WithoutMembers(plan, {});
    assert TakenIds(s) == [];
  }

  /** Every state of every run satisfies the invariant. */
  lemma {:induction false} RunKeepsInvariant<R>(plan: seq<Id>, limit: nat, work: Work<R>, run: seq<System<R>>, i: nat)
    requires Distinct(plan) && IsRun(plan, limit, work, run) && i < |run|
    ensures Inv(plan, limit, work, run[i])
  {
    hide Inv, ThreadStep, Enabled, Initial, Restart;
    if i == 0 {
      InitialHolds(plan, limit, work, run[0]);
    } else {
      RunKeepsInvariant(plan, limit, work, run, i - 1);
      var s, s' := run[i - 1], run[i];
      assert Step(plan, limit, work, s, s');
      if t: nat :| Enabled(s, t) && s' == ThreadStep(work, s, t) {
        EveryThreadStep(plan, limit, work, s, t);
      } else {
        var n: nat :| 1 <= n <= limit && s' == Restart(plan, s, n);
        RestartStep(plan, limit, work, s, n);
      }
    }
  }
}

/** What every step of the pool keeps: any interleaving, any crash, any resume.
    Each part of the invariant names only the state it speaks of, so that a step that
    leaves that state alone keeps it for free. */
module PoolInvariant {
  import opened Lists
  import opened Checkpoint
  import opened PoolMachine

  function Done<R>(d: Disk<R>): seq<Id> {
    if d.state.Some? then d.state.value.done else []
  }

  /** The ids already taken from this session's queue. */
  function TakenIds<R>(s: System<R>): seq<Id> {
    if s.next <= |s.todo| then s.todo[..s.next] else []
  }

  ghost predicate Holds<R>(threads: seq<Pc<R>>, id: Id) {
    exists t :: 0 <= t < |threads| && !threads[t].Idle? && threads[t].id == id
  }

  ghost predicate DiskOk(plan: seq<Id>, state: Option<RunState>, before: Option<RunState>) {
    && Distinct(plan)
    && state.Some? && state.value.planned == plan
    && before.Some? && before.value.planned == plan
    && Distinct(state.value.done) && (forall id :: id in state.value.done ==> id in plan)
    && before.value.done <= state.value.done
  }

  ghost predicate QueueOk(plan: seq<Id>, limit: nat, before: seq<Id>, todo: seq<Id>, next: nat, n: nat) {
    && todo == Without(plan, ToSet(before))
    && Distinct(todo)
    && (forall id :: id in todo <==> id in plan && id !in before)
    && next <= |todo|
    && 1 <= n <= limit
  }

  ghost predicate LockOk<R>(lock: Option<nat>, threads: seq<Pc<R>>) {
    && (lock.Some? ==> lock.value < |threads|)
    && forall t :: 0 <= t < |threads| ==> (Critical(threads[t]) <==> lock == Some(t))
  }

  ghost predicate HoldOk<R>(taken: seq<Id>, done: seq<Id>, threads: seq<Pc<R>>) {
    && (forall t :: 0 <= t < |threads| && !threads[t].Idle? ==>
          threads[t].id in taken && (threads[t].Replaced? <==> threads[t].id in done))
    && (forall t, u :: 0 <= t < u < |threads| && !threads[t].Idle? && !threads[u].Idle? ==>
          threads[t].id != threads[u].id)
  }

  /** No update is lost: the lock holder's copy of the state is the state. */
  ghost predicate AppendOk<R>(disk: Disk<R>, pc: Pc<R>) {
    && (pc.Loaded? || pc.Staging? || pc.Staged? ==> disk.state == Some(pc.seen))
    && (pc.Staged? ==> disk.tmp == WholeTmp(MarkedDone(pc.seen, pc.id)))
    && (pc.Written? || pc.Loaded? || pc.Staging? || pc.Staged? ==>
          pc.id in disk.findings && disk.findings[pc.id] == Whole(pc.rec))
  }

  ghost predicate AppendsOk<R>(disk: Disk<R>, threads: seq<Pc<R>>) {
    forall t :: 0 <= t < |threads| ==> AppendOk(disk, threads[t])
  }

  ghost predicate OutcomeOk<R>(work: Work<R>, epoch: nat, pc: Pc<R>) {
    && (pc.Ready? || pc.Writing? || pc.Written? || pc.Loaded? || pc.Staging? || pc.Staged? ==>
          !work(epoch, pc.id).Exhausted? && pc.rec == RecordOf(pc.id, work(epoch, pc.id)))
    && (pc.Exhausting? || pc.Stopped? ==> work(epoch, pc.id).Exhausted?)
  }

  ghost predicate OutcomesOk<R>(work: Work<R>, epoch: nat, threads: seq<Pc<R>>) {
    forall t :: 0 <= t < |threads| ==> OutcomeOk(work, epoch, threads[t])
  }

  ghost predicate ExhaustedOk<R>(work: Work<R>, epoch: nat, taken: seq<Id>, exhausted: seq<Id>) {
    forall id :: id in exhausted ==> id in taken && work(epoch, id).Exhausted?
  }

  ghost predicate SavedOk<R>(work: Work<R>, epoch: nat, before: Disk<R>, findings: map<Id, File<R>>,
                             savedIn: map<Id, nat>, done: seq<Id>, taken: seq<Id>) {
    && (forall id :: id in savedIn <==> id in done)
    && (forall id :: id in done ==>
          && savedIn[id] <= epoch
          && (savedIn[id] < epoch <==> id in Done(before))
          && (savedIn[id] == epoch ==> id in taken)
          && !work(savedIn[id], id).Exhausted?
          && id in findings
          && findings[id] == Whole(RecordOf(id, work(savedIn[id], id))))
    && (forall id :: id in Done(before) ==> id in done && id in before.findings && before.findings[id] == findings[id])
  }

  ghost predicate CallsOk<R>(plan: seq<Id>, epoch: nat, taken: seq<Id>, savedIn: map<Id, nat>, calls: seq<(nat, Id)>,
                             threads: seq<Pc<R>>) {
    && Distinct(calls)
    && (forall c :: c in calls ==>
          && c.0 <= epoch && c.1 in plan
          && (c.0 == epoch ==> c.1 in taken)
          && (c.1 in savedIn ==> c.0 <= savedIn[c.1]))
    && (forall t :: 0 <= t < |threads| && threads[t].Taken? ==> (epoch, threads[t].id) !in calls)
  }

  /** A thread has at most one call whose record is not saved, and after an exhausted one
      it starts no other. */
  ghost predicate UnsavedOk<R>(plan: seq<Id>, epoch: nat, calls: seq<(nat, Id)>, done: seq<Id>,
                               unsaved: map<nat, Id>, threads: seq<Pc<R>>, stop: bool) {
    && (forall t :: t in unsaved ==>
          && t < |threads|
          && (epoch, unsaved[t]) in calls
          && unsaved[t] in plan && unsaved[t] !in done
          && (InFlight(threads[t]) || threads[t].Exhausting? || stop))
    && (forall t :: 0 <= t < |threads| && InFlight(threads[t]) ==> t in unsaved && unsaved[t] == threads[t].id)
    && (forall t, u :: t in unsaved && u in unsaved && t != u ==> unsaved[t] != unsaved[u])
  }

  ghost predicate CountOk(limit: nat, calls: nat, done: nat, waste: nat, unsaved: nat, interruptions: nat) {
    calls == done + waste + unsaved && waste <= limit * interruptions
  }

  ghost predicate StopOk<R>(stop: bool, exhausted: seq<Id>, threads: seq<Pc<R>>) {
    && (stop <==> exhausted != [] || exists t :: 0 <= t < |threads| && threads[t].Stopped?)
  }

  ghost predicate LeftOk<R>(taken: seq<Id>, done: seq<Id>, stop: bool, threads: seq<Pc<R>>) {
    stop || forall id :: id in taken ==> id in done || Holds(threads, id)
  }

  ghost predicate Inv<R>(plan: seq<Id>, limit: nat, work: Work<R>, s: System<R>) {
    && DiskOk(plan, s.disk.state, s.begin.state)
    && QueueOk(plan, limit, Done(s.begin), s.todo, s.next, |s.threads|)
    && LockOk(s.lock, s.threads)
    && HoldOk(TakenIds(s), Done(s.disk), s.threads)
    && AppendsOk(s.disk, s.threads)
    && OutcomesOk(work, s.epoch, s.threads)
    && ExhaustedOk(work, s.epoch, TakenIds(s), s.exhausted)
    && SavedOk(work, s.epoch, s.begin, s.disk.findings, s.savedIn, Done(s.disk), TakenIds(s))
    && CallsOk(plan, s.epoch, TakenIds(s), s.savedIn, s.calls, s.threads)
    && UnsavedOk(plan, s.epoch, s.calls, Done(s.disk), s.unsaved, s.threads, s.stop)
    && CountOk(limit, |s.calls|, |Done(s.disk)|, s.waste, |s.unsaved|, s.interruptions)
    && StopOk(s.stop, s.exhausted, s.threads)
    && LeftOk(TakenIds(s), Done(s.disk), s.stop, s.threads)
  }

  // -------------------------------- one part of the invariant, one change at a time

  lemma LockSet<R>(lock: Option<nat>, threads: seq<Pc<R>>, t: nat, pc: Pc<R>, lock': Option<nat>)
    requires LockOk(lock, threads) && t < |threads|
    requires
      || (lock' == lock && (Critical(pc) <==> Critical(threads[t])))
      || (lock.None? && lock' == Some(t) && Critical(pc))
      || (Critical(threads[t]) && lock'.None? && !Critical(pc))
    ensures LockOk(lock', threads[t := pc])
  {
  }

  /** Whoever is about to write, or writes, is alone. */
  lemma Alone<R>(lock: Option<nat>, threads: seq<Pc<R>>, t: nat)
    requires LockOk(lock, threads) && t < |threads|
    requires lock.None? || Critical(threads[t])
    ensures forall u :: 0 <= u < |threads| && u != t ==> !Critical(threads[u])
  {
  }

  lemma HoldSame<R>(taken: seq<Id>, done: seq<Id>, threads: seq<Pc<R>>, t: nat, pc: Pc<R>)
    requires HoldOk(taken, done, threads) && t < |threads| && !threads[t].Idle?
    requires pc.Idle? || (pc.id == threads[t].id && (pc.Replaced? <==> threads[t].Replaced?))
    ensures HoldOk(taken, done, threads[t := pc])
  {
  }

  lemma HoldTake<R>(taken: seq<Id>, done: seq<Id>, threads: seq<Pc<R>>, t: nat, id: Id)
    requires HoldOk(taken, done, threads) && t < |threads| && threads[t].Idle? && id !in taken && id !in done
    ensures HoldOk(taken + [id], done, threads[t := Pc.Taken(id)])
  {
  }

  lemma HoldReplace<R>(taken: seq<Id>, done: seq<Id>, threads: seq<Pc<R>>, t: nat, id: Id)
    requires HoldOk(taken, done, threads) && t < |threads| && threads[t].Staged? && threads[t].id == id
    ensures HoldOk(taken, done + [id], threads[t := Replaced(id)])
  {
  }

  lemma AppendsSet<R>(disk: Disk<R>, disk': Disk<R>, threads: seq<Pc<R>>, t: nat, pc: Pc<R>)
    requires AppendsOk(disk, threads) && t < |threads| && AppendOk(disk', pc)
    requires disk' == disk || forall u :: 0 <= u < |threads| && u != t ==> !Critical(threads[u])
    ensures AppendsOk(disk', threads[t := pc])
  {
    var threads' := threads[t := pc];
    forall u | 0 <= u < |threads'| ensures AppendOk(disk', threads'[u]) {
      assert AppendOk(disk, threads[u]);
    }
  }

  lemma OutcomesSet<R>(work: Work<R>, epoch: nat, threads: seq<Pc<R>>, t: nat, pc: Pc<R>)
    requires OutcomesOk(work, epoch, threads) && t < |threads| && OutcomeOk(work, epoch, pc)
    ensures OutcomesOk(work, epoch, threads[t := pc])
  {
  }

  lemma SavedTake<R>(work: Work<R>, epoch: nat, before: Disk<R>, findings: map<Id, File<R>>,
                     savedIn: map<Id, nat>, done: seq<Id>, taken: seq<Id>, id: Id)
    requires SavedOk(work, epoch, before, findings, savedIn, done, taken)
    ensures SavedOk(work, epoch, before, findings, savedIn, done, taken + [id])
  {
  }

  lemma SavedWrite<R>(work: Work<R>, epoch: nat, before: Disk<R>, findings: map<Id, File<R>>,
                      savedIn: map<Id, nat>, done: seq<Id>, taken: seq<Id>, id: Id, file: File<R>)
    requires SavedOk(work, epoch, before, findings, savedIn, done, taken) && id !in done
    ensures SavedOk(work, epoch, before, findings[id := file], savedIn, done, taken)
  {
  }

  lemma SavedMark<R>(work: Work<R>, epoch: nat, before: Disk<R>, findings: map<Id, File<R>>,
                     savedIn: map<Id, nat>, done: seq<Id>, taken: seq<Id>, id: Id)
    requires SavedOk(work, epoch, before, findings, savedIn, done, taken) && id !in done && id in taken
    requires !work(epoch, id).Exhausted? && id in findings && findings[id] == Whole(RecordOf(id, work(epoch, id)))
    ensures SavedOk(work, epoch, before, findings, savedIn[id := epoch], done + [id], taken)
  {
    assert id !in Done(before);
  }

  lemma CallsTake<R>(plan: seq<Id>, epoch: nat, taken: seq<Id>, savedIn: map<Id, nat>, calls: seq<(nat, Id)>,
                     threads: seq<Pc<R>>, t: nat, id: Id)
    requires CallsOk(plan, epoch, taken, savedIn, calls, threads) && t < |threads| && id !in taken
    ensures CallsOk(plan, epoch, taken + [id], savedIn, calls, threads[t := Pc.Taken(id)])
  {
  }

  lemma CallsStart<R>(plan: seq<Id>, epoch: nat, taken: seq<Id>, savedIn: map<Id, nat>, calls: seq<(nat, Id)>,
                      threads: seq<Pc<R>>, t: nat, id: Id)
    requires CallsOk(plan, epoch, taken, savedIn, calls, threads) && t < |threads| && threads[t] == Pc.Taken(id)
    requires id in taken && id in plan && id !in savedIn
    requires forall u :: 0 <= u < |threads| && u != t && threads[u].Taken? ==> threads[u].id != id
    ensures CallsOk(plan, epoch, taken, savedIn, calls + [(epoch, id)], threads[t := Working(id)])
  {
  }

  lemma CallsSet<R>(plan: seq<Id>, epoch: nat, taken: seq<Id>, savedIn: map<Id, nat>, calls: seq<(nat, Id)>,
                    threads: seq<Pc<R>>, t: nat, pc: Pc<R>)
    requires CallsOk(plan, epoch, taken, savedIn, calls, threads) && t < |threads| && !pc.Taken?
    ensures CallsOk(plan, epoch, taken, savedIn, calls, threads[t := pc])
  {
  }

  lemma CallsMark<R>(plan: seq<Id>, epoch: nat, taken: seq<Id>, savedIn: map<Id, nat>, calls: seq<(nat, Id)>,
                     threads: seq<Pc<R>>, t: nat, id: Id)
    requires CallsOk(plan, epoch, taken, savedIn, calls, threads) && t < |threads|
    ensures CallsOk(plan, epoch, taken, savedIn[id := epoch], calls, threads[t := Replaced(id)])
  {
  }

  lemma UnsavedSet<R>(plan: seq<Id>, epoch: nat, calls: seq<(nat, Id)>, done: seq<Id>, unsaved: map<nat, Id>,
                      threads: seq<Pc<R>>, stop: bool, t: nat, pc: Pc<R>, stop': bool)
    requires UnsavedOk(plan, epoch, calls, done, unsaved, threads, stop) && t < |threads|
    requires InFlight(pc) ==> InFlight(threads[t]) && pc.id == threads[t].id
    requires stop ==> stop'
    requires stop' || InFlight(pc) || pc.Exhausting? || (!InFlight(threads[t]) && !threads[t].Exhausting?)
    ensures UnsavedOk(plan, epoch, calls, done, unsaved, threads[t := pc], stop')
  {
  }

  lemma UnsavedStart<R>(plan: seq<Id>, epoch: nat, calls: seq<(nat, Id)>, done: seq<Id>, unsaved: map<nat, Id>,
                        threads: seq<Pc<R>>, t: nat, id: Id)
    requires UnsavedOk(plan, epoch, calls, done, unsaved, threads, false) && t < |threads| && threads[t] == Pc.Taken(id)
    requires (epoch, id) !in calls && id in plan && id !in done
    ensures t !in unsaved
    ensures UnsavedOk(plan, epoch, calls + [(epoch, id)], done, unsaved[t := id], threads[t := Working(id)], false)
  {
  }

  lemma UnsavedMark<R>(plan: seq<Id>, epoch: nat, calls: seq<(nat, Id)>, done: seq<Id>, unsaved: map<nat, Id>,
                       threads: seq<Pc<R>>, stop: bool, t: nat, id: Id)
    requires UnsavedOk(plan, epoch, calls, done, unsaved, threads, stop) && t < |threads|
    requires threads[t].Staged? && threads[t].id == id
    ensures t in unsaved && unsaved[t] == id && |unsaved - {t}| == |unsaved| - 1
    ensures UnsavedOk(plan, epoch, calls, done + [id], unsaved - {t}, threads[t := Replaced(id)], stop)
  {
    assert InFlight(threads[t]);
    RemoveKey(unsaved, t);
  }

  lemma RemoveKey(m: map<nat, Id>, t: nat)
    requires t in m
    ensures |m - {t}| == |m| - 1
  {
    assert (m - {t}).Keys == m.Keys - {t};
  }

  lemma StopSame<R>(stop: bool, exhausted: seq<Id>, threads: seq<Pc<R>>, t: nat, pc: Pc<R>)
    requires StopOk(stop, exhausted, threads) && t < |threads| && !threads[t].Stopped? && !pc.Stopped?
    ensures StopOk(stop, exhausted, threads[t := pc])
  {
    forall u | 0 <= u < |threads| && threads[u].Stopped? ensures threads[t := pc][u].Stopped? {}
    forall u | 0 <= u < |threads| && threads[t := pc][u].Stopped? ensures threads[u].Stopped? {}
  }

  lemma ExhaustedTake<R>(work: Work<R>, epoch: nat, taken: seq<Id>, exhausted: seq<Id>, id: Id)
    requires ExhaustedOk(work, epoch, taken, exhausted)
    ensures ExhaustedOk(work, epoch, taken + [id], exhausted)
  {
  }

  lemma ExhaustedNote<R>(work: Work<R>, epoch: nat, taken: seq<Id>, exhausted: seq<Id>, pc: Pc<R>)
    requires ExhaustedOk(work, epoch, taken, exhausted) && pc.Stopped? && OutcomeOk(work, epoch, pc) && pc.id in taken
    ensures ExhaustedOk(work, epoch, taken, exhausted + [pc.id])
  {
  }

  lemma StopNote<R>(stop: bool, exhausted: seq<Id>, threads: seq<Pc<R>>, t: nat)
    requires StopOk(stop, exhausted, threads) && t < |threads| && threads[t].Stopped?
    ensures stop && StopOk(stop, exhausted + [threads[t].id], threads[t := Idle])
  {
  }

  lemma StopSignal<R>(exhausted: seq<Id>, threads: seq<Pc<R>>, t: nat, id: Id)
    requires t < |threads|
    ensures StopOk(true, exhausted, threads[t := Stopped(id)])
  {
    assert threads[t := Stopped(id)][t].Stopped?;
  }

  lemma LeftSame<R>(taken: seq<Id>, done: seq<Id>, stop: bool, threads: seq<Pc<R>>, t: nat, pc: Pc<R>)
    requires LeftOk(taken, done, stop, threads) && t < |threads| && !threads[t].Idle?
    requires stop || threads[t].id in done || (!pc.Idle? && pc.id == threads[t].id)
    ensures LeftOk(taken, done, stop, threads[t := pc])
  {
    forall x | Holds(threads, x) && x !in done && !stop ensures Holds(threads[t := pc], x) {
      var u :| 0 <= u < |threads| && !threads[u].Idle? && threads[u].id == x;
      assert !threads[t := pc][u].Idle? && threads[t := pc][u].id == x;
    }
  }

  lemma LeftTake<R>(taken: seq<Id>, done: seq<Id>, stop: bool, threads: seq<Pc<R>>, t: nat, id: Id)
    requires LeftOk(taken, done, stop, threads) && t < |threads| && threads[t].Idle?
    ensures LeftOk(taken + [id], done, stop, threads[t := Pc.Taken(id)])
  {
    var threads' := threads[t := Pc.Taken(id)];
    assert threads'[t].id == id;
    forall x | Holds(threads, x) ensures Holds(threads', x) {
      var u :| 0 <= u < |threads| && !threads[u].Idle? && threads[u].id == x;
      assert threads'[u].id == x;
    }
  }
}

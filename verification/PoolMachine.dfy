/** `run_stage` on a thread pool, one shared-memory action at a time.

    A thread takes the next id from the executor's queue, looks at the stop event, calls
    `work`, and then either signals exhaustion or takes the lock and runs the steps of
    `append_record`: the record file is opened (and so truncated), completed, the state is
    loaded, the temporary state file is opened, completed and renamed over the state, and
    the lock is released. A crash may come between any two steps; a resume starts a new
    session from what the disk holds. `work(e, id)` is the outcome of the call that session
    `e` makes for `id`: one function per session, so outcomes may differ between sessions. */
module PoolMachine {
  import opened Lists
  import opened Checkpoint

  datatype Pc<+R> =
    | Idle
    | Taken(id: Id)
    | Working(id: Id)
    | Exhausting(id: Id)
    | Stopped(id: Id)
    | Ready(id: Id, rec: Record<R>)
    | Writing(id: Id, rec: Record<R>)
    | Written(id: Id, rec: Record<R>)
    | Loaded(id: Id, rec: Record<R>, seen: RunState)
    | Staging(id: Id, rec: Record<R>, seen: RunState)
    | Staged(id: Id, rec: Record<R>, seen: RunState)
    | Replaced(id: Id)

  datatype System<+R> = System(
    // survives a crash
    disk: Disk<R>,
    // one session's memory
    todo: seq<Id>, next: nat, threads: seq<Pc<R>>, lock: Option<nat>, stop: bool, exhausted: seq<Id>,
    // history, read by no step
    epoch: nat, interruptions: nat, calls: seq<(nat, Id)>, begin: Disk<R>,
    savedIn: map<Id, nat>, unsaved: map<nat, Id>, waste: nat)

  type Work<R> = (nat, Id) -> Outcome<R>

  predicate Critical<R>(pc: Pc<R>) {
    pc.Writing? || pc.Written? || pc.Loaded? || pc.Staging? || pc.Staged? || pc.Replaced?
  }

  /** A call of `work` was started whose record is not yet in the state file. */
  predicate InFlight<R>(pc: Pc<R>) {
    pc.Working? || pc.Ready? || (Critical(pc) && !pc.Replaced?)
  }

  ghost predicate Enabled<R>(s: System<R>, t: nat) {
    && t < |s.threads|
    && (s.threads[t].Idle? ==> s.next < |s.todo|)
    && (s.threads[t].Ready? || s.threads[t].Stopped? ==> s.lock.None?)
    && (s.threads[t].Written? || s.threads[t].Staged? ==> s.disk.state.Some?)
  }

  /** The executor hands thread `t` the next queued id. */
  ghost function TakeNext<R>(s: System<R>, t: nat): System<R>
    requires Enabled(s, t) && s.threads[t].Idle?
  {
    s.(threads := s.threads[t := Taken(s.todo[s.next])], next := s.next + 1)
  }

  /** The stop event is not set: `work` is called. */
  ghost function StartWork<R>(s: System<R>, t: nat): System<R>
    requires Enabled(s, t) && s.threads[t].Taken?
  {
    var id := s.threads[t].id;
    s.(threads := s.threads[t := Working(id)],
       calls := s.calls + [(s.epoch, id)],
       unsaved := s.unsaved[t := id])
  }

  /** Steps that leave everything but this thread's place alone. */
  ghost function MoveTo<R>(s: System<R>, t: nat, pc: Pc<R>): System<R>
    requires Enabled(s, t)
  {
    s.(threads := s.threads[t := pc])
  }

  ghost function AfterWork<R>(work: Work<R>, s: System<R>, id: Id): Pc<R> {
    var o := work(s.epoch, id);
    if o.Exhausted? then Exhausting(id) else Ready(id, RecordOf(id, o))
  }

  /** `stop.set()` */
  ghost function SignalStop<R>(s: System<R>, t: nat): System<R>
    requires Enabled(s, t) && s.threads[t].Exhausting?
  {
    s.(threads := s.threads[t := Stopped(s.threads[t].id)], stop := true)
  }

  /** `with lock: exhausted.append(exc)` */
  ghost function NoteExhausted<R>(s: System<R>, t: nat): System<R>
    requires Enabled(s, t) && s.threads[t].Stopped?
  {
    s.(threads := s.threads[t := Idle], exhausted := s.exhausted + [s.threads[t].id])
  }

  /** Takes the lock and opens, so truncates, the record file. */
  ghost function OpenRecord<R>(s: System<R>, t: nat): System<R>
    requires Enabled(s, t) && s.threads[t].Ready?
  {
    var pc := s.threads[t];
    s.(threads := s.threads[t := Writing(pc.id, pc.rec)], lock := Some(t),
       disk := s.disk.(findings := s.disk.findings[pc.id := Torn]))
  }

  ghost function CompleteRecord<R>(s: System<R>, t: nat): System<R>
    requires Enabled(s, t) && s.threads[t].Writing?
  {
    var pc := s.threads[t];
    s.(threads := s.threads[t := Written(pc.id, pc.rec)],
       disk := s.disk.(findings := s.disk.findings[pc.id := Whole(pc.rec)]))
  }

  ghost function OpenTmp<R>(s: System<R>, t: nat): System<R>
    requires Enabled(s, t) && s.threads[t].Loaded?
  {
    var pc := s.threads[t];
    s.(threads := s.threads[t := Staging(pc.id, pc.rec, pc.seen)], disk := s.disk.(tmp := TornTmp))
  }

  ghost function CompleteTmp<R>(s: System<R>, t: nat): System<R>
    requires Enabled(s, t) && s.threads[t].Staging?
  {
    var pc := s.threads[t];
    s.(threads := s.threads[t := Staged(pc.id, pc.rec, pc.seen)],
       disk := s.disk.(tmp := WholeTmp(MarkedDone(pc.seen, pc.id))))
  }

  /** `tmp.replace(...)`: the temporary file becomes the state, and with it what it holds; a torn
      one would leave no state that loads. */
  ghost function ReplaceState<R>(s: System<R>, t: nat): System<R>
    requires Enabled(s, t) && s.threads[t].Staged?
  {
    var id := s.threads[t].id;
    s.(threads := s.threads[t := Replaced(id)],
       disk := s.disk.(state := if s.disk.tmp.WholeTmp? then Some(s.disk.tmp.state) else None, tmp := NoTmp),
       savedIn := s.savedIn[id := s.epoch],
       unsaved := s.unsaved - {t})
  }

  ghost function Release<R>(s: System<R>, t: nat): System<R>
    requires Enabled(s, t) && s.threads[t].Replaced?
  {
    s.(threads := s.threads[t := Idle], lock := None)
  }

  ghost function ThreadStep<R>(work: Work<R>, s: System<R>, t: nat): System<R>
    requires Enabled(s, t)
  {
    match s.threads[t]
    case Idle => TakeNext(s, t)
    case Taken(_) => if s.stop then MoveTo(s, t, Idle) else StartWork(s, t)
    case Working(id) => MoveTo(s, t, AfterWork(work, s, id))
    case Exhausting(_) => SignalStop(s, t)
    case Stopped(_) => NoteExhausted(s, t)
    case Ready(_, _) => OpenRecord(s, t)
    case Writing(_, _) => CompleteRecord(s, t)
    case Written(id, rec) => MoveTo(s, t, Loaded(id, rec, s.disk.state.value))
    case Loaded(_, _, _) => OpenTmp(s, t)
    case Staging(_, _, _) => CompleteTmp(s, t)
    case Staged(_, _, _) => ReplaceState(s, t)
    case Replaced(_) => Release(s, t)
  }

  /** The pool has drained: nothing queued, every thread is back. */
  ghost predicate Drained<R>(s: System<R>) {
    s.next == |s.todo| && forall t :: 0 <= t < |s.threads| ==> s.threads[t].Idle?
  }

  ghost predicate FinishedClean<R>(s: System<R>) {
    Drained(s) && s.exhausted == []
  }

  ghost function Session<R>(plan: seq<Id>, s: System<R>, n: nat): System<R>
    requires s.disk.state.Some?
  {
    s.(todo := Within(plan, ToSet(Pending(s.disk.state.value))), next := 0,
       threads := seq(n, _ => Idle), lock := None, stop := false, exhausted := [],
       begin := s.disk)
  }

  /** The process dies, or ends, at any moment, and the stage is resumed with `n` threads. */
  ghost function Restart<R>(plan: seq<Id>, s: System<R>, n: nat): System<R>
    requires s.disk.state.Some?
  {
    Session(plan, s, n).(
      epoch := s.epoch + 1,
      interruptions := s.interruptions + (if FinishedClean(s) then 0 else 1),
      unsaved := map[], waste := s.waste + |s.unsaved|)
  }

  /** A fresh run, on a directory that may hold anything from earlier runs. */
  ghost predicate Initial<R>(plan: seq<Id>, limit: nat, s: System<R>) {
    && 1 <= |s.threads| <= limit
    && s.disk == Initialised(s.disk, plan)
    && s == Session(plan, System(s.disk, [], 0, [], None, false, [], 0, 0, [], s.disk, map[], map[], 0), |s.threads|)
  }

  ghost predicate Step<R>(plan: seq<Id>, limit: nat, work: Work<R>, s: System<R>, s': System<R>) {
    || (exists t: nat :: Enabled(s, t) && s' == ThreadStep(work, s, t))
    || (s.disk.state.Some? && exists n: nat :: 1 <= n <= limit && s' == Restart(plan, s, n))
  }

  ghost predicate IsRun<R>(plan: seq<Id>, limit: nat, work: Work<R>, run: seq<System<R>>) {
    && run != []
    && Initial(plan, limit, run[0])
    && forall i :: 0 <= i < |run| - 1 ==> Step(plan, limit, work, run[i], run[i + 1])
  }
}

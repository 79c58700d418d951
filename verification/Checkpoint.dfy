/** The run directory of a resumable review run: one file per finished item under
    `findings/`, and `run-state.json`, which is replaced atomically. */
module Checkpoint {
  import opened Lists

  type Id = string

  /** How one call of `work` ends. */
  datatype Outcome<+R> = Returned(value: R) | Raised(error: string) | Exhausted

  /** What is persisted: the value `work` returned, or the one-off failure it raised. */
  datatype Record<+R> = Produced(value: R) | Failed(item: Id, error: string)

  /** A record file cut off in the middle of its write is `Torn`. */
  datatype File<+R> = Torn | Whole(record: Record<R>)

  datatype RunState = RunState(planned: seq<Id>, done: seq<Id>)

  datatype Tmp = NoTmp | TornTmp | WholeTmp(state: RunState)

  datatype Disk<+R> = Disk(state: Option<RunState>, tmp: Tmp, findings: map<Id, File<R>>)

  function RecordOf<R>(id: Id, o: Outcome<R>): Record<R>
    requires !o.Exhausted?
  {
    match o
    case Returned(v) => Produced(v)
    case Raised(e) => Failed(id, e)
  }

  /** The file of `id` says how its call ended: the value it returned, or - under the item's own
      id - the error it raised. */
  ghost predicate Tells<R>(file: File<R>, id: Id, o: Outcome<R>) {
    match o
    case Returned(v) => file == Whole(Produced(v))
    case Raised(e) => file == Whole(Failed(id, e))
    case Exhausted => false
  }

  function Initialised<R>(d: Disk<R>, planned: seq<Id>): Disk<R> {
    d.(state := Some(RunState(planned, [])), tmp := NoTmp)
  }

  function MarkedDone(st: RunState, id: Id): RunState {
    if id in st.done then st else st.(done := st.done + [id])
  }

  function Appended<R>(d: Disk<R>, id: Id, record: Record<R>): Disk<R>
    requires d.state.Some?
  {
    d.(state := Some(MarkedDone(d.state.value, id)),
       tmp := NoTmp,
       findings := d.findings[id := Whole(record)])
  }

  function Pending(st: RunState): seq<Id> {
    Without(st.planned, ToSet(st.done))
  }

  /** Every item recorded as done has a complete record file. */
  ghost predicate Sound<R>(d: Disk<R>) {
    d.state.Some? ==>
      forall id :: id in d.state.value.done ==> id in d.findings && d.findings[id].Whole?
  }

  /** The records of `ids` that are done, in the order of `ids`. */
  ghost function Results<R>(ids: seq<Id>, d: Disk<R>): seq<Record<R>>
    requires d.state.Some? && Sound(d)
  {
    if ids == [] then []
    else (if ids[0] in d.state.value.done then [d.findings[ids[0]].record] else []) + Results(ids[1..], d)
  }

  lemma {:induction false} ResultsAgree<R>(ids: seq<Id>, d: Disk<R>, e: Disk<R>)
    requires d.state.Some? && Sound(d) && e.state.Some? && Sound(e)
    requires forall id :: id in ids ==> (id in d.state.value.done <==> id in e.state.value.done)
    requires forall id :: id in ids && id in d.state.value.done ==> d.findings[id] == e.findings[id]
    ensures Results(ids, d) == Results(ids, e)
  {
    if ids != [] {
      ResultsAgree(ids[1..], d, e);
    }
  }

  lemma {:induction false} ResultsAt<R>(ids: seq<Id>, d: Disk<R>)
    requires d.state.Some? && Sound(d)
    requires forall id :: id in ids ==> id in d.state.value.done
    ensures |Results(ids, d)| == |ids|
    ensures forall k :: 0 <= k < |ids| ==> Results(ids, d)[k] == d.findings[ids[k]].record
  {
    if ids != [] {
      ResultsAt(ids[1..], d);
    }
  }

  /** The run directory as the serial code sees it: every call runs to its end. */
  class RunDir<R> {
    var state: Option<RunState>
    var tmp: Tmp
    var findings: map<Id, File<R>>

    ghost function Contents(): Disk<R>
      reads this
    {
      Disk(state, tmp, findings)
    }

    ghost predicate Valid()
      reads this
    {
      Sound(Contents())
    }

    constructor (found: map<Id, File<R>>)
      ensures Valid() && Contents() == Disk(None, NoTmp, found)
    {
      state, tmp, findings := None, NoTmp, found;
    }

    method WriteState(st: RunState)
      modifies this`state, this`tmp
      ensures state == Some(st) && tmp == NoTmp
    {
      tmp := WholeTmp(st);
      state := Some(st);
      tmp := NoTmp;
    }

    method InitRun(planned: seq<Id>)
      modifies this
      ensures Valid() && Contents() == Initialised(old(Contents()), planned)
    {
      WriteState(RunState(planned, []));
    }

    /** Without a state file the record is still written and then loading the state fails. */
    method AppendRecord(id: Id, record: Record<R>) returns (ok: bool)
      requires Valid()
      modifies this
      ensures Valid()
      ensures ok <==> old(state).Some?
      ensures ok ==> Contents() == Appended(old(Contents()), id, record)
      ensures !ok ==> Contents() == old(Contents()).(findings := old(findings)[id := Whole(record)])
    {
      findings := findings[id := Whole(record)];
      if state.None? {
        return false;
      }
      var st := state.value;
      if id !in st.done {
        st := st.(done := st.done + [id]);
      }
      WriteState(st);
      ok := true;
    }

    method PendingItems() returns (pending: seq<Id>)
      requires state.Some?
      ensures pending == Pending(state.value)
      ensures forall id :: id in pending <==> id in state.value.planned && id !in state.value.done
    {
      var done := ToSet(state.value.done);
      pending := [];
      for k := 0 to |state.value.planned|
        invariant pending == Without(state.value.planned[..k], done)
      {
        var id := state.value.planned[k];
        assert state.value.planned[..k + 1] == state.value.planned[..k] + [id];
        WithoutSplit(state.value.planned[..k], [id], done);
        if id !in done {
          pending := pending + [id];
        }
      }
      assert state.value.planned[..|state.value.planned|] == state.value.planned;
      WithoutMembers(state.value.planned, done);
    }
  }
}

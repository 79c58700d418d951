/** The serial path of `run_stage`, and what one serial run does to the run directory. */
module RunStage {
  import opened Lists
  import opened Checkpoint

  datatype StageResult<+R> = Finished(records: seq<Record<R>>) | BackendExhausted

  /** Runs `todo` in order until the backend is exhausted; the flag says that it was. */
  function SerialRun<R>(todo: seq<Id>, work: Id -> Outcome<R>, d: Disk<R>): (Disk<R>, bool)
    requires d.state.Some?
    decreases |todo|
  {
    if todo == [] then (d, false)
    else
      var o := work(todo[0]);
      if o.Exhausted? then (d, true)
      else SerialRun(todo[1..], work, Appended(d, todo[0], RecordOf(todo[0], o)))
  }

  /** How many items run before the first one that exhausts the backend. */
  function Runnable<R>(todo: seq<Id>, work: Id -> Outcome<R>): nat {
    if todo == [] || work(todo[0]).Exhausted? then 0 else 1 + Runnable(todo[1..], work)
  }

  lemma {:induction false} RunnableBound<R>(todo: seq<Id>, work: Id -> Outcome<R>)
    ensures Runnable(todo, work) <= |todo|
    ensures Runnable(todo, work) < |todo| <==> exists id :: id in todo && work(id).Exhausted?
    ensures forall k :: 0 <= k < Runnable(todo, work) ==> !work(todo[k]).Exhausted?
  {
    if todo != [] {
      RunnableBound(todo[1..], work);
      assert forall id :: id in todo <==> id == todo[0] || id in todo[1..];
    }
  }

  /** What a serial run means, for every directory and every `work`: it raises exactly when
      some pending item exhausts the backend, and it marks done the items before the first
      such one, in order. */
  lemma {:induction false} SerialRunMarks<R>(todo: seq<Id>, work: Id -> Outcome<R>, d: Disk<R>)
    requires d.state.Some? && Distinct(todo)
    requires forall id :: id in todo ==> id !in d.state.value.done
    ensures var (d', raised) := SerialRun(todo, work, d);
            var k := Runnable(todo, work);
            && (raised <==> exists id :: id in todo && work(id).Exhausted?)
            && k <= |todo| && (raised <==> k < |todo|)
            && d'.state == Some(d.state.value.(done := d.state.value.done + todo[..k]))
    decreases |todo|
  {
    RunnableBound(todo, work);
    if todo == [] || work(todo[0]).Exhausted? {
      assert d.state.value.done + todo[..0] == d.state.value.done;
    } else {
      var id := todo[0];
      var e := Appended(d, id, RecordOf(id, work(id)));
      assert id !in todo[1..];
      SerialRunMarks(todo[1..], work, e);
      RunnableBound(todo[1..], work);
      var k := Runnable(todo[1..], work);
      assert todo[..k + 1] == [id] + todo[1..][..k];
      assert d.state.value.done + [id] + todo[1..][..k] == d.state.value.done + todo[..k + 1];
    }
  }

  /** The file of each item that ran holds its own record; every other file is left alone. */
  lemma {:induction false} SerialRunFiles<R>(todo: seq<Id>, work: Id -> Outcome<R>, d: Disk<R>, id: Id)
    requires d.state.Some? && Distinct(todo)
    ensures var (d', k) := (SerialRun(todo, work, d).0, Runnable(todo, work));
            && k <= |todo|
            && (id in todo[..k] ==>
                  id in d'.findings && Tells(d'.findings[id], id, work(id)))
            && (id !in todo[..k] ==>
                  (id in d'.findings <==> id in d.findings) && (id in d.findings ==> d'.findings[id] == d.findings[id]))
    decreases |todo|
  {
    RunnableBound(todo, work);
    if todo != [] && !work(todo[0]).Exhausted? {
      var e := Appended(d, todo[0], RecordOf(todo[0], work(todo[0])));
      SerialRunFiles(todo[1..], work, e, id);
      var k := Runnable(todo[1..], work);
      assert todo[..k + 1] == [todo[0]] + todo[1..][..k];
      assert todo[0] !in todo[1..];
    }
  }

  /** `dict(zip(ids, items))`: the last item given an id is the one kept. */
  function ById<T>(ids: seq<Id>, items: seq<T>): (m: map<Id, T>)
    requires |ids| == |items|
    ensures forall id :: id in ids <==> id in m
  {
    if ids == [] then map[]
    else
      var last := |ids| - 1;
      assert ids == ids[..last] + [ids[last]];
      ById(ids[..last], items[..last])[ids[last] := items[last]]
  }

  lemma {:induction false} ByIdIsLast<T>(ids: seq<Id>, items: seq<T>, i: nat)
    requires |ids| == |items| && i < |ids|
    requires forall j :: i < j < |ids| ==> ids[j] != ids[i]
    ensures ById(ids, items)[ids[i]] == items[i]
  {
    var last := |ids| - 1;
    if i < last {
      assert ids[i] in ids[..last];
      ByIdIsLast(ids[..last], items[..last], i);
    }
  }

  lemma {:induction false} LastWithId(ids: seq<Id>, i: nat) returns (j: nat)
    requires i < |ids|
    ensures i <= j < |ids| && ids[j] == ids[i] && forall k :: j < k < |ids| ==> ids[k] != ids[j]
  {
    j := i;
    for k := i + 1 to |ids|
      invariant i <= j < k && ids[j] == ids[i] && forall l :: j < l < k ==> ids[l] != ids[j]
    {
      if ids[k] == ids[i] {
        j := k;
      }
    }
  }

  /** Every item is worked as itself exactly when no two different items share an id:
      the stage needs distinct item ids. */
  lemma ItemsKeepTheirIds<T>(ids: seq<Id>, items: seq<T>)
    requires |ids| == |items|
    ensures (forall i :: 0 <= i < |ids| ==> ById(ids, items)[ids[i]] == items[i]) <==>
            (forall i, j :: 0 <= i < j < |ids| && ids[i] == ids[j] ==> items[i] == items[j])
  {
    if forall i, j :: 0 <= i < j < |ids| && ids[i] == ids[j] ==> items[i] == items[j] {
      forall i | 0 <= i < |ids| ensures ById(ids, items)[ids[i]] == items[i] {
        var j := LastWithId(ids, i);
        ByIdIsLast(ids, items, j);
      }
    } else {
      var i, j :| 0 <= i < j < |ids| && ids[i] == ids[j] && items[i] != items[j];
      assert ById(ids, items)[ids[i]] != items[i] || ById(ids, items)[ids[j]] != items[j];
    }
  }

  /** The record of every item, in order. */
  function AllRecords<R>(ids: seq<Id>, work: Id -> Outcome<R>): seq<Record<R>>
    requires forall id :: id in ids ==> !work(id).Exhausted?
  {
    seq(|ids|, k requires 0 <= k < |ids| => RecordOf(ids[k], work(ids[k])))
  }

  /** The stage over ids; `work` already looks its item up by id. */
  function StageStart<R>(d: Disk<R>, ids: seq<Id>, resume: bool): (e: Disk<R>)
    ensures e.state.Some? && (Sound(d) ==> Sound(e))
  {
    if !resume || d.state.None? then Initialised(d, ids) else d
  }

  function StageTodo<R>(d: Disk<R>, ids: seq<Id>, resume: bool): seq<Id> {
    Within(ids, ToSet(Pending(StageStart(d, ids, resume).state.value)))
  }

  lemma {:induction false} SerialRunSound<R>(todo: seq<Id>, work: Id -> Outcome<R>, d: Disk<R>)
    requires d.state.Some? && Sound(d)
    ensures SerialRun(todo, work, d).0.state.Some? && Sound(SerialRun(todo, work, d).0)
    decreases |todo|
  {
    if todo != [] && !work(todo[0]).Exhausted? {
      SerialRunSound(todo[1..], work, Appended(d, todo[0], RecordOf(todo[0], work(todo[0]))));
    }
  }

  ghost function StageEnd<R>(d: Disk<R>, ids: seq<Id>, work: Id -> Outcome<R>, resume: bool): (r: (Disk<R>, StageResult<R>))
    requires Sound(d)
    ensures Sound(r.0)
  {
    var start := StageStart(d, ids, resume);
    var (d', raised) := SerialRun(StageTodo(d, ids, resume), work, start);
    SerialRunSound(StageTodo(d, ids, resume), work, start);
    (d', if raised then BackendExhausted else Finished(Results(ids, d')))
  }

  /** The serial loop over the pending items. */
  method RunPending<R>(dir: RunDir<R>, todo: seq<Id>, work: Id -> Outcome<R>) returns (raised: bool)
    requires dir.Valid() && dir.state.Some?
    modifies dir
    ensures dir.Valid() && dir.state.Some?
    ensures (dir.Contents(), raised) == SerialRun(todo, work, old(dir.Contents()))
  {
    ghost var start := dir.Contents();
    var k := 0;
    assert todo[0..] == todo;
    while k < |todo|
      invariant k <= |todo|
      invariant dir.Valid() && dir.state.Some?
      invariant SerialRun(todo, work, start) == SerialRun(todo[k..], work, dir.Contents())
    {
      assert todo[k..][1..] == todo[k + 1..];
      var o := work(todo[k]);
      if o.Exhausted? {
        return true;
      }
      var ok := dir.AppendRecord(todo[k], RecordOf(todo[k], o));
      k := k + 1;
    }
    assert todo[k..] == [];
    raised := false;
  }

  method ReadBack<R>(dir: RunDir<R>, ids: seq<Id>) returns (records: seq<Record<R>>)
    requires dir.Valid() && dir.state.Some?
    ensures records == Results(ids, dir.Contents())
  {
    records := [];
    assert ids[0..] == ids;
    for i := 0 to |ids|
      invariant records + Results(ids[i..], dir.Contents()) == Results(ids, dir.Contents())
    {
      assert ids[i..][1..] == ids[i + 1..];
      if ids[i] in dir.state.value.done {
        records := records + [dir.findings[ids[i]].record];
      }
    }
    assert ids[|ids|..] == [];
  }

  /** `run_stage` with one thread. */
  method RunSerial<R>(dir: RunDir<R>, ids: seq<Id>, work: Id -> Outcome<R>, resume: bool) returns (r: StageResult<R>)
    requires dir.Valid()
    modifies dir
    ensures dir.Valid()
    ensures (dir.Contents(), r) == StageEnd(old(dir.Contents()), ids, work, resume)
  {
    if !resume || dir.state.None? {
      dir.InitRun(ids);
    }
    var pending := dir.PendingItems();
    var raised := RunPending(dir, Within(ids, ToSet(pending)), work);
    if raised {
      return BackendExhausted;
    }
    var records := ReadBack(dir, ids);
    r := Finished(records);
  }
}

/** `run_engine`: the serial queue of the review gate. It returns what the session completed, and
    stops without an error when the backend is exhausted. */
module Engine {
  import opened Lists
  import opened Checkpoint
  import opened RunStage

  datatype EngineResult<+R> = EngineResult(completed: seq<Id>, failed: seq<Id>, records: seq<Record<R>>, exhausted: bool)

  /** The items of a session that end by returning, and those that end by raising. */
  function Completed<R>(todo: seq<Id>, work: Id -> Outcome<R>): seq<Id> {
    if todo == [] || work(todo[0]).Exhausted? then []
    else (if work(todo[0]).Returned? then [todo[0]] else []) + Completed(todo[1..], work)
  }

  function FailedItems<R>(todo: seq<Id>, work: Id -> Outcome<R>): seq<Id> {
    if todo == [] || work(todo[0]).Exhausted? then []
    else (if work(todo[0]).Raised? then [todo[0]] else []) + FailedItems(todo[1..], work)
  }

  function SessionRecords<R>(todo: seq<Id>, work: Id -> Outcome<R>): seq<Record<R>> {
    if todo == [] || work(todo[0]).Exhausted? then []
    else [RecordOf(todo[0], work(todo[0]))] + SessionRecords(todo[1..], work)
  }

  function Start<R>(d: Disk<R>, ids: seq<Id>, resume: bool): Disk<R> {
    if resume then d else Initialised(d, ids)
  }

  /** What a session has to do; the items need not be the plan. */
  function Todo<R>(d: Disk<R>, ids: seq<Id>): seq<Id>
    requires d.state.Some?
  {
    Within(ids, ToSet(Pending(d.state.value)))
  }

  function SessionResult<R>(todo: seq<Id>, work: Id -> Outcome<R>): EngineResult<R> {
    EngineResult(Completed(todo, work), FailedItems(todo, work), SessionRecords(todo, work), Runnable(todo, work) < |todo|)
  }

  lemma OneMoreItem<R>(todo: seq<Id>, work: Id -> Outcome<R>, k: nat)
    requires k < |todo| && !work(todo[k]).Exhausted?
    ensures todo[k..][0] == todo[k] && todo[k..][1..] == todo[k + 1..]
    ensures forall c :: c + (if work(todo[k]).Returned? then [todo[k]] else []) + Completed(todo[k + 1..], work) == c + Completed(todo[k..], work)
    ensures forall c :: c + (if work(todo[k]).Raised? then [todo[k]] else []) + FailedItems(todo[k + 1..], work) == c + FailedItems(todo[k..], work)
    ensures forall c :: c + [RecordOf(todo[k], work(todo[k]))] + SessionRecords(todo[k + 1..], work) == c + SessionRecords(todo[k..], work)
    ensures Runnable(todo[k..], work) == 1 + Runnable(todo[k + 1..], work)
  {
    assert todo[k..][1..] == todo[k + 1..];
    var done, raised := Completed(todo[k + 1..], work), FailedItems(todo[k + 1..], work);
    var records := SessionRecords(todo[k + 1..], work);
    var x, y := if work(todo[k]).Returned? then [todo[k]] else [], if work(todo[k]).Raised? then [todo[k]] else [];
    var z := [RecordOf(todo[k], work(todo[k]))];
    assert Completed(todo[k..], work) == x + done;
    assert FailedItems(todo[k..], work) == y + raised;
    assert SessionRecords(todo[k..], work) == z + records;
    forall c: seq<Id> ensures c + x + done == c + (x + done) && c + y + raised == c + (y + raised) {}
    forall c: seq<Record<R>> ensures c + z + records == c + (z + records) {}
  }

  lemma LastItem<R>(todo: seq<Id>, work: Id -> Outcome<R>)
    requires todo == [] || work(todo[0]).Exhausted?
    ensures Completed(todo, work) == [] && FailedItems(todo, work) == [] && SessionRecords(todo, work) == []
    ensures forall c: seq<Id> :: c + [] == c
    ensures forall c: seq<Record<R>> :: c + [] == c
    ensures Runnable(todo, work) == 0
  {
  }

  /** None is the error of resuming without a state file. */
  method RunEngine<R>(dir: RunDir<R>, ids: seq<Id>, work: Id -> Outcome<R>, resume: bool) returns (r: Option<EngineResult<R>>)
    requires dir.Valid()
    modifies dir
    ensures dir.Valid()
    ensures r.None? <==> resume && old(dir.state).None?
    ensures r.None? ==> dir.Contents() == old(dir.Contents())
    ensures r.Some? ==>
              var start := Start(old(dir.Contents()), ids, resume);
              && start.state.Some?
              && r.value == SessionResult(Todo(start, ids), work)
              && dir.Contents() == SerialRun(Todo(start, ids), work, start).0
  {
    hide Completed, FailedItems, SessionRecords, Runnable, Within, Without;
    if !resume {
      dir.InitRun(ids);
    }
    if dir.state.None? {
      return None;
    }
    ghost var start := dir.Contents();
    var pending := dir.PendingItems();
    var todo := Within(ids, ToSet(pending));
    var completed, failed: seq<Id>, records: seq<Record<R>> := [], [], [];
    assert todo[0..] == todo;
    for k := 0 to |todo|
      invariant dir.Valid() && dir.state.Some?
      invariant SerialRun(todo, work, start).0 == SerialRun(todo[k..], work, dir.Contents()).0
      invariant completed + Completed(todo[k..], work) == Completed(todo, work)
      invariant failed + FailedItems(todo[k..], work) == FailedItems(todo, work)
      invariant records + SessionRecords(todo[k..], work) == SessionRecords(todo, work)
      invariant k + Runnable(todo[k..], work) == Runnable(todo, work)
    {
      var o := work(todo[k]);
      if o.Exhausted? {
        LastItem(todo[k..], work);
        return Some(EngineResult(completed, failed, records, true));
      }
      OneMoreItem(todo, work, k);
      var ok := dir.AppendRecord(todo[k], RecordOf(todo[k], o));
      records := records + [RecordOf(todo[k], o)];
      if o.Raised? {
        failed := failed + [todo[k]];
        assert completed + [] == completed;
      } else {
        completed := completed + [todo[k]];
        assert failed + [] == failed;
      }
    }
    assert todo[|todo|..] == [];
    LastItem([], work);
    r := Some(EngineResult(completed, failed, records, false));
  }

  /** A session's lists: of the items before the first that exhausts the backend, those that
      returned are completed and those that raised have failed, in order; the record of each tells
      how it ended. */
  lemma {:induction false} SessionSorts<R>(todo: seq<Id>, work: Id -> Outcome<R>, returned: set<Id>, raised: set<Id>)
    requires forall id :: id in todo ==> (id in returned <==> work(id).Returned?) && (id in raised <==> work(id).Raised?)
    ensures var r := SessionResult(todo, work);
            var k := |r.records|;
            && k <= |todo|
            && (forall j :: 0 <= j < k ==> Tells(Whole(r.records[j]), todo[j], work(todo[j])))
            && (r.exhausted <==> k < |todo|) && (k < |todo| ==> work(todo[k]).Exhausted?)
            && r.completed == Within(todo[..k], returned) && r.failed == Within(todo[..k], raised)
  {
    hide Tells;
    if todo != [] && !work(todo[0]).Exhausted? {
      SessionSorts(todo[1..], work, returned, raised);
      var rest := SessionResult(todo[1..], work);
      var k := |rest.records|;
      assert todo[..k + 1][1..] == todo[1..][..k] && todo[..k + 1][0] == todo[0];
      FirstTells(todo[0], work(todo[0]));
      RestTells(todo, work, SessionRecords(todo, work), rest.records);
    } else {
      assert todo[..0] == [];
    }
  }

  lemma FirstTells<R>(id: Id, o: Outcome<R>)
    requires !o.Exhausted?
    ensures Tells(Whole(RecordOf(id, o)), id, o)
  {
  }

  lemma RestTells<R>(todo: seq<Id>, work: Id -> Outcome<R>, records: seq<Record<R>>, rest: seq<Record<R>>)
    requires todo != [] && |rest| <= |todo| - 1 && records != [] && records[1..] == rest
    requires Tells(Whole(records[0]), todo[0], work(todo[0]))
    requires forall j :: 0 <= j < |rest| ==> Tells(Whole(rest[j]), todo[1..][j], work(todo[1..][j]))
    ensures forall j :: 0 <= j < |records| ==> Tells(Whole(records[j]), todo[j], work(todo[j]))
  {
    hide Tells;
    forall j | 0 <= j < |records| ensures Tells(Whole(records[j]), todo[j], work(todo[j])) {
      if j > 0 {
        assert records[j] == rest[j - 1] && todo[j] == todo[1..][j - 1];
      }
    }
  }

  // ---------------------------------------------------------------- several sessions

  /** A session cut short worked as the whole one would, as far as it went. */
  ghost predicate CutShort<R(!new)>(cut: Id -> Outcome<R>, work: Id -> Outcome<R>) {
    forall id :: cut(id).Exhausted? || cut(id) == work(id)
  }

  /** The plan is done up to `n`. */
  ghost predicate DoneUpTo<R>(d: Disk<R>, ids: seq<Id>, n: nat) {
    d.state.Some? && d.state.value.planned == ids && n <= |ids| && d.state.value.done == ids[..n]
  }

  lemma {:induction false} TodoIsRest(ids: seq<Id>, n: nat, from: nat)
    requires Distinct(ids) && n <= |ids| && from <= |ids|
    ensures Without(ids[from..], ToSet(ids[..n])) == ids[if from < n then n else from..]
    decreases |ids| - from
  {
    if from < |ids| {
      TodoIsRest(ids, n, from + 1);
      assert ids[from..][1..] == ids[from + 1..];
      assert ids[from] in ToSet(ids[..n]) <==> from < n;
      assert from >= n ==> [ids[from]] + ids[from + 1..] == ids[from..];
    }
  }

  lemma {:induction false} RecordsAre<R>(todo: seq<Id>, work: Id -> Outcome<R>)
    ensures Runnable(todo, work) == |SessionRecords(todo, work)| <= |todo|
    ensures forall k :: 0 <= k < |SessionRecords(todo, work)| ==>
              !work(todo[k]).Exhausted? && SessionRecords(todo, work)[k] == RecordOf(todo[k], work(todo[k]))
  {
    if todo != [] && !work(todo[0]).Exhausted? {
      RecordsAre(todo[1..], work);
      var rest := SessionRecords(todo[1..], work);
      assert forall k :: 0 < k < |SessionRecords(todo, work)| ==> SessionRecords(todo, work)[k] == rest[k - 1] && todo[k] == todo[1..][k - 1];
    }
  }

  lemma TodoAt<R>(d: Disk<R>, ids: seq<Id>, n: nat)
    requires DoneUpTo(d, ids, n) && Distinct(ids)
    ensures Todo(d, ids) == ids[n..] && Distinct(ids[n..]) && forall id :: id in ids[n..] ==> id !in ids[..n]
  {
    assert ids[0..] == ids;
    TodoIsRest(ids, n, 0);
    WithinWithout(ids, ToSet(ids[..n]));
    hide Within, Without, Distinct, ToSet;
    DistinctRest(ids, n);
  }

  lemma DistinctRest(ids: seq<Id>, n: nat)
    requires Distinct(ids) && n <= |ids|
    ensures Distinct(ids[n..]) && forall id :: id in ids[n..] ==> id !in ids[..n]
  {
    var todo := ids[n..];
    assert forall k :: 0 <= k < |todo| ==> todo[k] == ids[n + k];
    forall k | 0 <= k < |todo| ensures todo[k] !in ids[..n] {
      assert forall j :: 0 <= j < n ==> ids[j] != ids[n + k];
    }
  }

  ghost predicate RecordIs<R>(record: Record<R>, id: Id, work: Id -> Outcome<R>) {
    Tells(Whole(record), id, work(id))
  }

  /** The records are those of the items from the `n`-th on. */
  ghost predicate RecordsFrom<R(!new)>(records: seq<Record<R>>, ids: seq<Id>, n: nat, work: Id -> Outcome<R>) {
    && n + |records| <= |ids|
    && forall k :: 0 <= k < |records| ==> RecordIs(records[k], ids[n + k], work)
  }

  /** One session takes the plan up where the last one left it. */
  lemma SessionAdvances<R(!new)>(d: Disk<R>, ids: seq<Id>, n: nat, cut: Id -> Outcome<R>, work: Id -> Outcome<R>)
    requires DoneUpTo(d, ids, n) && Distinct(ids) && CutShort(cut, work)
    ensures var r := SessionResult(Todo(d, ids), cut);
            && RecordsFrom(r.records, ids, n, work)
            && DoneUpTo(SerialRun(Todo(d, ids), cut, d).0, ids, n + |r.records|)
            && (r.exhausted <==> n + |r.records| < |ids|)
  {
    var todo := ids[n..];
    TodoAt(d, ids, n);
    hide Todo, SessionRecords, Runnable, Completed, FailedItems, SerialRun, Distinct, CutShort;
    RecordsAre(todo, cut);
    SerialRunMarks(todo, cut, d);
    var records := SessionRecords(todo, cut);
    var k := |records|;
    assert ids[..n] + todo[..k] == ids[..n + k];
    RecordsOfCut(records, ids, n, cut, work);
  }

  lemma RecordsOfCut<R(!new)>(records: seq<Record<R>>, ids: seq<Id>, n: nat, cut: Id -> Outcome<R>, work: Id -> Outcome<R>)
    requires n <= |ids| && |records| <= |ids[n..]| && CutShort(cut, work)
    requires forall k :: 0 <= k < |records| ==> !cut(ids[n..][k]).Exhausted? && records[k] == RecordOf(ids[n..][k], cut(ids[n..][k]))
    ensures RecordsFrom(records, ids, n, work)
  {
    forall k | 0 <= k < |records| ensures RecordIs(records[k], ids[n + k], work) {
      assert ids[n..][k] == ids[n + k];
      assert cut(ids[n + k]) == work(ids[n + k]);
    }
  }

  lemma RecordsAppend<R(!new)>(a: seq<Record<R>>, b: seq<Record<R>>, ids: seq<Id>, work: Id -> Outcome<R>)
    requires RecordsFrom(a, ids, 0, work) && RecordsFrom(b, ids, |a|, work)
    ensures RecordsFrom(a + b, ids, 0, work)
  {
    hide RecordIs;
    forall k | 0 <= k < |a + b| ensures RecordIs((a + b)[k], ids[0 + k], work) {
      if k < |a| {
        assert RecordIs(a[k], ids[0 + k], work);
      } else {
        assert RecordIs(b[k - |a|], ids[|a| + (k - |a|)], work);
      }
    }
  }

  ghost predicate Sessions<R(!new)>(ids: seq<Id>, work: Id -> Outcome<R>, cuts: seq<Id -> Outcome<R>>, disks: seq<Disk<R>>) {
    && |disks| == |cuts| + 1
    && DoneUpTo(disks[0], ids, 0)
    && (forall i :: 0 <= i < |cuts| ==> CutShort(cuts[i], work))
    && (forall i :: 0 <= i < |cuts| ==> disks[i].state.Some? && disks[i + 1] == SerialRun(Todo(disks[i], ids), cuts[i], disks[i]).0)
  }

  /** The records the sessions returned, one after the other. */
  function Together<R>(ids: seq<Id>, cuts: seq<Id -> Outcome<R>>, disks: seq<Disk<R>>, i: nat): seq<Record<R>>
    requires i <= |cuts| < |disks| && forall j :: 0 <= j < |cuts| ==> disks[j].state.Some?
  {
    if i == 0 then [] else Together(ids, cuts, disks, i - 1) + SessionRecords(Todo(disks[i - 1], ids), cuts[i - 1])
  }

  /** However often a run is cut short and resumed, the sessions together return the record of
      each planned item once, in the order of the plan; and the session that is not cut short
      completes the plan. */
  lemma {:induction false} SessionsAddUp<R(!new)>(ids: seq<Id>, work: Id -> Outcome<R>, cuts: seq<Id -> Outcome<R>>, disks: seq<Disk<R>>, i: nat)
    requires Sessions(ids, work, cuts, disks) && Distinct(ids) && i <= |cuts|
    ensures var records := Together(ids, cuts, disks, i);
            && RecordsFrom(records, ids, 0, work) && DoneUpTo(disks[i], ids, |records|)
            && (i > 0 ==> (SessionResult(Todo(disks[i - 1], ids), cuts[i - 1]).exhausted <==> |records| < |ids|))
  {
    hide SerialRun, Todo, SessionRecords, CutShort, Runnable, Completed, FailedItems, RecordsFrom, Distinct;
    if i > 0 {
      SessionsAddUp(ids, work, cuts, disks, i - 1);
      var n := |Together(ids, cuts, disks, i - 1)|;
      SessionAdvances(disks[i - 1], ids, n, cuts[i - 1], work);
      RecordsAppend(Together(ids, cuts, disks, i - 1), SessionRecords(Todo(disks[i - 1], ids), cuts[i - 1]), ids, work);
    } else {
      assert ids[..0] == [];
      NoRecords(ids, work);
    }
  }

  lemma NoRecords<R(!new)>(ids: seq<Id>, work: Id -> Outcome<R>)
    ensures RecordsFrom([], ids, 0, work)
  {
  }
}

/** A stage taken up again: what a session leaves, and what the session that completes it returns.
    Item ids may repeat. */
module StageLaws {
  import opened Lists
  import opened Checkpoint
  import opened RunStage

  /** The stored plan has these items, in whatever order. */
  ghost predicate SamePlan<R>(d: Disk<R>, ids: seq<Id>) {
    d.state.Some? && ToSet(d.state.value.planned) == ToSet(ids)
  }

  /** Part of a stage over `ids` is done, and each done item's file holds the record of `work`. */
  ghost predicate Faithful<R(!new)>(d: Disk<R>, ids: seq<Id>, work: Id -> Outcome<R>) {
    && SamePlan(d, ids) && Sound(d)
    && forall id :: id in d.state.value.done ==>
         id in d.findings && Tells(d.findings[id], id, work(id))
  }

  ghost predicate AllDone<R>(d: Disk<R>, ids: seq<Id>) {
    SamePlan(d, ids) && Sound(d) && forall id :: id in ids ==> id in d.state.value.done
  }

  /** A session cut short works as the whole one would, as far as it goes. */
  ghost predicate CutShort<R(!new)>(ids: seq<Id>, cut: Id -> Outcome<R>, work: Id -> Outcome<R>) {
    forall id :: id in ids ==> cut(id).Exhausted? || cut(id) == work(id)
  }

  lemma TodoIs<R>(d: Disk<R>, ids: seq<Id>)
    requires SamePlan(d, ids)
    ensures forall id :: id in StageTodo(d, ids, true) <==> id in ids && id !in d.state.value.done
  {
    var pending := Pending(d.state.value);
    WithoutMembers(d.state.value.planned, ToSet(d.state.value.done));
    WithinMembers(ids, ToSet(pending));
    hide Without, Within;
    forall id | id in ids ensures id in d.state.value.planned { assert id in ToSet(ids); }
  }

  lemma FaithfulAlike<R(!new)>(d: Disk<R>, ids: seq<Id>, ids': seq<Id>, work: Id -> Outcome<R>)
    requires ToSet(ids) == ToSet(ids')
    ensures Faithful(d, ids, work) <==> Faithful(d, ids', work)
  {
  }

  lemma SameItems(ids: seq<Id>, ids': seq<Id>)
    requires ToSet(ids) == ToSet(ids')
    ensures forall id :: id in ids <==> id in ids'
  {
    assert forall id :: (id in ids <==> id in ToSet(ids)) && (id in ids' <==> id in ToSet(ids'));
  }

  /** What a serial run does, also when an id is there twice. */
  lemma {:induction false} SerialRunDoes<R>(todo: seq<Id>, work: Id -> Outcome<R>, d: Disk<R>, id: Id)
    requires d.state.Some?
    ensures var (d', raised) := SerialRun(todo, work, d);
            var k := Runnable(todo, work);
            && k <= |todo| && (raised <==> k < |todo|)
            && d'.state.Some? && d'.state.value.planned == d.state.value.planned
            && (id in d'.state.value.done <==> id in d.state.value.done || id in todo[..k])
            && (id in todo[..k] ==>
                  id in d'.findings && Tells(d'.findings[id], id, work(id)))
            && (id !in todo[..k] ==>
                  (id in d'.findings <==> id in d.findings) && (id in d.findings ==> d'.findings[id] == d.findings[id]))
    decreases |todo|
  {
    if todo != [] && !work(todo[0]).Exhausted? {
      var e := Appended(d, todo[0], RecordOf(todo[0], work(todo[0])));
      SerialRunDoes(todo[1..], work, e, id);
      var k := Runnable(todo[1..], work);
      assert todo[..k + 1] == [todo[0]] + todo[1..][..k];
    }
  }

  lemma RunsAll<R>(todo: seq<Id>, work: Id -> Outcome<R>)
    requires forall id :: id in todo ==> !work(id).Exhausted?
    ensures Runnable(todo, work) == |todo|
  {
    RunnableBound(todo, work);
  }

  /** A session that may exhaust the backend leaves the stage partly done, and done when it does not. */
  lemma StageStaysFaithful<R(!new)>(d: Disk<R>, ids: seq<Id>, cut: Id -> Outcome<R>, work: Id -> Outcome<R>)
    requires Faithful(d, ids, work) && CutShort(ids, cut, work)
    ensures Faithful(StageEnd(d, ids, cut, true).0, ids, work)
    ensures StageEnd(d, ids, cut, true).1.Finished? ==>
              && (forall id :: id in ids ==> !work(id).Exhausted?)
              && StageEnd(d, ids, cut, true).1 == Finished(AllRecords(ids, work))
  {
    hide Results, SerialRun, StageTodo, Runnable;
    var todo := StageTodo(d, ids, true);
    TodoIs(d, ids);
    SerialRunSound(todo, cut, d);
    var d' := SerialRun(todo, cut, d).0;
    var k := Runnable(todo, cut);
    SerialRunDoes(todo, cut, d, "");
    assert k == |todo| ==> todo[..k] == todo;
    assert forall id :: id in todo[..k] ==> id in todo;
    forall id | id in d'.state.value.done
      ensures id in d'.findings && Tells(d'.findings[id], id, work(id))
    {
      SerialRunDoes(todo, cut, d, id);
    }
    if k == |todo| {
      forall id | id in ids ensures id in d'.state.value.done { SerialRunDoes(todo, cut, d, id); }
      ResultsAt(ids, d');
      assert Results(ids, d') == AllRecords(ids, work);
    }
  }

  /** A new session starts from an empty stage, whatever was there. */
  lemma NewStage<R>(d: Disk<R>, ids: seq<Id>, work: Id -> Outcome<R>, resume: bool)
    requires Sound(d) && (!resume || d.state.None?)
    ensures Sound(Initialised(d, ids))
    ensures StageEnd(d, ids, work, resume) == StageEnd(Initialised(d, ids), ids, work, true)
  {
    hide Results, SerialRun;
  }

  lemma NewIsFaithful<R(!new)>(d: Disk<R>, ids: seq<Id>, work: Id -> Outcome<R>)
    requires Sound(d)
    ensures Faithful(Initialised(d, ids), ids, work)
  {
  }

  /** A stage whose state file is the run's own, or that has none yet: one more session of the run
      leaves it the run's own - each done item's file tells how its call ended - and when it
      finishes it returns every item's record, position by position. */
  lemma StageAdvances<R(!new)>(d: Disk<R>, ids: seq<Id>, cut: Id -> Outcome<R>, work: Id -> Outcome<R>, resume: bool)
    requires Sound(d) && CutShort(ids, cut, work)
    requires resume ==> d.state.None? || Faithful(d, ids, work)
    ensures Faithful(StageEnd(d, ids, cut, resume).0, ids, work)
    ensures StageEnd(d, ids, cut, resume).1.Finished? ==>
              && (forall id :: id in ids ==> !work(id).Exhausted?)
              && StageEnd(d, ids, cut, resume).1 == Finished(AllRecords(ids, work))
              && TellsAll(StageEnd(d, ids, cut, resume).1.records, ids, work)
    ensures (forall id :: id in ids ==> !cut(id).Exhausted?) ==> StageEnd(d, ids, cut, resume).1.Finished?
  {
    hide Faithful, CutShort, StageEnd, AllRecords, TellsAll;
    if resume && d.state.Some? {
      StageStaysFaithful(d, ids, cut, work);
      StageEnds(d, ids, cut, work);
    } else {
      NewStage(d, ids, cut, resume);
      NewIsFaithful(d, ids, work);
      StageStaysFaithful(Initialised(d, ids), ids, cut, work);
      StageEnds(Initialised(d, ids), ids, cut, work);
    }
    if forall id :: id in ids ==> !work(id).Exhausted? {
      AllRecordsTell(ids, work);
    }
  }

  /** The list has one record for each id, in order, and it tells how that call ended. */
  ghost predicate TellsAll<R(!new)>(records: seq<Record<R>>, ids: seq<Id>, work: Id -> Outcome<R>) {
    |records| == |ids| && forall k :: 0 <= k < |ids| ==> Tells(Whole(records[k]), ids[k], work(ids[k]))
  }

  lemma AllRecordsTell<R(!new)>(ids: seq<Id>, work: Id -> Outcome<R>)
    requires forall id :: id in ids ==> !work(id).Exhausted?
    ensures TellsAll(AllRecords(ids, work), ids, work)
  {
  }

  lemma StageEnds<R(!new)>(d: Disk<R>, ids: seq<Id>, cut: Id -> Outcome<R>, work: Id -> Outcome<R>)
    requires Faithful(d, ids, work)
    ensures (forall id :: id in ids ==> !cut(id).Exhausted?) ==> StageEnd(d, ids, cut, true).1.Finished?
  {
    hide Results, SerialRun, StageTodo, Runnable;
    var todo := StageTodo(d, ids, true);
    TodoIs(d, ids);
    if forall id :: id in ids ==> !cut(id).Exhausted? {
      RunsAll(todo, cut);
      SerialRunDoes(todo, cut, d, "");
    }
  }

  /** A stage that finished is done. */
  lemma FinishedIsDone<R>(d: Disk<R>, ids: seq<Id>, work: Id -> Outcome<R>)
    requires Sound(d) && StageEnd(d, ids, work, false).1.Finished?
    ensures AllDone(StageEnd(d, ids, work, false).0, ids)
  {
    hide Results, SerialRun, StageTodo, Runnable, Sound;
    NewStage(d, ids, work, false);
    var start := Initialised(d, ids);
    var todo := StageTodo(start, ids, true);
    TodoIs(start, ids);
    SerialRunDoes(todo, work, start, "");
    assert todo[..|todo|] == todo;
    forall id | id in ids ensures id in SerialRun(todo, work, start).0.state.value.done { SerialRunDoes(todo, work, start, id); }
  }

  /** A done stage that is taken up again works nothing. */
  lemma DoneStageReturns<R>(d: Disk<R>, ids: seq<Id>, work: Id -> Outcome<R>)
    requires AllDone(d, ids)
    ensures StageEnd(d, ids, work, true) == (d, Finished(Results(ids, d)))
  {
    hide Results, StageTodo, Sound;
    TodoIs(d, ids);
    NothingIn(StageTodo(d, ids, true));
  }

  /** A stage raises exactly when some item still to be done exhausts the backend. */
  lemma StageRaisesIff<R>(d: Disk<R>, ids: seq<Id>, work: Id -> Outcome<R>, resume: bool)
    requires Sound(d) && (resume && d.state.Some? ==> SamePlan(d, ids))
    ensures StageEnd(d, ids, work, resume).1.BackendExhausted? <==>
            exists id :: id in ids && work(id).Exhausted? && !(resume && d.state.Some? && id in d.state.value.done)
    ensures SamePlan(StageEnd(d, ids, work, resume).0, ids)
  {
    hide Results, SerialRun, StageTodo, Runnable, Sound;
    var start := StageStart(d, ids, resume);
    var todo := StageTodo(d, ids, resume);
    assert todo == StageTodo(start, ids, true) by { SameTodo(d, ids, resume); }
    TodoIs(start, ids);
    RunnableBound(todo, work);
    SerialRunDoes(todo, work, start, "");
  }

  lemma SameTodo<R>(d: Disk<R>, ids: seq<Id>, resume: bool)
    ensures StageTodo(d, ids, resume) == StageTodo(StageStart(d, ids, resume), ids, true)
  {
  }

  // ---------------------------------------------------------------- items outside the plan

  lemma {:induction false} WithinTwice<T>(s: seq<T>, a: set<T>, b: set<T>)
    requires forall x :: x in s && x in b ==> x in a
    ensures Within(Within(s, a), b) == Within(s, b)
  {
    if s != [] {
      WithinTwice(s[1..], a, b);
      WithinSplit(if s[0] in a then [s[0]] else [], Within(s[1..], a), b);
    }
  }

  lemma {:induction false} ResultsWithin<R>(ids: seq<Id>, known: set<Id>, d: Disk<R>)
    requires d.state.Some? && Sound(d) && forall id :: id in ids && id in d.state.value.done ==> id in known
    ensures Results(Within(ids, known), d) == Results(ids, d)
  {
    if ids != [] {
      ResultsWithin(ids[1..], known, d);
      if ids[0] in known {
        assert Within(ids, known) == [ids[0]] + Within(ids[1..], known);
        assert ([ids[0]] + Within(ids[1..], known))[1..] == Within(ids[1..], known);
      } else {
        assert Within(ids, known) == Within(ids[1..], known);
      }
    }
  }

  /** A resume goes by the stored plan: items that are neither planned nor done are not worked and
      not returned - it is as if they had not been asked for. */
  lemma ResumeIgnoresStrangers<R>(d: Disk<R>, ids: seq<Id>, work: Id -> Outcome<R>)
    requires Sound(d) && d.state.Some?
    ensures var known := ToSet(d.state.value.planned) + ToSet(d.state.value.done);
            StageEnd(d, ids, work, true) == StageEnd(d, Within(ids, known), work, true)
  {
    hide Results, SerialRun, Within, Without, Runnable, Sound;
    var known := ToSet(d.state.value.planned) + ToSet(d.state.value.done);
    var pending := Pending(d.state.value);
    WithoutMembers(d.state.value.planned, ToSet(d.state.value.done));
    WithinTwice(ids, known, ToSet(pending));
    var todo := Within(ids, ToSet(pending));
    assert StageTodo(d, ids, true) == todo && StageTodo(d, Within(ids, known), true) == todo;
    SerialRunSound(todo, work, d);
    var d' := SerialRun(todo, work, d).0;
    WithinMembers(ids, ToSet(pending));
    forall id | id in d'.state.value.done ensures id in known {
      SerialRunDoes(todo, work, d, id);
      var k := Runnable(todo, work);
      assert id in todo[..k] ==> id in todo;
    }
    ResultsWithin(ids, known, d');
  }

  lemma {:induction false} WithinMembers<T>(s: seq<T>, kept: set<T>)
    ensures forall x :: x in Within(s, kept) <==> x in s && x in kept
  {
    if s != [] {
      WithinMembers(s[1..], kept);
    }
  }
}

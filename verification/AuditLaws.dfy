/** The ids of the items and the verdicts they carry: which refutation each edit is judged by. */
module AuditLaws {
  import opened Lists
  import opened Decimal
  import opened Json
  import opened JsonValues
  import opened Checkpoint
  import opened RunStage
  import opened StageLaws
  import opened Changelists
  import opened AuditRun
  import Findings
  import Refute

  // ---------------------------------------------------------------- keys

  /** The keys of different items differ: the digits after the last `__` are the place, and what
      is before it the agent, whatever underscores the agent's name has. */
  lemma KeyInjective(a: string, i: nat, b: string, j: nat)
    requires Key(a, i) == Key(b, j)
    ensures a == b && i == j
  {
    SeparatorIsLast(a, Str(i));
    SeparatorIsLast(b, Str(j));
    hide Str;
    var k := Key(a, i);
    assert |a| == |b|;
    assert k[|a| + 2..] == Str(i) && k[|b| + 2..] == Str(j);
    assert k[..|a|] == a && k[..|b|] == b;
    StrInjective(i, j);
  }

  lemma SeparatorIsLast(a: string, s: string)
    requires Digits(s)
    ensures var k := a + "__" + s;
            k[|a| + 1] == '_' && forall at :: |a| + 1 < at < |k| ==> k[at] != '_'
  {
    var k := a + "__" + s;
    forall at | |a| + 1 < at < |k| ensures k[at] != '_' {
      assert k[at] == s[at - |a| - 2];
    }
  }

  /** The agents of the changelist are different, and none has the preamble's name. */
  ghost predicate AgentsOk(cl: Changelist) {
    && (forall j, k :: 0 <= j < k < |cl.agents| ==> cl.agents[j].agent != cl.agents[k].agent)
    && (forall k :: 0 <= k < |cl.agents| ==> cl.agents[k].agent != PREAMBLE)
  }

  ghost predicate Apart(items: seq<Item>) {
    forall i, j :: 0 <= i < j < |items| ==> items[i].agent != items[j].agent || items[i].idx != items[j].idx
  }

  lemma ApartAppend(a: seq<Item>, b: seq<Item>)
    requires Apart(a) && Apart(b)
    requires forall x, y :: x in a && y in b ==> x.agent != y.agent
    ensures Apart(a + b)
  {
    var c := a + b;
    forall i, j | 0 <= i < j < |c| ensures c[i].agent != c[j].agent || c[i].idx != c[j].idx {
      if i < |a| <= j {
        assert a[i] in a && b[j - |a|] in b;
      }
    }
  }

  lemma ItemsOfApart(agent: string, edits: seq<Edit>)
    ensures Apart(ItemsOf(agent, edits, 0)) && forall x :: x in ItemsOf(agent, edits, 0) ==> x.agent == agent
  {
  }

  lemma {:induction false} AgentItemsApart(agents: seq<AgentChange>)
    requires forall j, k :: 0 <= j < k < |agents| ==> agents[j].agent != agents[k].agent
    ensures Apart(AgentItems(agents))
    ensures forall x :: x in AgentItems(agents) ==> exists k :: 0 <= k < |agents| && agents[k].agent == x.agent
  {
    hide Apart;
    if agents == [] {
      assert Apart([]) by { ItemsOfApart("", []); assert ItemsOf("", [], 0) == []; }
    } else {
      var rest := agents[1..];
      assert forall k :: 0 <= k < |rest| ==> rest[k] == agents[k + 1];
      AgentItemsApart(rest);
      var first := ItemsOf(agents[0].agent, agents[0].edits, 0);
      ItemsOfApart(agents[0].agent, agents[0].edits);
      ApartAppend(first, AgentItems(rest));
      forall x | x in AgentItems(agents) ensures exists k :: 0 <= k < |agents| && agents[k].agent == x.agent {
        if x in first {
          assert agents[0].agent == x.agent;
        } else {
          var k :| 0 <= k < |rest| && rest[k].agent == x.agent;
          assert agents[k + 1].agent == x.agent;
        }
      }
    }
  }

  lemma FlatApart(cl: Changelist)
    requires AgentsOk(cl)
    ensures Apart(Flat(cl)) && Distinct(Ids(Flat(cl)))
  {
    hide AgentItems, ItemsOf;
    AgentItemsApart(cl.agents);
    ItemsOfApart(PREAMBLE, cl.preamble);
    ApartAppend(AgentItems(cl.agents), ItemsOf(PREAMBLE, cl.preamble, 0));
    var items := Flat(cl);
    forall i, j | 0 <= i < j < |items| ensures Ids(items)[i] != Ids(items)[j] {
      if Key(items[i].agent, items[i].idx) == Key(items[j].agent, items[j].idx) {
        KeyInjective(items[i].agent, items[i].idx, items[j].agent, items[j].idx);
      }
    }
  }

  // ---------------------------------------------------------------- verdicts, edit by edit

  /** The changelist with the verdict `f` gives each edit. */
  ghost function WithVerdicts(cl: Changelist, f: Item -> Option<Verdict>): Changelist {
    Changelist(
      seq(|cl.agents|, k requires 0 <= k < |cl.agents| =>
        cl.agents[k].(edits := EditsWith(cl.agents[k].agent, cl.agents[k].edits, f))),
      EditsWith(PREAMBLE, cl.preamble, f))
  }

  ghost function EditsWith(agent: string, edits: seq<Edit>, f: Item -> Option<Verdict>): seq<Edit> {
    seq(|edits|, i requires 0 <= i < |edits| => edits[i].(verdict := f(Item(agent, i, edits[i]))))
  }

  function Judged(it: Item, f: Item -> Option<Verdict>): Item {
    it.(edit := it.edit.(verdict := f(it)))
  }

  lemma ItemsWith(agent: string, edits: seq<Edit>, f: Item -> Option<Verdict>)
    ensures var was, now := ItemsOf(agent, edits, 0), ItemsOf(agent, EditsWith(agent, edits, f), 0);
            |was| == |now| == |edits| && forall i :: 0 <= i < |was| ==> now[i] == Judged(was[i], f)
  {
  }

  lemma {:induction false} AgentItemsWith(agents: seq<AgentChange>, after: seq<AgentChange>, f: Item -> Option<Verdict>)
    requires |after| == |agents|
    requires forall k :: 0 <= k < |agents| ==> after[k] == agents[k].(edits := EditsWith(agents[k].agent, agents[k].edits, f))
    ensures |AgentItems(after)| == |AgentItems(agents)|
    ensures forall p :: 0 <= p < |AgentItems(agents)| ==> AgentItems(after)[p] == Judged(AgentItems(agents)[p], f)
  {
    hide ItemsOf, EditsWith, Judged;
    if agents != [] {
      assert forall k :: 0 <= k < |agents| - 1 ==> after[1..][k] == after[k + 1] && agents[1..][k] == agents[k + 1];
      AgentItemsWith(agents[1..], after[1..], f);
      ItemsWith(agents[0].agent, agents[0].edits, f);
      assert after[0] == agents[0].(edits := EditsWith(agents[0].agent, agents[0].edits, f));
    }
  }

  /** Item by item, the verdicts are those of `f`. */
  lemma FlatWith(cl: Changelist, f: Item -> Option<Verdict>)
    ensures |Flat(WithVerdicts(cl, f))| == |Flat(cl)|
    ensures forall p :: 0 <= p < |Flat(cl)| ==> Flat(WithVerdicts(cl, f))[p] == Judged(Flat(cl)[p], f)
  {
    hide ItemsOf, AgentItems, EditsWith, Judged;
    AgentItemsWith(cl.agents, WithVerdicts(cl, f).agents, f);
    ItemsWith(PREAMBLE, cl.preamble, f);
  }

  /** Every edit is among the items, at its place. */
  lemma {:induction false} EditIsItem(agents: seq<AgentChange>, k: nat, i: nat)
    requires k < |agents| && i < |agents[k].edits|
    ensures Item(agents[k].agent, i, agents[k].edits[i]) in AgentItems(agents)
  {
    if k == 0 {
      var first := ItemsOf(agents[0].agent, agents[0].edits, 0);
      assert first[i] == Item(agents[0].agent, i, agents[0].edits[i]);
      assert first[i] in first;
    } else {
      EditIsItem(agents[1..], k - 1, i);
    }
  }

  lemma SameEdits(agent: string, edits: seq<Edit>, f: Item -> Option<Verdict>, g: Item -> Option<Verdict>)
    requires forall i :: 0 <= i < |edits| ==> f(Item(agent, i, edits[i])) == g(Item(agent, i, edits[i]))
    ensures EditsWith(agent, edits, f) == EditsWith(agent, edits, g)
  {
  }

  /** Two ways of giving verdicts agree exactly when they agree on every item. */
  lemma SameVerdictsIff(cl: Changelist, f: Item -> Option<Verdict>, g: Item -> Option<Verdict>)
    ensures WithVerdicts(cl, f) == WithVerdicts(cl, g) <==> forall it :: it in Flat(cl) ==> f(it) == g(it)
  {
    hide AgentItems, EditsWith;
    FlatWith(cl, f);
    FlatWith(cl, g);
    if WithVerdicts(cl, f) == WithVerdicts(cl, g) {
      forall it | it in Flat(cl) ensures f(it) == g(it) {
        var p :| 0 <= p < |Flat(cl)| && Flat(cl)[p] == it;
        assert Judged(it, f) == Judged(it, g);
      }
    }
    if forall it :: it in Flat(cl) ==> f(it) == g(it) {
      forall k | 0 <= k < |cl.agents|
        ensures EditsWith(cl.agents[k].agent, cl.agents[k].edits, f) == EditsWith(cl.agents[k].agent, cl.agents[k].edits, g)
      {
        forall i | 0 <= i < |cl.agents[k].edits|
          ensures Item(cl.agents[k].agent, i, cl.agents[k].edits[i]) in Flat(cl)
        {
          EditIsItem(cl.agents, k, i);
        }
        SameEdits(cl.agents[k].agent, cl.agents[k].edits, f, g);
      }
      forall i | 0 <= i < |cl.preamble| ensures Item(PREAMBLE, i, cl.preamble[i]) in Flat(cl) {
        var last := ItemsOf(PREAMBLE, cl.preamble, 0);
        assert last[i] == Item(PREAMBLE, i, cl.preamble[i]) && last[i] in last;
      }
      SameEdits(PREAMBLE, cl.preamble, f, g);
    }
  }

  // ---------------------------------------------------------------- whose verdict an edit gets

  /** The verdict of an item's own refutation; none when the refutation failed. */
  function OwnVerdict(refute: Item -> Outcome<Verdict>): Item -> Option<Verdict> {
    (it: Item) => if refute(it).Returned? then Some(refute(it).value) else None
  }

  /** The changelist with each edit's own verdict. */
  ghost function Judgement(cl: Changelist, refute: Item -> Outcome<Verdict>): Changelist {
    WithVerdicts(cl, OwnVerdict(refute))
  }

  ghost predicate NoneExhausts(items: seq<Item>, refute: Item -> Outcome<Verdict>) {
    forall it :: it in items ==> !refute(it).Exhausted?
  }

  /** The item that stands for an id: the last one given it. */
  function StandsFor(items: seq<Item>, it: Item): Item {
    var m := ById(Ids(items), items);
    if Key(it.agent, it.idx) in m then m[Key(it.agent, it.idx)] else it
  }

  lemma {:induction false} ByIdIn<T>(ids: seq<Id>, items: seq<T>, id: Id)
    requires |ids| == |items| && id in ids
    ensures exists k :: 0 <= k < |ids| && ids[k] == id && items[k] == ById(ids, items)[id]
  {
    var last := |ids| - 1;
    if ids[last] != id {
      assert ids == ids[..last] + [ids[last]];
      ByIdIn(ids[..last], items[..last], id);
      var k :| 0 <= k < last && ids[..last][k] == id && items[..last][k] == ById(ids[..last], items[..last])[id];
      assert ids[k] == id && items[k] == ById(ids, items)[id];
    }
  }

  /** It has the same agent and place, and is one of the items. */
  lemma StandsForOne(items: seq<Item>, it: Item)
    requires it in items
    ensures var s := StandsFor(items, it);
            s in items && s.agent == it.agent && s.idx == it.idx
            && Key(it.agent, it.idx) in Ids(items) && ById(Ids(items), items)[Key(it.agent, it.idx)] == s
  {
    hide Key;
    var p :| 0 <= p < |items| && items[p] == it;
    assert Ids(items)[p] == Key(it.agent, it.idx);
    ByIdIn(Ids(items), items, Key(it.agent, it.idx));
    var k :| 0 <= k < |items| && Ids(items)[k] == Key(it.agent, it.idx) && items[k] == ById(Ids(items), items)[Key(it.agent, it.idx)];
    KeyInjective(it.agent, it.idx, items[k].agent, items[k].idx);
  }

  lemma WorkIs(items: seq<Item>, refute: Item -> Outcome<Verdict>, it: Item)
    requires it in items
    ensures RefuteWork(items, refute)(Key(it.agent, it.idx)) ==
            match refute(StandsFor(items, it))
            case Returned(v) => Returned(JudgedItem(it.agent, it.idx, v))
            case Raised(e) => Raised(e)
            case Exhausted => Exhausted
  {
    StandsForOne(items, it);
    hide Key, Ids, StandsFor;
  }

  lemma IdIsItem(items: seq<Item>, id: Id)
    requires id in Ids(items)
    ensures exists it :: it in items && Key(it.agent, it.idx) == id
  {
    var p :| 0 <= p < |Ids(items)| && Ids(items)[p] == id;
    assert items[p] in items;
  }

  lemma WorkNeverExhausts(items: seq<Item>, refute: Item -> Outcome<Verdict>)
    requires NoneExhausts(items, refute)
    ensures forall id :: id in Ids(items) ==> !RefuteWork(items, refute)(id).Exhausted?
  {
    hide RefuteWork, Ids, Key, StandsFor;
    forall id | id in Ids(items) ensures !RefuteWork(items, refute)(id).Exhausted? {
      IdIsItem(items, id);
      var it :| it in items && Key(it.agent, it.idx) == id;
      WorkIs(items, refute, it);
      StandsForOne(items, it);
    }
  }

  lemma {:induction false} MapHas(records: seq<Record<JudgedItem>>, agent: string, idx: nat)
    ensures var m := VerdictMap(records);
            (agent, idx) in m ==>
              exists k :: 0 <= k < |records| && records[k] == Produced(JudgedItem(agent, idx, m[(agent, idx)]))
    ensures (exists k :: 0 <= k < |records| && records[k].Produced? && records[k].value.agent == agent && records[k].value.idx == idx)
            ==> (agent, idx) in VerdictMap(records)
  {
    if records != [] {
      var init := records[..|records| - 1];
      MapHas(init, agent, idx);
      var last := records[|records| - 1];
      if (agent, idx) in VerdictMap(records) {
        if last.Produced? && last.value.agent == agent && last.value.idx == idx {
          assert records[|records| - 1] == Produced(JudgedItem(agent, idx, VerdictMap(records)[(agent, idx)]));
        } else {
          var k :| 0 <= k < |init| && init[k] == Produced(JudgedItem(agent, idx, VerdictMap(init)[(agent, idx)]));
          assert records[k] == init[k];
        }
      }
      forall k | 0 <= k < |records| && records[k].Produced? && records[k].value.agent == agent && records[k].value.idx == idx
        ensures (agent, idx) in VerdictMap(records)
      {
        if k < |init| {
          assert init[k] == records[k];
        }
      }
    }
  }

  /** Every id was refuted to the end. */
  ghost predicate Heard(items: seq<Item>, refute: Item -> Outcome<Verdict>) {
    forall id :: id in Ids(items) ==> !RefuteWork(items, refute)(id).Exhausted?
  }

  /** The records of a complete third stage. */
  ghost function StageRecords(items: seq<Item>, refute: Item -> Outcome<Verdict>): seq<Record<JudgedItem>>
    requires Heard(items, refute)
  {
    AllRecords(Ids(items), RefuteWork(items, refute))
  }

  lemma RecordAt(items: seq<Item>, refute: Item -> Outcome<Verdict>, k: nat)
    requires Heard(items, refute) && k < |items|
    ensures |StageRecords(items, refute)| == |items|
    ensures var r := StageRecords(items, refute)[k];
            if refute(StandsFor(items, items[k])).Returned?
            then r == Produced(JudgedItem(items[k].agent, items[k].idx, refute(StandsFor(items, items[k])).value))
            else r.Failed?
  {
    hide RefuteWork, Key, StandsFor;
    WorkIs(items, refute, items[k]);
    assert Ids(items)[k] == Key(items[k].agent, items[k].idx);
    StandsForOne(items, items[k]);
  }

  /** In any changelist, each edit gets the verdict of the item that stands for its id. */
  lemma VerdictIs(items: seq<Item>, refute: Item -> Outcome<Verdict>, it: Item)
    requires Heard(items, refute) && it in items
    ensures VerdictAt(VerdictMap(StageRecords(items, refute)), it.agent, it.idx) == OwnVerdict(refute)(StandsFor(items, it))
  {
    hide VerdictMap, StageRecords, Heard, StandsFor;
    var records := StageRecords(items, refute);
    var p :| 0 <= p < |items| && items[p] == it;
    RecordAt(items, refute, p);
    MapHas(records, it.agent, it.idx);
    if (it.agent, it.idx) in VerdictMap(records) {
      var k :| 0 <= k < |records| && records[k] == Produced(JudgedItem(it.agent, it.idx, VerdictMap(records)[(it.agent, it.idx)]));
      RecordAt(items, refute, k);
      SameStands(items, items[k], it);
    }
  }

  lemma SameStands(items: seq<Item>, a: Item, b: Item)
    requires a in items && b in items && a.agent == b.agent && a.idx == b.idx
    ensures StandsFor(items, a) == StandsFor(items, b)
  {
    StandsForOne(items, a);
    StandsForOne(items, b);
    hide Key, Ids;
  }

  /** What the third stage and `_attach` make of a changelist. */
  ghost function DecidedBy(cl: Changelist, refute: Item -> Outcome<Verdict>): Changelist
    requires Heard(Flat(cl), refute)
  {
    Decided(cl, VerdictMap(StageRecords(Flat(cl), refute)))
  }

  lemma DecidedIsWith(cl: Changelist, m: map<(string, nat), Verdict>)
    ensures Decided(cl, m) == WithVerdicts(cl, (it: Item) => VerdictAt(m, it.agent, it.idx))
  {
    var f := (it: Item) => VerdictAt(m, it.agent, it.idx);
    forall k | 0 <= k < |cl.agents|
      ensures Attached(m, cl.agents[k].agent, cl.agents[k].edits) == EditsWith(cl.agents[k].agent, cl.agents[k].edits, f)
    {
    }
    assert Attached(m, PREAMBLE, cl.preamble) == EditsWith(PREAMBLE, cl.preamble, f);
    hide Attached, EditsWith;
  }

  /** For every changelist, repeated agents or not: each edit ends with the verdict of the last
      item that has its agent and place. */
  lemma DecidedByLast(cl: Changelist, refute: Item -> Outcome<Verdict>)
    requires Heard(Flat(cl), refute)
    ensures DecidedBy(cl, refute) == WithVerdicts(cl, (it: Item) => OwnVerdict(refute)(StandsFor(Flat(cl), it)))
  {
    hide Flat, StandsFor, OwnVerdict, VerdictMap, StageRecords, Decided, WithVerdicts, VerdictAt, Heard;
    var m := VerdictMap(StageRecords(Flat(cl), refute));
    var f, g := (it: Item) => VerdictAt(m, it.agent, it.idx), (it: Item) => OwnVerdict(refute)(StandsFor(Flat(cl), it));
    DecidedIsWith(cl, m);
    forall it | it in Flat(cl) ensures f(it) == g(it) { VerdictIs(Flat(cl), refute, it); }
    SameVerdictsIff(cl, f, g);
  }

  /** Items with one id are one item: no two different edits share an agent and a place. */
  ghost predicate IdsMeanItems(cl: Changelist) {
    forall i, j :: 0 <= i < j < |Flat(cl)| && Ids(Flat(cl))[i] == Ids(Flat(cl))[j] ==> Flat(cl)[i] == Flat(cl)[j]
  }

  lemma StandsForItself(cl: Changelist)
    ensures IdsMeanItems(cl) <==> forall it :: it in Flat(cl) ==> StandsFor(Flat(cl), it) == it
  {
    hide Flat, Key;
    var items := Flat(cl);
    ItemsKeepTheirIds(Ids(items), items);
    forall i | 0 <= i < |items| ensures ById(Ids(items), items)[Ids(items)[i]] == StandsFor(items, items[i]) {
      StandsForOne(items, items[i]);
    }
    if forall it :: it in items ==> StandsFor(items, it) == it {
      forall i | 0 <= i < |items| ensures ById(Ids(items), items)[Ids(items)[i]] == items[i] {
        assert items[i] in items;
      }
    }
  }

  /** Every edit gets its own verdict, whatever the skeptics say, exactly when no two different
      edits share an id. */
  lemma OwnVerdictsIff(cl: Changelist)
    ensures (forall refute :: NoneExhausts(Flat(cl), refute) ==> Heard(Flat(cl), refute) && DecidedBy(cl, refute) == Judgement(cl, refute))
            <==> IdsMeanItems(cl)
  {
    hide Flat, StandsFor, WithVerdicts, IdsMeanItems, DecidedBy, NoneExhausts, Heard;
    StandsForItself(cl);
    forall refute | NoneExhausts(Flat(cl), refute) ensures Heard(Flat(cl), refute) { EveryoneHeard(Flat(cl), refute); }
    forall refute | NoneExhausts(Flat(cl), refute)
      ensures DecidedBy(cl, refute) == Judgement(cl, refute) <==>
              forall it :: it in Flat(cl) ==> OwnVerdict(refute)(StandsFor(Flat(cl), it)) == OwnVerdict(refute)(it)
    {
      DecidedByLast(cl, refute);
      SameVerdictsIff(cl, (it: Item) => OwnVerdict(refute)(StandsFor(Flat(cl), it)), OwnVerdict(refute));
    }
    if !IdsMeanItems(cl) {
      var it :| it in Flat(cl) && StandsFor(Flat(cl), it) != it;
      var refute := (x: Item) => if x == it then Raised("") else Returned(Verdict(Null, Null, Null, Null));
      assert NoneExhausts(Flat(cl), refute) by { Harmless(Flat(cl), it); }
      assert OwnVerdict(refute)(StandsFor(Flat(cl), it)) != OwnVerdict(refute)(it);
    }
  }

  lemma EveryoneHeard(items: seq<Item>, refute: Item -> Outcome<Verdict>)
    requires NoneExhausts(items, refute)
    ensures Heard(items, refute)
  {
    WorkNeverExhausts(items, refute);
  }

  /** Then the decision is the judgement, as soon as everyone was heard. */
  lemma DecidedIsJudgement(cl: Changelist, refute: Item -> Outcome<Verdict>)
    requires IdsMeanItems(cl) && Heard(Flat(cl), refute)
    ensures DecidedBy(cl, refute) == Judgement(cl, refute)
  {
    hide Flat, StandsFor, WithVerdicts, IdsMeanItems, DecidedBy, Heard, OwnVerdict;
    StandsForItself(cl);
    DecidedByLast(cl, refute);
    SameVerdictsIff(cl, (it: Item) => OwnVerdict(refute)(StandsFor(Flat(cl), it)), OwnVerdict(refute));
  }

  lemma Harmless(items: seq<Item>, it: Item)
    ensures NoneExhausts(items, (x: Item) => if x == it then Raised("") else Returned(Verdict(Null, Null, Null, Null)))
  {
  }

  /** Different agents are enough, and so are repeated ones whose edits share no place. */
  lemma DifferentAgentsAreEnough(cl: Changelist)
    requires AgentsOk(cl)
    ensures IdsMeanItems(cl)
  {
    FlatApart(cl);
    hide Flat, Ids, Apart;
  }

  // ---------------------------------------------------------------- the counterexample

  /** Two changes for one agent share their ids: both edits end with the verdict of the later one. */
  lemma RepeatedAgentsShareVerdicts(agent: string, e: Edit, e': Edit, threshold: Json, refute: Item -> Outcome<Verdict>)
    requires refute(Item(agent, 0, e')).Returned?
    ensures var cl := Changelist([AgentChange(agent, threshold, [e], []), AgentChange(agent, threshold, [e'], [])], []);
            var v := refute(Item(agent, 0, e')).value;
            && Heard(Flat(cl), refute) && |DecidedBy(cl, refute).agents| == 2
            && DecidedBy(cl, refute).agents[0].edits == [e.(verdict := Some(v))]
            && DecidedBy(cl, refute).agents[1].edits == [e'.(verdict := Some(v))]
            && (IdsMeanItems(cl) <==> e == e')
  {
    var cl := Changelist([AgentChange(agent, threshold, [e], []), AgentChange(agent, threshold, [e'], [])], []);
    RepeatedItems(agent, e, e', threshold);
    var x, y := Item(agent, 0, e), Item(agent, 0, e');
    hide Flat, RefuteWork, StageRecords, VerdictMap, Decided, DecidedBy, StandsFor, Key;
    assert Ids([x, y]) == [Key(agent, 0), Key(agent, 0)];
    LastStands(x, y);
    assert x in [x, y] && y in [x, y];
    WorkIs([x, y], refute, y);
    assert Heard([x, y], refute);
    DecidedByLast(cl, refute);
    var f := (it: Item) => OwnVerdict(refute)(StandsFor([x, y], it));
    OwnOf(refute, y);
    assert f(x) == f(y) && f(y) == Some(refute(y).value);
    assert EditsWith(agent, [e], f) == [e.(verdict := f(x))];
    assert EditsWith(agent, [e'], f) == [e'.(verdict := f(y))];
  }

  lemma OwnOf(refute: Item -> Outcome<Verdict>, it: Item)
    ensures OwnVerdict(refute)(it) == if refute(it).Returned? then Some(refute(it).value) else None
  {
  }

  lemma LastStands(x: Item, y: Item)
    requires x.agent == y.agent && x.idx == y.idx
    ensures StandsFor([x, y], x) == y && StandsFor([x, y], y) == y
  {
    hide Key;
    ByIdIsLast(Ids([x, y]), [x, y], 1);
    assert Ids([x, y])[1] == Key(y.agent, y.idx);
  }

  lemma RepeatedItems(agent: string, e: Edit, e': Edit, threshold: Json)
    ensures Flat(Changelist([AgentChange(agent, threshold, [e], []), AgentChange(agent, threshold, [e'], [])], [])) ==
            [Item(agent, 0, e), Item(agent, 0, e')]
  {
    var a, a' := AgentChange(agent, threshold, [e], []), AgentChange(agent, threshold, [e'], []);
    var cl := Changelist([a, a'], []);
    assert cl.agents[1..] == [a'] && [a'][1..] == [];
    assert ItemsOf(agent, [e], 0) == [Item(agent, 0, e)] && ItemsOf(agent, [e'], 0) == [Item(agent, 0, e')];
    assert ItemsOf(PREAMBLE, [], 0) == [];
    assert AgentItems([a']) == [Item(agent, 0, e')];
  }

  // ---------------------------------------------------------------- dropped

  /** In the end an edit is dropped exactly when its skeptics were heard and no strict majority of
      them said that it is not refuted; an edit whose refutation failed stays. */
  lemma DroppedIffOutvoted(cl: Changelist, refute: Item -> Outcome<Verdict>, repr: Json -> string, skeptics: int, retries: int,
                           votes: Item -> nat -> Option<Json>, k: nat, i: nat)
    requires forall it :: refute(it).Returned? ==> refute(it).value == Refute.Judged(repr, skeptics, retries, votes(it))
    requires k < |cl.agents| && i < |cl.agents[k].edits|
    ensures var it := Item(cl.agents[k].agent, i, cl.agents[k].edits[i]);
            var judged := Judgement(cl, refute).agents[k].edits;
            && |judged| == |cl.agents[k].edits|
            && judged[i].(verdict := None) == cl.agents[k].edits[i].(verdict := None)
            && |Vetted(Judgement(cl, refute)).agents| == |cl.agents|
            && (judged[i] !in Vetted(Judgement(cl, refute)).agents[k].edits <==>
                  refute(it).Returned? && 2 * |Refute.Clearing(votes(it), if skeptics < 0 then 0 else skeptics)| <= skeptics)
  {
    var it := Item(cl.agents[k].agent, i, cl.agents[k].edits[i]);
    var judged := Judgement(cl, refute).agents[k].edits;
    assert judged[i].verdict == OwnVerdict(refute)(it) && judged[i] in judged;
    Refute.VerdictCounts(repr, skeptics, retries, votes(it));
    hide Refute.Clearing, Refute.Judged, Kept;
    KeptAgentsAt(Judgement(cl, refute).agents, k);
    KeptCount(judged);
  }
}

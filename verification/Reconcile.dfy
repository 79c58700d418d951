/** The reconciler's reply made into a changelist: thresholds spelt "null" become null, agent
    names become registry keys, and changes for unknown agents are dropped. */
module Reconcile {
  import opened Lists
  import opened Text
  import opened Json
  import opened JsonValues
  import opened Changelists
  import opened ReplyJson
  import Findings

  /** The registry keys, `str.lower`, and `str` on values that are not strings. */
  datatype Roster = Roster(known: set<string>, lower: string -> string, repr: Json -> string)

  const PREFIX := "review-"
  const THRESHOLD := "proposed_block_threshold"

  /** `_canonical_agent` */
  function CanonicalAgent(known: set<string>, name: string): Option<string> {
    var candidate := if Starts(name, PREFIX) then name[|PREFIX|..] else name;
    if candidate in known then Some(candidate) else None
  }

  /** A text that spells the absent threshold. */
  predicate SpellsNull(r: Roster, v: Json) {
    v.Text? && r.lower(Strip(v.s)) in {"null", "none", ""}
  }

  function Normalised(r: Roster, fields: seq<(string, Json)>): seq<(string, Json)> {
    if SpellsNull(r, Get(fields, THRESHOLD, Null)) then fields + [(THRESHOLD, Null)] else fields
  }

  function AgentName(r: Roster, fields: seq<(string, Json)>): Option<string> {
    CanonicalAgent(r.known, Findings.PyStr(r.repr, Get(fields, "agent", Json.Text(""))))
  }

  /** The changes that stay, edited in place: a normal threshold and the canonical name. */
  function KeptChanges(r: Roster, items: seq<Json>): Option<seq<Json>> {
    if items == [] then Some([])
    else if !items[0].Obj? then None
    else
      var rest := KeptChanges(r, items[1..]);
      if rest.None? then None
      else
        var name := AgentName(r, items[0].fields);
        if name.None? then rest
        else Some([Obj(Normalised(r, items[0].fields) + [("agent", Json.Text(name.value))])] + rest.value)
  }

  /** What `for a in parsed.get("agents", [])` runs over; None is an exception. */
  function Iterated(v: Json): Option<seq<Json>> {
    if v.Arr? then Some(v.items) else if v == Obj([]) || v == Json.Text("") then Some([]) else None
  }

  function Reconciled(r: Roster, parsed: Json): Option<Changelist> {
    if !parsed.Obj? then None
    else
      var items := Iterated(Get(parsed.fields, "agents", Arr([])));
      if items.None? || KeptChanges(r, items.value).None? then None
      else FromJson(Obj(parsed.fields + [("agents", Arr(KeptChanges(r, items.value).value))]))
  }

  /** The two loops of `reconcile` over the parsed reply. */
  method ReconcileReply(r: Roster, parsed: Json) returns (cl: Option<Changelist>)
    ensures cl == Reconciled(r, parsed)
  {
    hide SpellsNull, AgentName, FromJson, Get, Iterated, KeptChanges, Normalised, Findings.PyStr, CanonicalAgent;
    if !parsed.Obj? {
      return None;
    }
    var items := Iterated(Get(parsed.fields, "agents", Arr([])));
    if items.None? {
      return None;
    }
    var changes := items.value;
    var all := changes;
    for i := 0 to |all|
      invariant |changes| == |all|
      invariant forall k :: 0 <= k < i ==> all[k].Obj? && changes[k] == Obj(Normalised(r, all[k].fields))
      invariant forall k :: i <= k < |all| ==> changes[k] == all[k]
    {
      if !all[i].Obj? {
        NotAllObjects(r, all, i);
        return None;
      }
      NormalisedIs(r, all[i].fields);
      if SpellsNull(r, Get(all[i].fields, THRESHOLD, Null)) {
        changes := changes[i := Obj(all[i].fields + [(THRESHOLD, Null)])];
      }
    }
    var kept: seq<Json> := [];
    assert all[0..] == all;
    KeptSome(r, all);
    for i := 0 to |all|
      invariant KeptChanges(r, all[i..]).Some?
      invariant kept + KeptChanges(r, all[i..]).value == KeptChanges(r, all).value
    {
      KeptStep(r, all, i);
      NameIsKept(r, all[i].fields);
      var name := AgentName(r, changes[i].fields);
      if name.Some? {
        kept := kept + [Obj(changes[i].fields + [("agent", Json.Text(name.value))])];
      }
    }
    KeptNone(r, all[|all|..]);
    assert kept + [] == kept;
    cl := FromJson(Obj(parsed.fields + [("agents", Arr(kept))]));
  }

  /** `reconcile` after the call: finding the JSON in the reply, then the loops. */
  method ReconcileText(r: Roster, text: string) returns (cl: Option<Changelist>)
    ensures cl == if ExtractJson(text).None? then None else Reconciled(r, ExtractJson(text).value)
  {
    var parsed := ExtractJson(text);
    if parsed.None? {
      return None;
    }
    cl := ReconcileReply(r, parsed.value);
  }

  lemma NormalisedIs(r: Roster, fields: seq<(string, Json)>)
    ensures Normalised(r, fields) == if SpellsNull(r, Get(fields, THRESHOLD, Null)) then fields + [(THRESHOLD, Null)] else fields
  {
  }

  lemma KeptNone(r: Roster, items: seq<Json>)
    requires items == []
    ensures KeptChanges(r, items) == Some([])
  {
  }

  lemma KeptStep(r: Roster, all: seq<Json>, i: nat)
    requires i < |all| && all[i].Obj? && KeptChanges(r, all[i..]).Some?
    ensures KeptChanges(r, all[i + 1..]).Some?
    ensures var name := AgentName(r, all[i].fields);
            KeptChanges(r, all[i..]).value ==
            (if name.None? then [] else [Obj(Normalised(r, all[i].fields) + [("agent", Json.Text(name.value))])])
            + KeptChanges(r, all[i + 1..]).value
  {
    hide AgentName, Normalised;
    assert all[i..][1..] == all[i + 1..];
  }

  lemma {:induction false} NotAllObjects(r: Roster, items: seq<Json>, i: nat)
    requires i < |items| && !items[i].Obj?
    ensures KeptChanges(r, items).None?
  {
    hide AgentName, Normalised;
    if i > 0 {
      NotAllObjects(r, items[1..], i - 1);
    }
  }

  lemma {:induction false} KeptSome(r: Roster, items: seq<Json>)
    requires forall i :: 0 <= i < |items| ==> items[i].Obj?
    ensures KeptChanges(r, items).Some?
  {
    hide AgentName, Normalised;
    if items != [] {
      KeptSome(r, items[1..]);
    }
  }

  /** The threshold does not disturb the name. */
  lemma NameIsKept(r: Roster, fields: seq<(string, Json)>)
    ensures AgentName(r, Normalised(r, fields)) == AgentName(r, fields)
  {
    FieldLast(fields, (THRESHOLD, Null), "agent");
    Differ("agent", THRESHOLD, 0);
    hide SpellsNull, CanonicalAgent, Field;
  }

  // ---------------------------------------------------------------- what a reconciled list is

  ghost predicate ChangeOk(r: Roster, a: AgentChange) {
    a.agent in r.known && !SpellsNull(r, a.threshold)
  }

  lemma NullSpellsNothing(r: Roster)
    ensures !SpellsNull(r, Null)
  {
  }

  lemma ChangeIsOk(r: Roster, fields: seq<(string, Json)>, name: string)
    requires AgentName(r, fields) == Some(name)
    ensures var a := ReadAgent(Obj(Normalised(r, fields) + [("agent", Json.Text(name))]));
            a.Some? ==> ChangeOk(r, a.value) && a.value.agent == name
  {
    var f := Normalised(r, fields);
    assert name in r.known by { CanonicalIsKnown(r, fields); }
    FieldLast(f, ("agent", Json.Text(name)), "agent");
    FieldLast(f, ("agent", Json.Text(name)), THRESHOLD);
    FieldLast(fields, (THRESHOLD, Null), THRESHOLD);
    Differ("agent", THRESHOLD, 0);
    NullSpellsNothing(r);
    hide Field, SpellsNull, AgentName, ReadEdits;
  }

  lemma CanonicalIsKnown(r: Roster, fields: seq<(string, Json)>)
    ensures AgentName(r, fields).Some? ==> AgentName(r, fields).value in r.known
  {
  }

  lemma {:induction false} ChangesAreOk(r: Roster, items: seq<Json>)
    ensures KeptChanges(r, items).Some? && ReadAgents(KeptChanges(r, items).value).Some? ==>
              var agents := ReadAgents(KeptChanges(r, items).value).value;
              && |agents| <= |items|
              && forall k :: 0 <= k < |agents| ==> ChangeOk(r, agents[k])
  {
    hide AgentName, Normalised, ReadAgent, ChangeOk;
    if items != [] && items[0].Obj? {
      ChangesAreOk(r, items[1..]);
      var rest, name := KeptChanges(r, items[1..]), AgentName(r, items[0].fields);
      if rest.Some? && name.Some? {
        ChangeIsOk(r, items[0].fields, name.value);
        var first := Obj(Normalised(r, items[0].fields) + [("agent", Json.Text(name.value))]);
        assert ([first] + rest.value)[1..] == rest.value;
      }
    }
  }

  /** Every change of a reconciled list is for an agent of the registry and has no threshold that
      merely spells null. */
  lemma ReconciledIsClean(r: Roster, parsed: Json)
    requires Reconciled(r, parsed).Some?
    ensures forall k :: 0 <= k < |Reconciled(r, parsed).value.agents| ==> ChangeOk(r, Reconciled(r, parsed).value.agents[k])
  {
    hide KeptChanges, ReadAgents, ReadEdits, ChangeOk, Field;
    var items := Iterated(Get(parsed.fields, "agents", Arr([]))).value;
    var kept := KeptChanges(r, items).value;
    ChangesAreOk(r, items);
    FieldLast(parsed.fields, ("agents", Arr(kept)), "agents");
  }

  // ---------------------------------------------------------------- from the reply's text to the list

  /** A change as reconciling leaves it: under its agent's key, with a threshold that is none. */
  function TidyChange(r: Roster, a: AgentChange, name: string): AgentChange {
    a.(agent := name, threshold := if SpellsNull(r, a.threshold) then Null else a.threshold)
  }

  function TidyChanges(r: Roster, agents: seq<AgentChange>): seq<AgentChange> {
    if agents == [] then []
    else
      var name := CanonicalAgent(r.known, agents[0].agent);
      (if name.None? then [] else [TidyChange(r, agents[0], name.value)]) + TidyChanges(r, agents[1..])
  }

  lemma PrintedField(a: AgentChange, key: string)
    ensures Field(AgentFields(a), key) == AgentField(a, key)
  {
    hide EditsJson, Field;
    AgentNames();
    Fields4(("agent", Json.Text(a.agent)), ("proposed_block_threshold", a.threshold), ("edits", Arr(EditsJson(a.edits))),
            ("fixture_verdicts", Obj(a.fixtures)), key);
  }

  lemma PrintedName(r: Roster, a: AgentChange)
    ensures AgentName(r, AgentFields(a)) == CanonicalAgent(r.known, a.agent)
  {
    PrintedField(a, "agent");
    AgentNames();
    hide Field, AgentFields, CanonicalAgent;
  }

  lemma ChangeTidied(r: Roster, a: AgentChange, name: string)
    ensures ReadAgent(Obj(Normalised(r, AgentFields(a)) + [("agent", Json.Text(name))])) == Some(TidyChange(r, a, name))
  {
    var fields := AgentFields(a);
    var f := Normalised(r, fields);
    AgentNames();
    EditsReadBack(a.edits);
    forall key
      ensures Field(f + [("agent", Json.Text(name))], key) == AgentField(TidyChange(r, a, name), key)
    {
      PrintedField(a, key);
      PrintedField(a, THRESHOLD);
      FieldLast(f, ("agent", Json.Text(name)), key);
      FieldLast(fields, (THRESHOLD, Null), key);
      hide Field, SpellsNull, EditsJson, AgentFields;
    }
    hide Field, SpellsNull, EditsJson, AgentFields, ReadEdits, Normalised;
  }

  lemma {:induction false} ChangesTidied(r: Roster, agents: seq<AgentChange>)
    ensures var kept := KeptChanges(r, AgentsJson(agents));
            kept.Some? && ReadAgents(kept.value) == Some(TidyChanges(r, agents))
  {
    hide AgentName, Normalised, ReadAgent, AgentFields, CanonicalAgent, TidyChange;
    if agents != [] {
      ChangesTidied(r, agents[1..]);
      PrintedName(r, agents[0]);
      assert AgentsJson(agents)[1..] == AgentsJson(agents[1..]);
      var rest, name := KeptChanges(r, AgentsJson(agents[1..])).value, CanonicalAgent(r.known, agents[0].agent);
      if name.Some? {
        ChangeTidied(r, agents[0], name.value);
        var first := Obj(Normalised(r, AgentFields(agents[0])) + [("agent", Json.Text(name.value))]);
        assert ([first] + rest)[1..] == rest;
      } else {
        assert TidyChanges(r, agents) == TidyChanges(r, agents[1..]);
      }
    }
  }

  /** A reply that holds a changelist is reconciled to that changelist: the same edits in the same
      order, each under its agent's key, without the changes for unknown agents. */
  lemma ReplyIsTidied(r: Roster, cl: Changelist)
    ensures Reconciled(r, ToJson(cl)) == Some(Changelist(TidyChanges(r, cl.agents), cl.preamble))
  {
    var fields := ToJson(cl).fields;
    var agents, preamble := Arr(AgentsJson(cl.agents)), Arr(EditsJson(cl.preamble));
    AgentNames();
    Fields2(("agents", agents), ("preamble_edits", preamble), "agents");
    Fields2(("agents", agents), ("preamble_edits", preamble), "preamble_edits");
    ChangesTidied(r, cl.agents);
    EditsReadBack(cl.preamble);
    hide AgentsJson, EditsJson, ReadAgents, ReadEdits, Field, KeptChanges, TidyChanges;
    var kept := Arr(KeptChanges(r, AgentsJson(cl.agents)).value);
    FieldLast(fields, ("agents", kept), "agents");
    FieldLast(fields, ("agents", kept), "preamble_edits");
  }

  /** The key of a name: the name less `review-` in front of it, if that is a key. */
  lemma CanonicalIff(known: set<string>, name: string, key: string)
    ensures CanonicalAgent(known, name) == Some(key) <==>
            key in known && (name == "review-" + key || (name == key && !exists x :: name == "review-" + x))
  {
    assert Starts(name, PREFIX) <==> exists x :: name == "review-" + x by {
      if Starts(name, PREFIX) {
        assert name == "review-" + name[|PREFIX|..];
      }
      if x :| name == "review-" + x {
        assert name[..|PREFIX|] == PREFIX;
      }
    }
    if x :| name == "review-" + x {
      assert name[|PREFIX|..] == x;
    }
    if name == "review-" + key {
      assert name[|PREFIX|..] == key;
    }
  }

  /** Change by change: kept under its key, with a threshold that spells none made null, or dropped
      when its name has no key. */
  lemma {:induction false} TidiedOneByOne(r: Roster, agents: seq<AgentChange>, a: AgentChange)
    ensures TidyChanges(r, []) == []
    ensures CanonicalAgent(r.known, a.agent).None? ==> TidyChanges(r, agents + [a]) == TidyChanges(r, agents)
    ensures forall key :: CanonicalAgent(r.known, a.agent) == Some(key) ==>
              TidyChanges(r, agents + [a]) == TidyChanges(r, agents) +
                [AgentChange(key, if a.threshold.Text? && r.lower(Strip(a.threshold.s)) in {"null", "none", ""} then Null else a.threshold,
                             a.edits, a.fixtures)]
  {
    hide CanonicalAgent, Strip;
    var more := agents + [a];
    if agents == [] {
      assert more == [a] && more[1..] == [];
    } else {
      TidiedOneByOne(r, agents[1..], a);
      assert more[0] == agents[0] && more[1..] == agents[1..] + [a];
    }
  }

  /** Canonical names do not merge: `x` and `review-x` are two changes for one agent. */
  lemma CanonicalDoesNotMerge(known: set<string>, x: string)
    requires x in known && !Starts(x, PREFIX)
    ensures CanonicalAgent(known, x) == CanonicalAgent(known, PREFIX + x) == Some(x)
  {
    assert (PREFIX + x)[..|PREFIX|] == PREFIX && (PREFIX + x)[|PREFIX|..] == x;
  }
}

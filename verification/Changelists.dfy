/** The changelist the audit stages hand on, as a JSON document and as the vetted selection. The
    fields are whatever JSON the model put there; nothing checks them on the way in. */
module Changelists {
  import opened Lists
  import opened Text
  import opened Json
  import opened JsonValues
  import Manifest
  import Findings

  datatype Verdict = Verdict(refuted: Json, votes: Json, refutation: Json, failures: Json)

  datatype Edit = Edit(target: Json, rationale: Json, before: Json, after: Json, path: Json, verdict: Option<Verdict>)

  datatype AgentChange = AgentChange(agent: string, threshold: Json, edits: seq<Edit>, fixtures: seq<(string, Json)>)

  datatype Changelist = Changelist(agents: seq<AgentChange>, preamble: seq<Edit>)

  // ---------------------------------------------------------------- writing

  function VerdictFields(v: Verdict): seq<(string, Json)> {
    [] + [("refuted", v.refuted)] + [("votes", v.votes)] + [("refutation", v.refutation)] + [("parse_failures", v.failures)]
  }

  function VerdictJson(v: Option<Verdict>): Json {
    if v.None? then Null else Obj(VerdictFields(v.value))
  }

  function EditFields(e: Edit): seq<(string, Json)> {
    [] + [("target", e.target)] + [("rationale", e.rationale)] + [("before", e.before)] + [("after", e.after)]
    + [("path", e.path)] + [("verdict", VerdictJson(e.verdict))]
  }

  function EditsJson(es: seq<Edit>): seq<Json> {
    if es == [] then [] else [Obj(EditFields(es[0]))] + EditsJson(es[1..])
  }

  function AgentFields(a: AgentChange): seq<(string, Json)> {
    [] + [("agent", Json.Text(a.agent))] + [("proposed_block_threshold", a.threshold)]
    + [("edits", Arr(EditsJson(a.edits)))] + [("fixture_verdicts", Obj(a.fixtures))]
  }

  function AgentsJson(agents: seq<AgentChange>): seq<Json> {
    if agents == [] then [] else [Obj(AgentFields(agents[0]))] + AgentsJson(agents[1..])
  }

  /** `to_dict` */
  function ToJson(cl: Changelist): Json {
    Obj([] + [("agents", Arr(AgentsJson(cl.agents)))] + [("preamble_edits", Arr(EditsJson(cl.preamble)))])
  }

  // ---------------------------------------------------------------- reading; None is an exception

  function Get(fields: seq<(string, Json)>, key: string, default: Json): Json {
    var v := Field(fields, key);
    if v.Some? then v.value else default
  }

  predicate VerdictKey(key: string) {
    key == "refuted" || key == "votes" || key == "refutation" || key == "parse_failures"
  }

  /** `Verdict(**v) if v else None` */
  function ReadVerdict(v: Json): Option<Option<Verdict>> {
    if !Findings.Truthy(v) then Some(None)
    else if !v.Obj? || (exists i :: 0 <= i < |v.fields| && !VerdictKey(v.fields[i].0)) then None
    else if Field(v.fields, "refuted").None? || Field(v.fields, "votes").None? then None
    else Some(Some(Verdict(Field(v.fields, "refuted").value, Field(v.fields, "votes").value,
                           Get(v.fields, "refutation", Json.Text("")), Get(v.fields, "parse_failures", Int(0)))))
  }

  function ReadEdit(v: Json): Option<Edit> {
    if !v.Obj? then None
    else
      var target, rationale, before, after :=
        Field(v.fields, "target"), Field(v.fields, "rationale"), Field(v.fields, "before"), Field(v.fields, "after");
      var verdict := ReadVerdict(Get(v.fields, "verdict", Null));
      if target.None? || rationale.None? || before.None? || after.None? || verdict.None? then None
      else Some(Edit(target.value, rationale.value, before.value, after.value, Get(v.fields, "path", Null), verdict.value))
  }

  function ReadEdits(vs: seq<Json>): Option<seq<Edit>> {
    if vs == [] then Some([])
    else
      var e, rest := ReadEdit(vs[0]), ReadEdits(vs[1..]);
      if e.None? || rest.None? then None else Some([e.value] + rest.value)
  }

  function ReadAgent(v: Json): Option<AgentChange> {
    if !v.Obj? then None
    else
      var agent := Field(v.fields, "agent");
      var edits, fixtures := Get(v.fields, "edits", Arr([])), Get(v.fields, "fixture_verdicts", Obj([]));
      if agent.None? || !agent.value.Text? || !edits.Arr? || !fixtures.Obj? || ReadEdits(edits.items).None? then None
      else Some(AgentChange(agent.value.s, Get(v.fields, "proposed_block_threshold", Null), ReadEdits(edits.items).value,
                            fixtures.fields))
  }

  function ReadAgents(vs: seq<Json>): Option<seq<AgentChange>> {
    if vs == [] then Some([])
    else
      var a, rest := ReadAgent(vs[0]), ReadAgents(vs[1..]);
      if a.None? || rest.None? then None else Some([a.value] + rest.value)
  }

  /** `from_dict` */
  function FromJson(v: Json): Option<Changelist> {
    if !v.Obj? then None
    else
      var agents, preamble := Get(v.fields, "agents", Arr([])), Get(v.fields, "preamble_edits", Arr([]));
      if !agents.Arr? || !preamble.Arr? || ReadAgents(agents.items).None? || ReadEdits(preamble.items).None? then None
      else Some(Changelist(ReadAgents(agents.items).value, ReadEdits(preamble.items).value))
  }

  // ---------------------------------------------------------------- the round trip

  lemma Fields2(a: (string, Json), b: (string, Json), key: string)
    ensures Field([] + [a] + [b], key) == if b.0 == key then Some(b.1) else if a.0 == key then Some(a.1) else None
  {
    FieldLast([], a, key);
    FieldLast([] + [a], b, key);
  }

  lemma Fields4(a: (string, Json), b: (string, Json), c: (string, Json), d: (string, Json), key: string)
    ensures Field([] + [a] + [b] + [c] + [d], key) ==
            if d.0 == key then Some(d.1) else if c.0 == key then Some(c.1) else if b.0 == key then Some(b.1)
            else if a.0 == key then Some(a.1) else None
  {
    Fields2(a, b, key);
    FieldLast([] + [a] + [b], c, key);
    FieldLast([] + [a] + [b] + [c], d, key);
    hide Field;
  }

  lemma Fields6(a: (string, Json), b: (string, Json), c: (string, Json), d: (string, Json), e: (string, Json), f: (string, Json), key: string)
    ensures Field([] + [a] + [b] + [c] + [d] + [e] + [f], key) ==
            if f.0 == key then Some(f.1) else if e.0 == key then Some(e.1) else if d.0 == key then Some(d.1)
            else if c.0 == key then Some(c.1) else if b.0 == key then Some(b.1) else if a.0 == key then Some(a.1) else None
  {
    Fields4(a, b, c, d, key);
    FieldLast([] + [a] + [b] + [c] + [d], e, key);
    FieldLast([] + [a] + [b] + [c] + [d] + [e], f, key);
    hide Field;
  }

  lemma VerdictNames()
    ensures "refuted" != "votes" && "refuted" != "refutation" && "refuted" != "parse_failures"
    ensures "votes" != "refutation" && "votes" != "parse_failures" && "refutation" != "parse_failures"
  {
    Differ("refuted", "votes", 0);
    Differ("refuted", "refutation", 0);
    Differ("refuted", "parse_failures", 0);
    Differ("votes", "refutation", 0);
    Differ("votes", "parse_failures", 0);
    Differ("refutation", "parse_failures", 0);
  }

  lemma VerdictReadsBack(v: Option<Verdict>)
    ensures ReadVerdict(VerdictJson(v)) == Some(v)
  {
    if v.Some? {
      var fs := VerdictFields(v.value);
      assert forall i :: 0 <= i < |fs| ==> VerdictKey(fs[i].0);
      VerdictNames();
      forall key ensures Field(fs, key) == VerdictField(v.value, key) {
        Fields4(("refuted", v.value.refuted), ("votes", v.value.votes), ("refutation", v.value.refutation),
                ("parse_failures", v.value.failures), key);
      }
      hide Field, VerdictFields;
    }
  }

  function VerdictField(v: Verdict, key: string): Option<Json> {
    if key == "parse_failures" then Some(v.failures) else if key == "refutation" then Some(v.refutation)
    else if key == "votes" then Some(v.votes) else if key == "refuted" then Some(v.refuted) else None
  }

  lemma EditNames()
    ensures "target" != "rationale" && "target" != "before" && "target" != "after" && "target" != "path" && "target" != "verdict"
    ensures "rationale" != "before" && "rationale" != "after" && "rationale" != "path" && "rationale" != "verdict"
    ensures "before" != "after" && "before" != "path" && "before" != "verdict"
    ensures "after" != "path" && "after" != "verdict" && "path" != "verdict"
  {
    Differ("target", "rationale", 0);
    Differ("target", "before", 0);
    Differ("target", "after", 0);
    Differ("target", "path", 0);
    Differ("target", "verdict", 0);
    Differ("rationale", "before", 0);
    Differ("rationale", "after", 0);
    Differ("rationale", "path", 0);
    Differ("rationale", "verdict", 0);
    Differ("before", "after", 0);
    Differ("before", "path", 0);
    Differ("before", "verdict", 0);
    Differ("after", "path", 0);
    Differ("after", "verdict", 0);
    Differ("path", "verdict", 0);
  }

  function EditField(e: Edit, key: string): Option<Json> {
    if key == "verdict" then Some(VerdictJson(e.verdict)) else if key == "path" then Some(e.path)
    else if key == "after" then Some(e.after) else if key == "before" then Some(e.before)
    else if key == "rationale" then Some(e.rationale) else if key == "target" then Some(e.target) else None
  }

  lemma EditReadsBack(e: Edit)
    ensures ReadEdit(Obj(EditFields(e))) == Some(e)
  {
    hide VerdictJson, ReadVerdict, Field;
    VerdictReadsBack(e.verdict);
    EditNames();
    forall key ensures Field(EditFields(e), key) == EditField(e, key) {
      Fields6(("target", e.target), ("rationale", e.rationale), ("before", e.before), ("after", e.after), ("path", e.path),
              ("verdict", VerdictJson(e.verdict)), key);
    }
    hide EditFields;
  }

  lemma {:induction false} EditsReadBack(es: seq<Edit>)
    ensures ReadEdits(EditsJson(es)) == Some(es)
  {
    hide EditFields, ReadEdit;
    if es != [] {
      EditReadsBack(es[0]);
      EditsReadBack(es[1..]);
      assert EditsJson(es)[1..] == EditsJson(es[1..]) && [es[0]] + es[1..] == es;
    }
  }

  lemma AgentNames()
    ensures "agent" != "proposed_block_threshold" && "agent" != "edits" && "agent" != "fixture_verdicts"
    ensures "proposed_block_threshold" != "edits" && "proposed_block_threshold" != "fixture_verdicts"
    ensures "edits" != "fixture_verdicts" && "agents" != "preamble_edits"
  {
    Differ("agent", "proposed_block_threshold", 0);
    Differ("agent", "edits", 0);
    Differ("agent", "fixture_verdicts", 0);
    Differ("proposed_block_threshold", "edits", 0);
    Differ("proposed_block_threshold", "fixture_verdicts", 0);
    Differ("edits", "fixture_verdicts", 0);
    Differ("agents", "preamble_edits", 0);
  }

  function AgentField(a: AgentChange, key: string): Option<Json> {
    if key == "fixture_verdicts" then Some(Obj(a.fixtures)) else if key == "edits" then Some(Arr(EditsJson(a.edits)))
    else if key == "proposed_block_threshold" then Some(a.threshold)
    else if key == "agent" then Some(Json.Text(a.agent)) else None
  }

  lemma AgentReadsBack(a: AgentChange)
    ensures ReadAgent(Obj(AgentFields(a))) == Some(a)
  {
    hide EditsJson, ReadEdits, Field;
    EditsReadBack(a.edits);
    AgentNames();
    forall key ensures Field(AgentFields(a), key) == AgentField(a, key) {
      Fields4(("agent", Json.Text(a.agent)), ("proposed_block_threshold", a.threshold), ("edits", Arr(EditsJson(a.edits))),
              ("fixture_verdicts", Obj(a.fixtures)), key);
    }
    hide AgentFields;
  }

  lemma {:induction false} AgentsReadBack(agents: seq<AgentChange>)
    ensures ReadAgents(AgentsJson(agents)) == Some(agents)
  {
    hide AgentFields, ReadAgent;
    if agents != [] {
      AgentReadsBack(agents[0]);
      AgentsReadBack(agents[1..]);
      assert AgentsJson(agents)[1..] == AgentsJson(agents[1..]) && [agents[0]] + agents[1..] == agents;
    }
  }

  /** `from_dict` undoes `to_dict` on every changelist. */
  lemma ChangelistReadsBack(cl: Changelist)
    ensures FromJson(ToJson(cl)) == Some(cl)
  {
    hide AgentsJson, EditsJson, ReadAgents, ReadEdits, Field;
    AgentsReadBack(cl.agents);
    EditsReadBack(cl.preamble);
    AgentNames();
    Fields2(("agents", Arr(AgentsJson(cl.agents))), ("preamble_edits", Arr(EditsJson(cl.preamble))), "agents");
    Fields2(("agents", Arr(AgentsJson(cl.agents))), ("preamble_edits", Arr(EditsJson(cl.preamble))), "preamble_edits");
  }

  /** What is read of fields that are missing: the first four of an edit, the first two of a verdict
      and the agent of a change are asked for, all others have a default. */
  lemma MissingFields(fields: seq<(string, Json)>)
    ensures ReadEdit(Obj(fields)).Some? ==>
              Field(fields, "target").Some? && Field(fields, "rationale").Some? && Field(fields, "before").Some? && Field(fields, "after").Some?
    ensures Field(fields, "path").None? && ReadEdit(Obj(fields)).Some? ==> ReadEdit(Obj(fields)).value.path == Null
    ensures Field(fields, "verdict").None? && ReadEdit(Obj(fields)).Some? ==> ReadEdit(Obj(fields)).value.verdict == None
    ensures Field(fields, "agent").None? ==> ReadAgent(Obj(fields)).None?
    ensures Field(fields, "proposed_block_threshold").None? && ReadAgent(Obj(fields)).Some? ==> ReadAgent(Obj(fields)).value.threshold == Null
    ensures Field(fields, "edits").None? && ReadAgent(Obj(fields)).Some? ==> ReadAgent(Obj(fields)).value.edits == []
    ensures Field(fields, "fixture_verdicts").None? && ReadAgent(Obj(fields)).Some? ==> ReadAgent(Obj(fields)).value.fixtures == []
    ensures Field(fields, "agents").None? && FromJson(Obj(fields)).Some? ==> FromJson(Obj(fields)).value.agents == []
    ensures Field(fields, "preamble_edits").None? && FromJson(Obj(fields)).Some? ==> FromJson(Obj(fields)).value.preamble == []
    ensures fields != [] && (Field(fields, "refuted").None? || Field(fields, "votes").None?) ==> ReadVerdict(Obj(fields)) == None
    ensures fields != [] && Field(fields, "refutation").None? && ReadVerdict(Obj(fields)).Some? ==>
              ReadVerdict(Obj(fields)).value.Some? && ReadVerdict(Obj(fields)).value.value.refutation == Json.Text("")
    ensures fields != [] && Field(fields, "parse_failures").None? && ReadVerdict(Obj(fields)).Some? ==>
              ReadVerdict(Obj(fields)).value.Some? && ReadVerdict(Obj(fields)).value.value.failures == Int(0)
  {
    hide Field;
    assert ReadEdits([]) == Some([]) && ReadAgents([]) == Some([]);
  }

  /** The stage-2 file. */
  function Dumps(cl: Changelist): string {
    Print(ToJson(cl), Manifest.Indented(), 0)
  }

  function ReadFile(text: string): Option<Changelist> {
    var v := Loads(text);
    if v.Bad? then None else FromJson(v.value)
  }

  /** A resumed run reads back the changelist that was written. */
  lemma FileReadsBack(cl: Changelist)
    ensures ReadFile(Dumps(cl)) == Some(cl)
  {
    hide ToJson, FromJson, Loads, Print;
    Manifest.StylesOk();
    LoadsOfPrint(ToJson(cl), Manifest.Indented());
    ChangelistReadsBack(cl);
  }

  // ---------------------------------------------------------------- vetting

  /** A verdict marked it refuted. */
  predicate Dropped(e: Edit) {
    e.verdict.Some? && Findings.Truthy(e.verdict.value.refuted)
  }

  function Kept(es: seq<Edit>): seq<Edit> {
    if es == [] then [] else (if Dropped(es[0]) then [] else [es[0]]) + Kept(es[1..])
  }

  function Refuted(es: seq<Edit>): seq<Edit> {
    if es == [] then [] else (if Dropped(es[0]) then [es[0]] else []) + Refuted(es[1..])
  }

  function KeptAgents(agents: seq<AgentChange>): seq<AgentChange> {
    if agents == [] then [] else [agents[0].(edits := Kept(agents[0].edits))] + KeptAgents(agents[1..])
  }

  /** `vetted` */
  function Vetted(cl: Changelist): Changelist {
    Changelist(KeptAgents(cl.agents), Kept(cl.preamble))
  }

  /** Each edit goes to exactly one of the two lists, at the place its predecessors leave it. */
  lemma {:induction false} KeptPartition(es: seq<Edit>, i: nat)
    requires i < |es|
    ensures |Kept(es)| + |Refuted(es)| == |es|
    ensures !Dropped(es[i]) ==> |Kept(es[..i])| < |Kept(es)| && Kept(es)[|Kept(es[..i])|] == es[i]
    ensures Dropped(es[i]) ==> |Refuted(es[..i])| < |Refuted(es)| && Refuted(es)[|Refuted(es[..i])|] == es[i]
  {
    hide Dropped;
    var rest := es[1..];
    if i > 0 {
      KeptPartition(rest, i - 1);
      assert es[..i][1..] == rest[..i - 1] && es[..i][0] == es[0];
      assert rest[i - 1] == es[i];
    } else {
      assert es[..0] == [];
      KeptCount(rest);
    }
  }

  lemma {:induction false} KeptCount(es: seq<Edit>)
    ensures |Kept(es)| + |Refuted(es)| == |es|
    ensures forall e :: e in Kept(es) <==> e in es && !Dropped(e)
    ensures forall e :: e in Refuted(es) <==> e in es && Dropped(e)
  {
    hide Dropped;
    if es != [] {
      KeptCount(es[1..]);
      assert forall e :: e in es <==> e == es[0] || e in es[1..];
    }
  }

  lemma {:induction false} KeptAgentsAt(agents: seq<AgentChange>, k: nat)
    requires k < |agents|
    ensures |KeptAgents(agents)| == |agents|
    ensures KeptAgents(agents)[k] == agents[k].(edits := Kept(agents[k].edits))
  {
    hide Kept;
    if k > 0 {
      KeptAgentsAt(agents[1..], k - 1);
    } else {
      KeptAgentsLength(agents);
    }
  }

  lemma {:induction false} KeptAgentsLength(agents: seq<AgentChange>)
    ensures |KeptAgents(agents)| == |agents|
  {
    hide Kept;
    if agents != [] {
      KeptAgentsLength(agents[1..]);
    }
  }

  /** Vetting keeps every agent change as it is but for its refuted edits; the kept edits keep
      their order; and vetting again drops nothing more. */
  lemma VettedKeeps(cl: Changelist, k: nat)
    requires k < |cl.agents|
    ensures |Vetted(cl).agents| == |cl.agents|
    ensures Vetted(cl).agents[k] == cl.agents[k].(edits := Kept(cl.agents[k].edits))
    ensures Kept(Vetted(cl).agents[k].edits) == Vetted(cl).agents[k].edits
    ensures Kept(Vetted(cl).preamble) == Vetted(cl).preamble
  {
    hide Kept;
    KeptAgentsAt(cl.agents, k);
    KeptTwice(cl.agents[k].edits);
    KeptTwice(cl.preamble);
  }

  lemma {:induction false} KeptTwice(es: seq<Edit>)
    ensures Kept(Kept(es)) == Kept(es)
  {
    hide Dropped;
    if es != [] {
      KeptTwice(es[1..]);
      if !Dropped(es[0]) {
        assert Kept(es) == [es[0]] + Kept(es[1..]);
        assert ([es[0]] + Kept(es[1..]))[1..] == Kept(es[1..]);
      } else {
        assert Kept(es) == Kept(es[1..]);
      }
    }
  }
}

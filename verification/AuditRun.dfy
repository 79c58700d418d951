/** The audit run: audit every target, reconcile the reports once, refute every proposed edit, and
    write the vetted changelist; each stage resumes from what is in the run's directory. */
module AuditRun {
  import opened Lists
  import opened Decimal
  import opened Json
  import opened Checkpoint
  import opened RunStage
  import opened Changelists

  /** One edit on its way to the skeptics, at its place among its agent's edits. */
  datatype Item = Item(agent: string, idx: nat, edit: Edit)

  datatype JudgedItem = JudgedItem(agent: string, idx: nat, verdict: Verdict)

  const PREAMBLE := "__preamble__"

  /** What a session is run with. The fingerprint digests the code, the targets, the prompts and
      the evidence; `reconcile` gets the records of the first stage. */
  datatype Inputs = Inputs(
    fingerprint: string,
    targets: seq<string>,
    audit: Id -> Outcome<Json>,
    reconcile: seq<Record<Json>> -> Outcome<Changelist>,
    refute: Item -> Outcome<Verdict>)

  datatype Dir = Dir(
    stamp: Option<string>,
    stage1: Disk<Json>,
    stage2: Option<string>,
    stage3: Disk<JudgedItem>,
    written: Option<(Changelist, Changelist)>)

  datatype AuditResult = Done(vetted: Changelist, full: Changelist) | Stale | OutOfBackend | Broken

  function Key(agent: string, idx: nat): string {
    agent + "__" + Str(idx)
  }

  function ItemsOf(agent: string, edits: seq<Edit>, from: nat): seq<Item> {
    seq(|edits|, i requires 0 <= i < |edits| => Item(agent, from + i, edits[i]))
  }

  function AgentItems(agents: seq<AgentChange>): seq<Item> {
    if agents == [] then [] else ItemsOf(agents[0].agent, agents[0].edits, 0) + AgentItems(agents[1..])
  }

  function Flat(cl: Changelist): seq<Item> {
    AgentItems(cl.agents) + ItemsOf(PREAMBLE, cl.preamble, 0)
  }

  function Ids(items: seq<Item>): seq<Id> {
    seq(|items|, i requires 0 <= i < |items| => Key(items[i].agent, items[i].idx))
  }

  /** The work of the third stage: the item last given the id is the one refuted. */
  function RefuteWork(items: seq<Item>, refute: Item -> Outcome<Verdict>): Id -> Outcome<JudgedItem> {
    var m := ById(Ids(items), items);
    (id: Id) =>
      if id !in m then Raised("KeyError")
      else
        match refute(m[id])
        case Returned(v) => Returned(JudgedItem(m[id].agent, m[id].idx, v))
        case Raised(e) => Raised(e)
        case Exhausted => Exhausted
  }

  /** The verdicts by agent and place; a record of a failure has none. */
  function VerdictMap(records: seq<Record<JudgedItem>>): map<(string, nat), Verdict> {
    if records == [] then map[]
    else
      var last := records[|records| - 1];
      var m := VerdictMap(records[..|records| - 1]);
      if last.Produced? then m[(last.value.agent, last.value.idx) := last.value.verdict] else m
  }

  function VerdictAt(m: map<(string, nat), Verdict>, agent: string, i: nat): Option<Verdict> {
    if (agent, i) in m then Some(m[(agent, i)]) else None
  }

  /** `_attach` */
  function Attached(m: map<(string, nat), Verdict>, agent: string, edits: seq<Edit>): seq<Edit> {
    seq(|edits|, i requires 0 <= i < |edits| => edits[i].(verdict := VerdictAt(m, agent, i)))
  }

  function Decided(cl: Changelist, m: map<(string, nat), Verdict>): Changelist {
    Changelist(
      seq(|cl.agents|, k requires 0 <= k < |cl.agents| =>
        cl.agents[k].(edits := Attached(m, cl.agents[k].agent, cl.agents[k].edits))),
      Attached(m, PREAMBLE, cl.preamble))
  }

  ghost predicate Usable(d: Dir) {
    Sound(d.stage1) && Sound(d.stage3)
  }

  /** The second stage: a resume takes the changelist that is there. */
  function Reconciling(d: Dir, x: Inputs, resume: bool, records: seq<Record<Json>>): Outcome<Changelist> {
    if resume && d.stage2.Some? then
      var read := ReadFile(d.stage2.value);
      if read.None? then Raised("unreadable changelist") else Returned(read.value)
    else x.reconcile(records)
  }

  ghost function Refuting(d: Dir, x: Inputs, resume: bool, cl: Changelist): (r: (Dir, AuditResult))
    requires Usable(d)
    ensures Usable(r.0)
  {
    var items := Flat(cl);
    var (s3, r3) := StageEnd(d.stage3, Ids(items), RefuteWork(items, x.refute), resume);
    if r3.BackendExhausted? then (d.(stage3 := s3), OutOfBackend)
    else
      var full := Decided(cl, VerdictMap(r3.records));
      (d.(stage3 := s3, written := Some((Vetted(full), full))), Done(Vetted(full), full))
  }

  ghost function Auditing(d: Dir, x: Inputs, resume: bool): (r: (Dir, AuditResult))
    requires Usable(d)
    ensures Usable(r.0)
  {
    var (s1, r1) := StageEnd(d.stage1, x.targets, x.audit, resume);
    var d1 := d.(stage1 := s1);
    if r1.BackendExhausted? then (d1, OutOfBackend)
    else
      match Reconciling(d1, x, resume, r1.records)
      case Exhausted => (d1, OutOfBackend)
      case Raised(_) => (d1, Broken)
      case Returned(cl) =>
        Refuting(if resume && d1.stage2.Some? then d1 else d1.(stage2 := Some(Dumps(cl))), x, resume, cl)
  }

  /** One session. The stamp is compared and rewritten before anything else happens. */
  ghost function AuditEnd(d: Dir, x: Inputs, resume: bool): (r: (Dir, AuditResult))
    requires Usable(d)
    ensures Usable(r.0)
  {
    if resume && d.stamp.Some? && d.stamp.value != x.fingerprint then (d, Stale)
    else Auditing(d.(stamp := Some(x.fingerprint)), x, resume)
  }

  class AuditDir {
    var stamp: Option<string>
    const stage1: RunDir<Json>
    var stage2: Option<string>
    const stage3: RunDir<JudgedItem>
    var written: Option<(Changelist, Changelist)>

    ghost predicate Valid()
      reads this, stage1, stage3
    {
      (stage1 as object) != stage3 && stage1.Valid() && stage3.Valid()
    }

    ghost function Contents(): Dir
      reads this, stage1, stage3
    {
      Dir(stamp, stage1.Contents(), stage2, stage3.Contents(), written)
    }

    constructor ()
      ensures Valid() && Contents() == Dir(None, Disk(None, NoTmp, map[]), None, Disk(None, NoTmp, map[]), None)
      ensures fresh(stage1) && fresh(stage3)
    {
      stamp, stage2, written := None, None, None;
      stage1 := new RunDir<Json>(map[]);
      stage3 := new RunDir<JudgedItem>(map[]);
    }

    /** `_attach`, as a loop. */
    method Attach(m: map<(string, nat), Verdict>, agent: string, edits: seq<Edit>) returns (out: seq<Edit>)
      ensures out == Attached(m, agent, edits)
    {
      out := [];
      for i := 0 to |edits|
        invariant |out| == i
        invariant forall k :: 0 <= k < i ==> out[k] == edits[k].(verdict := VerdictAt(m, agent, k))
      {
        out := out + [edits[i].(verdict := if (agent, i) in m then Some(m[(agent, i)]) else None)];
      }
    }

    /** The third stage and the changelists written after it. */
    method RefuteAll(x: Inputs, resume: bool, cl: Changelist) returns (r: AuditResult)
      requires Valid()
      modifies this, stage3
      ensures Valid()
      ensures (Contents(), r) == Refuting(old(Contents()), x, resume, cl)
    {
      hide StageEnd, Sound, Flat, Ids, RefuteWork, VerdictMap, Vetted;
      var flat := Flat(cl);
      var verdicts := RunSerial(stage3, Ids(flat), RefuteWork(flat, x.refute), resume);
      if verdicts.BackendExhausted? {
        return OutOfBackend;
      }
      var full := Decide(cl, VerdictMap(verdicts.records));
      written := Some((Vetted(full), full));
      r := Done(Vetted(full), full);
    }

    method Decide(cl: Changelist, m: map<(string, nat), Verdict>) returns (full: Changelist)
      ensures full == Decided(cl, m)
    {
      var agents: seq<AgentChange> := [];
      for k := 0 to |cl.agents|
        invariant |agents| == k
        invariant forall j :: 0 <= j < k ==> agents[j] == cl.agents[j].(edits := Attached(m, cl.agents[j].agent, cl.agents[j].edits))
      {
        var edits := Attach(m, cl.agents[k].agent, cl.agents[k].edits);
        agents := agents + [cl.agents[k].(edits := edits)];
      }
      var preamble := Attach(m, PREAMBLE, cl.preamble);
      full := Changelist(agents, preamble);
    }

    /** `run_audit` */
    method RunAudit(x: Inputs, resume: bool) returns (r: AuditResult)
      requires Valid()
      modifies this, stage1, stage3
      ensures Valid()
      ensures (Contents(), r) == AuditEnd(old(Contents()), x, resume)
    {
      hide StageEnd, Sound, Flat, Ids, RefuteWork, VerdictMap, Vetted, Dumps, ReadFile;
      if resume && stamp.Some? {
        if stamp.value != x.fingerprint {
          return Stale;
        }
      }
      stamp := Some(x.fingerprint);
      var reports := RunSerial(stage1, x.targets, x.audit, resume);
      if reports.BackendExhausted? {
        return OutOfBackend;
      }
      var cl: Changelist;
      if resume && stage2.Some? {
        var read := ReadFile(stage2.value);
        if read.None? {
          return Broken;
        }
        cl := read.value;
      } else {
        var reconciled := x.reconcile(reports.records);
        if reconciled.Exhausted? {
          return OutOfBackend;
        }
        if reconciled.Raised? {
          return Broken;
        }
        cl := reconciled.value;
        stage2 := Some(Dumps(cl));
      }
      r := RefuteAll(x, resume, cl);
    }
  }
}

/** Over every run of `up --ports`, `down` and unrelated edits, recorded selections stay true
    and published ports stay apart. */
module FleetProof {
  import opened Lists
  import opened Text
  import opened Decimal
  import opened EnvFile
  import opened EnvLaws
  import opened Ports
  import opened Fleet
  import Naming

  // ---------------------------------------------------------------- counting assignments

  lemma {:induction false} CountMerged(ls: seq<string>, u: Updates, key: string)
    requires WritableAll(u)
    ensures Count(MergeLines(ls, u), key) ==
            (if Lookup(u, key).Some? && Count(ls, key) == 0 then 1 else Count(ls, key))
    decreases |ls|
  {
    hide Assignment, Rendered, Writable;
    if ls == [] {
      CountRendered(u, key);
    } else {
      var a := Assignment(ls[0]);
      if a.Some? && Lookup(u, a.value.0).Some? {
        var k := a.value.0;
        LookupWritable(u, k);
        DropWritable(u, k);
        DropLookup(u, k, key);
        RenderedReadsBack((k, Lookup(u, k).value));
        CountMerged(ls[1..], Drop(u, k), key);
        CountCons(Rendered((k, Lookup(u, k).value)), MergeLines(ls[1..], Drop(u, k)), key);
      } else {
        CountMerged(ls[1..], u, key);
        CountCons(ls[0], MergeLines(ls[1..], u), key);
      }
    }
  }

  lemma CountCons(line: string, ls: seq<string>, key: string)
    ensures Count([line] + ls, key) == (if Assigns(line, key) then 1 else 0) + Count(ls, key)
  {
    hide Assignment;
    assert ([line] + ls)[1..] == ls;
  }

  lemma {:induction false} CountRendered(u: Updates, key: string)
    requires WritableAll(u)
    ensures Count(RenderedAll(u), key) == if Lookup(u, key).Some? then 1 else 0
  {
    hide Assignment, Rendered, Writable;
    if u != [] {
      RenderedReadsBack(u[0]);
      CountRendered(u[1..], key);
      CountCons(Rendered(u[0]), RenderedAll(u[1..]), key);
      LookupFacts(u[1..], key);
    }
  }

  lemma {:induction false} CountRemoved(ls: seq<string>, keys: set<string>, key: string)
    ensures Count(RemoveLines(ls, keys), key) <= Count(ls, key)
  {
    hide Assignment;
    if ls != [] {
      CountRemoved(ls[1..], keys, key);
      var rest := RemoveLines(ls[1..], keys);
      CountCons(ls[0], rest, key);
      assert RemoveLines(ls, keys) == rest || RemoveLines(ls, keys) == [ls[0]] + rest;
    }
  }

  /** Splitting what was written back never adds an assignment. */
  lemma {:induction false} CountPrefix(ls: seq<string>, key: string)
    requires ls != []
    ensures Count(ls[..|ls| - 1], key) <= Count(ls, key)
  {
    hide Assignment;
    if |ls| > 1 {
      CountPrefix(ls[1..], key);
      assert ls[..|ls| - 1][1..] == ls[1..][..|ls| - 2];
    }
  }

  lemma CountRewritten(original: string, ls: seq<string>, key: string)
    requires AllOneLine(ls)
    ensures Count(Lines(Rewritten(original, ls)), key) <= Count(ls, key)
  {
    hide Assignment, Lines, Join, EndsWithLF;
    BlankAssignsNothing();
    if original == "" || EndsWithLF(original) {
      if ls == [] {
        LinesOfEmpty();
        assert Count([""], key) == 0 by { CountCons("", [], key); assert [""] + [] == [""]; }
      } else {
        LinesOfJoinLF(ls);
      }
    } else {
      LinesOfJoin(ls);
      assert Join(ls) + "" == Join(ls);
      if ls != [] {
        CountPrefix(ls, key);
      }
    }
  }

  // ---------------------------------------------------------------- the plan

  /** The plan's four assignments; the offset is recorded as its decimal numeral. */
  function Planned(inst: string, offset: nat): Updates {
    [(STACK, inst), (PROJECT, inst), (OFFSET, Str(offset)), (OFFSET_FOR, inst)]
  }

  lemma {:induction false} DigitsWritable(s: string)
    requires Decimal.Digits(s)
    ensures Stripped(s) && OneLine(s)
  {
  }

  lemma KeyWritable(key: string, value: string)
    requires key in {STACK, PROJECT, OFFSET, OFFSET_FOR} && Stripped(value) && OneLine(value)
    ensures Writable((key, value))
  {
  }

  lemma PlannedFacts(inst: string, offset: nat)
    requires NameOk(inst)
    ensures WritableAll(Planned(inst, offset))
    ensures forall key :: Lookup(Planned(inst, offset), key) ==
              if key == STACK || key == PROJECT || key == OFFSET_FOR then Some(inst)
              else if key == OFFSET then Some(Str(offset)) else None
    ensures ExportedOffset(Planned(inst, offset)) == Some(offset)
  {
    DigitsWritable(Str(offset));
    KeyWritable(STACK, inst);
    KeyWritable(PROJECT, inst);
    KeyWritable(OFFSET, Str(offset));
    KeyWritable(OFFSET_FOR, inst);
    hide Writable;
    forall key ensures Lookup(Planned(inst, offset), key) ==
              if key == STACK || key == PROJECT || key == OFFSET_FOR then Some(inst)
              else if key == OFFSET then Some(Str(offset)) else None
    {
      PlannedLookup(inst, Str(offset), key);
    }
    ValueOfStr(offset);
  }

  lemma PlannedLookup(inst: string, offset: string, key: string)
    ensures Lookup([(STACK, inst), (PROJECT, inst), (OFFSET, offset), (OFFSET_FOR, inst)], key) ==
              if key == STACK || key == PROJECT || key == OFFSET_FOR then Some(inst)
              else if key == OFFSET then Some(offset) else None
  {
    KeysDiffer();
    LookupCons((OFFSET_FOR, inst), [], key);
    LookupCons((OFFSET, offset), [(OFFSET_FOR, inst)], key);
    LookupCons((PROJECT, inst), [(OFFSET, offset), (OFFSET_FOR, inst)], key);
    LookupCons((STACK, inst), [(PROJECT, inst), (OFFSET, offset), (OFFSET_FOR, inst)], key);
    hide Lookup;
    assert [(OFFSET_FOR, inst)] + [] == [(OFFSET_FOR, inst)];
    assert [(OFFSET, offset)] + [(OFFSET_FOR, inst)] == [(OFFSET, offset), (OFFSET_FOR, inst)];
    assert [(PROJECT, inst)] + [(OFFSET, offset), (OFFSET_FOR, inst)] == [(PROJECT, inst), (OFFSET, offset), (OFFSET_FOR, inst)];
    assert [(STACK, inst)] + [(PROJECT, inst), (OFFSET, offset), (OFFSET_FOR, inst)] ==
           [(STACK, inst), (PROJECT, inst), (OFFSET, offset), (OFFSET_FOR, inst)];
  }

  lemma LookupCons(p: (string, string), u: Updates, key: string)
    ensures Lookup([p] + u, key) == if p.0 == key then Some(p.1) else Lookup(u, key)
    ensures Lookup([], key) == None
  {
    assert ([p] + u)[1..] == u;
  }

  /** Where `up` puts the stack: at the offset it already has when that is on record, else in
      a window that avoids every published port. */
  ghost predicate GoodOffset(h: Host, inst: string, occupied: set<nat>, offset: nat) {
    || (inst in h.running && h.running[inst] == offset)
    || (Fits(BASE_HOST_PORTS, offset) && Free(BASE_HOST_PORTS, offset, occupied))
  }

  lemma PlanOffset(setup: Setup, h: Host, w: Tree, inst: string, occupied: set<nat>, plan: Option<Updates>)
    requires Reuses(h, w, inst) ==> RecordOk(EnvText(h, w), h.running)
    requires IsPlan(EnvText(h, w), inst, true, occupied, plan) && plan.Some?
    ensures exists offset :: plan.value == Planned(inst, offset) && GoodOffset(h, inst, occupied, offset)
  {
    hide Free, Fits, Parse;
    var text := EnvText(h, w);
    var recorded := Parse(text);
    if Reuses(h, w, inst) {
      PlannedIs(inst, recorded[OFFSET], h.running[inst]);
      assert GoodOffset(h, inst, occupied, h.running[inst]);
    } else {
      FreshOffset(h, text, inst, occupied, plan);
    }
  }

  lemma RecordKnown(setup: Setup, h: Host, w: Tree)
    requires Inv(setup, h)
    ensures RecordOk(EnvText(h, w), h.running)
  {
    assert Parse("") == map[] by { NothingParsed(); }
    hide EnvOk, PortsOk, Parse;
  }

  lemma FreshOffset(h: Host, text: string, inst: string, occupied: set<nat>, plan: Option<Updates>)
    requires IsPlan(text, inst, true, occupied, plan) && plan.Some?
    requires !(Get(Parse(text), OFFSET_FOR) == Some(inst) && OFFSET in Parse(text))
    ensures exists offset :: plan.value == Planned(inst, offset) && GoodOffset(h, inst, occupied, offset)
  {
    hide Parse, Free, Fits;
    var r :| IsSelection(BASE_HOST_PORTS, OFFSET_STEP, occupied, r) &&
      plan == if r.None? then None
              else Some([(STACK, inst), (PROJECT, inst)] + [(OFFSET, Str(r.value)), (OFFSET_FOR, inst)]);
    PlannedIs(inst, Str(r.value), r.value);
    assert GoodOffset(h, inst, occupied, r.value);
  }

  lemma PlannedIs(inst: string, s: string, offset: nat)
    requires s == Str(offset)
    ensures [(STACK, inst), (PROJECT, inst)] + [(OFFSET, s), (OFFSET_FOR, inst)] == Planned(inst, offset)
  {
  }

  // ---------------------------------------------------------------- the steps

  lemma MergedEnv(setup: Setup, w: Tree, text: string, inst: string, offset: nat)
    requires NameOk(inst) && setup.owner(inst) == w
    requires forall key :: key in {STACK, PROJECT, OFFSET, OFFSET_FOR} ==> Count(Lines(text), key) <= 1
    ensures var text' := Merge(text, Planned(inst, offset));
            && EnvOk(setup, w, text')
            && Get(Parse(text'), OFFSET) == Some(Str(offset)) && Get(Parse(text'), OFFSET_FOR) == Some(inst)
  {
    hide Count, Planned, Lines, Parse, Merge, Lookup, Writable, WritableAll, NameOk;
    var u := Planned(inst, offset);
    PlannedFacts(inst, offset);
    MergedKey(text, u, STACK);
    MergedKey(text, u, PROJECT);
    MergedKey(text, u, OFFSET);
    MergedKey(text, u, OFFSET_FOR);
    assert OFFSET != STACK && OFFSET != PROJECT && OFFSET != OFFSET_FOR by { KeysDiffer(); }
  }

  lemma KeysDiffer()
    ensures OFFSET != STACK && OFFSET != PROJECT && OFFSET != OFFSET_FOR
  {
    assert |OFFSET| == 11 && |STACK| == 14 && |PROJECT| == 20 && |OFFSET_FOR| == 15;
  }

  // ---------------------------------------------------------------- what is on file after `up` and `down`

  lemma PlanWritable(text: string, inst: string, withPorts: bool, occupied: set<nat>, plan: Option<Updates>)
    requires NameOk(inst) && IsPlan(text, inst, withPorts, occupied, plan) && plan.Some?
    ensures WritableAll(plan.value)
  {
    KeyWritable(STACK, inst);
    KeyWritable(PROJECT, inst);
    KeyWritable(OFFSET_FOR, inst);
    FourKeysDiffer();
    hide Writable, Parse, IsSelection, Str, Decimal.Digits, NameOk, Stripped, OneLine;
    if withPorts {
      var o := plan.value[2].1;
      assert plan.value == [(STACK, inst), (PROJECT, inst), (OFFSET, o), (OFFSET_FOR, inst)];
      assert Writable((OFFSET, o)) by {
        if OFFSET in Parse(text) && o == Parse(text)[OFFSET] {
          ReadIsWritable(text, OFFSET);
        } else {
          var n: nat :| o == Str(n);
          DigitsWritable(Str(n));
          KeyWritable(OFFSET, Str(n));
        }
      }
    } else {
      assert plan.value == [(STACK, inst), (PROJECT, inst)];
    }
  }

  lemma FourKeysDiffer()
    ensures STACK != PROJECT && STACK != OFFSET && STACK != OFFSET_FOR && PROJECT != OFFSET && PROJECT != OFFSET_FOR && OFFSET != OFFSET_FOR
  {
    assert |OFFSET| == 11 && |STACK| == 14 && |PROJECT| == 20 && |OFFSET_FOR| == 15;
  }

  /** The offset that `up --ports` records: the one on file for this very instance, or else a freshly
      selected one. */
  ghost predicate Recording(text: string, inst: string, occupied: set<nat>, offset: string) {
    if Get(Parse(text), "PORT_OFFSET_FOR") == Some(inst) && "PORT_OFFSET" in Parse(text) then offset == Parse(text)["PORT_OFFSET"]
    else exists n: nat :: IsSelection(BASE_HOST_PORTS, OFFSET_STEP, occupied, Some(n)) && offset == Str(n)
  }

  /** What `.env` reads as after `up`, on a file that assigns each of the four keys at most once: the
      instance under both names and, with ports, the recorded offset and for whom; every other key as
      before. The child process is given the same. */
  lemma UpIsReadBack(text: string, inst: string, withPorts: bool, occupied: set<nat>, plan: Option<Updates>, key: string)
    requires NameOk(inst) && IsPlan(text, inst, withPorts, occupied, plan) && plan.Some?
    requires forall key :: key in {STACK, PROJECT, OFFSET, OFFSET_FOR} ==> Count(Lines(text), key) <= 1
    ensures var now := Parse(Merge(text, plan.value));
            && Get(now, "STACK_INSTANCE") == Some(inst) && Get(now, "COMPOSE_PROJECT_NAME") == Some(inst)
            && Provisioned(Merge(text, plan.value)) == Some(inst)
            && (withPorts ==> Get(now, "PORT_OFFSET_FOR") == Some(inst) && "PORT_OFFSET" in now && Recording(text, inst, occupied, now["PORT_OFFSET"]))
            && (withPorts ==> Lookup(plan.value, "PORT_OFFSET") == Get(now, "PORT_OFFSET"))
            && (key !in {"STACK_INSTANCE", "COMPOSE_PROJECT_NAME"} && (withPorts ==> key !in {"PORT_OFFSET", "PORT_OFFSET_FOR"}) ==>
                  Get(now, key) == Get(Parse(text), key))
  {
    PlanWritable(text, inst, withPorts, occupied, plan);
    FourKeysDiffer();
    PlanLookup(text, inst, withPorts, occupied, plan);
    hide IsSelection, Writable, WritableAll, Lines, Count, Merge, Parse, Lookup, IsPlan;
    var u := plan.value;
    ReadAfterMerge(text, u, STACK);
    ReadAfterMerge(text, u, PROJECT);
    ReadAfterMerge(text, u, OFFSET);
    ReadAfterMerge(text, u, OFFSET_FOR);
    ReadAfterMerge(text, u, key);
  }

  lemma PlanLookup(text: string, inst: string, withPorts: bool, occupied: set<nat>, plan: Option<Updates>)
    requires IsPlan(text, inst, withPorts, occupied, plan) && plan.Some?
    ensures Lookup(plan.value, STACK) == Lookup(plan.value, PROJECT) == Some(inst)
    ensures withPorts ==> Lookup(plan.value, OFFSET_FOR) == Some(inst)
    ensures withPorts ==> Lookup(plan.value, OFFSET).Some? && Recording(text, inst, occupied, Lookup(plan.value, OFFSET).value)
    ensures !withPorts ==> Lookup(plan.value, OFFSET) == Lookup(plan.value, OFFSET_FOR) == None
    ensures forall key :: key !in {STACK, PROJECT, OFFSET, OFFSET_FOR} ==> Lookup(plan.value, key) == None
  {
    FourKeysDiffer();
    hide Parse, IsSelection;
    if withPorts {
      var o := plan.value[2].1;
      assert plan.value == [(STACK, inst), (PROJECT, inst), (OFFSET, o), (OFFSET_FOR, inst)];
      forall key ensures Lookup(plan.value, key) ==
              if key == STACK || key == PROJECT || key == OFFSET_FOR then Some(inst) else if key == OFFSET then Some(o) else None
      {
        PlannedLookup(inst, o, key);
      }
    } else {
      forall key ensures Lookup(plan.value, key) == if key == STACK || key == PROJECT then Some(inst) else None {
        TwoLookup(inst, key);
      }
    }
  }

  lemma TwoLookup(inst: string, key: string)
    ensures Lookup([(STACK, inst), (PROJECT, inst)], key) == if key == STACK || key == PROJECT then Some(inst) else None
  {
    var u: Updates := [(STACK, inst), (PROJECT, inst)];
    assert u[1..] == [(PROJECT, inst)];
    assert u[1..][1..] == [];
    assert Lookup([], key) == None;
  }

  /** `down` after `up` stops the instance that was brought up; of all that is read from `.env` only
      its two names remain, with the offset released. */
  lemma DownUndoesUp(text: string, inst: string, withPorts: bool, occupied: set<nat>, plan: Option<Updates>, key: string)
    requires NameOk(inst) && IsPlan(text, inst, withPorts, occupied, plan) && plan.Some?
    requires forall key :: key in {STACK, PROJECT, OFFSET, OFFSET_FOR} ==> Count(Lines(text), key) <= 1
    ensures var up := Merge(text, plan.value);
            var down := Parse(Released(up));
            && Provisioned(up) == Some(inst)
            && Get(down, key) == (if key in {"STACK_INSTANCE", "COMPOSE_PROJECT_NAME"} then Some(inst)
                                  else if key in {"PORT_OFFSET", "PORT_OFFSET_FOR"} then None
                                  else Get(Parse(text), key))
  {
    var up := Merge(text, plan.value);
    UpReads(text, inst, withPorts, occupied, plan, key);
    DownReads(up, key);
    hide *;
  }

  lemma DownReads(up: string, key: string)
    ensures Get(Parse(Released(up)), key) ==
            if key in {"PORT_OFFSET", "PORT_OFFSET_FOR"} then None else Get(Parse(up), key)
  {
    ReadAfterRemove(up, {OFFSET, OFFSET_FOR});
    hide Parse, Remove;
  }

  lemma UpReads(text: string, inst: string, withPorts: bool, occupied: set<nat>, plan: Option<Updates>, key: string)
    requires NameOk(inst) && IsPlan(text, inst, withPorts, occupied, plan) && plan.Some?
    requires forall key :: key in {STACK, PROJECT, OFFSET, OFFSET_FOR} ==> Count(Lines(text), key) <= 1
    ensures Provisioned(Merge(text, plan.value)) == Some(inst)
    ensures key !in {"PORT_OFFSET", "PORT_OFFSET_FOR"} ==>
              Get(Parse(Merge(text, plan.value)), key) ==
              if key in {"STACK_INSTANCE", "COMPOSE_PROJECT_NAME"} then Some(inst) else Get(Parse(text), key)
  {
    UpIsReadBack(text, inst, withPorts, occupied, plan, key);
    hide *;
  }

  lemma MergedKey(text: string, u: Updates, key: string)
    requires WritableAll(u) && Count(Lines(text), key) <= 1 && Lookup(u, key).Some?
    ensures Count(Lines(Merge(text, u)), key) <= 1 && Get(Parse(Merge(text, u)), key) == Lookup(u, key)
  {
    LinesAreLines(text);
    MergedOneLine(Lines(text), u);
    ReadAfterMerge(text, u, key);
    CountMerged(Lines(text), u, key);
    MergeIsRewritten(text, u);
    CountRewritten(text, MergeLines(Lines(text), u), key);
  }

  lemma MergeIsRewritten(text: string, u: Updates)
    ensures Merge(text, u) == Rewritten(text, MergeLines(Lines(text), u))
  {
  }

  lemma ReleasedEnv(setup: Setup, w: Tree, text: string)
    requires EnvOk(setup, w, text)
    ensures EnvOk(setup, w, Remove(text, {OFFSET, OFFSET_FOR}))
    ensures OFFSET !in Parse(Remove(text, {OFFSET, OFFSET_FOR}))
  {
    var keys := {OFFSET, OFFSET_FOR};
    ReadAfterRemove(text, keys);
    LinesAreLines(text);
    RemovedMembers(Lines(text), keys);
    hide Count, Lines, Assignment;
    forall key | key in {STACK, PROJECT, OFFSET, OFFSET_FOR} ensures Count(Lines(Remove(text, keys)), key) <= 1 {
      CountRemoved(Lines(text), keys, key);
      CountRewritten(text, RemoveLines(Lines(text), keys), key);
    }
  }

  lemma PortsMoved(setup: Setup, running: map<string, nat>, inst: string, offset: nat, occupied: set<nat>)
    requires SetupOk(setup) && PortsOk(setup, running)
    requires StackPorts(setup, running) <= occupied
    requires Fits(BASE_HOST_PORTS, offset) && Free(BASE_HOST_PORTS, offset, occupied)
    ensures PortsOk(setup, running[inst := offset])
  {
    hide Fits;
    var window := Window(BASE_HOST_PORTS, offset);
    forall q | q in Published(setup, inst, offset) ensures q in window {
      var p :| p in setup.publishes(inst) && q == p + offset;
      assert p in BASE_HOST_PORTS;
    }
    forall j | j in running ensures Published(setup, j, running[j]) <= occupied {
      assert forall q :: q in Published(setup, j, running[j]) ==> q in StackPorts(setup, running);
    }
  }

  lemma UpKeeps(setup: Setup, h: Host, h': Host, w: Tree, inst: string, foreign: set<nat>)
    requires SetupOk(setup) && Inv(setup, h) && Up(setup, h, h', w, inst, foreign)
    ensures Inv(setup, h')
  {
    hide IsPlan, Inv, SetupOk, NameOk, GoodOffset, Planned;
    var occupied := StackPorts(setup, h.running) + foreign;
    var plan :| IsPlan(EnvText(h, w), inst, true, occupied, plan) && UpTo(h, h', w, inst, plan);
    RecordKnown(setup, h, w);
    if plan.Some? {
      PlanOffset(setup, h, w, inst, occupied, plan);
      var offset :| plan.value == Planned(inst, offset) && GoodOffset(h, inst, occupied, offset);
      UpOffset(setup, h, h', w, inst, occupied, offset);
    }
  }

  lemma UpOffset(setup: Setup, h: Host, h': Host, w: Tree, inst: string, occupied: set<nat>, offset: nat)
    requires SetupOk(setup) && Inv(setup, h) && NameOk(inst) && setup.owner(inst) == w
    requires StackPorts(setup, h.running) <= occupied
    requires UpTo(h, h', w, inst, Some(Planned(inst, offset))) && GoodOffset(h, inst, occupied, offset)
    ensures Inv(setup, h')
  {
    hide Planned, Merge, NameOk, StackPorts, Lines, Count, Parse, ExportedOffset, SetupOk, EnvOk, RecordOk, PortsOk, GoodOffset;
    PlannedFacts(inst, offset);
    var text' := Merge(EnvText(h, w), Planned(inst, offset));
    var running' := h.running[inst := offset];
    UpPorts(setup, h, inst, occupied, offset);
    UpRecord(setup, h, w, inst, offset);
    forall v | v in h'.envs ensures EnvOk(setup, v, h'.envs[v]) && RecordOk(h'.envs[v], h'.running) {
      if v != w {
        OtherMoves(setup, v, h.envs[v], h.running, inst, offset);
      }
    }
  }

  lemma UpPorts(setup: Setup, h: Host, inst: string, occupied: set<nat>, offset: nat)
    requires SetupOk(setup) && PortsOk(setup, h.running) && StackPorts(setup, h.running) <= occupied
    requires GoodOffset(h, inst, occupied, offset)
    ensures PortsOk(setup, h.running[inst := offset])
  {
    hide PortsOk, SetupOk, StackPorts, Fits, Free;
    if inst in h.running && h.running[inst] == offset {
      assert h.running[inst := offset] == h.running;
    } else {
      PortsMoved(setup, h.running, inst, offset, occupied);
    }
  }

  lemma UpRecord(setup: Setup, h: Host, w: Tree, inst: string, offset: nat)
    requires Inv(setup, h) && NameOk(inst) && setup.owner(inst) == w
    ensures var text' := Merge(EnvText(h, w), Planned(inst, offset));
            EnvOk(setup, w, text') && RecordOk(text', h.running[inst := offset])
  {
    hide Planned, Merge, NameOk, Lines, Count, Parse, PortsOk, EnvOk;
    EnvCounts(setup, h, w);
    MergedEnv(setup, w, EnvText(h, w), inst, offset);
  }

  /** Moving a stack of one owner leaves the records of every other owner true. */
  lemma OtherMoves(setup: Setup, v: Tree, text: string, running: map<string, nat>, inst: string, offset: nat)
    requires EnvOk(setup, v, text) && RecordOk(text, running) && setup.owner(inst) != v
    ensures RecordOk(text, running[inst := offset])
  {
    hide Lines, Count, Parse;
  }

  lemma EnvCounts(setup: Setup, h: Host, w: Tree)
    requires Inv(setup, h)
    ensures forall key :: key in {STACK, PROJECT, OFFSET, OFFSET_FOR} ==> Count(Lines(EnvText(h, w)), key) <= 1
  {
    hide PortsOk, RecordOk;
    assert Lines("") == [];
    if w in h.envs {
      assert EnvOk(setup, w, h.envs[w]);
    }
  }

  lemma DownKeeps(setup: Setup, h: Host, h': Host, w: Tree)
    requires Inv(setup, h) && Down(h, h', w)
    ensures Inv(setup, h')
  {
    hide Lines, Count, Published, Fits, Remove;
    var text := EnvText(h, w);
    assert Parse("") == map[] by { NothingParsed(); }
    if Provisioned(text).Some? {
      hide Parse;
      var inst := Provisioned(text).value;
      ReleasedEnv(setup, w, text);
      assert PortsOk(setup, h'.running);
      hide PortsOk;
      forall v | v in h'.envs ensures EnvOk(setup, v, h'.envs[v]) && RecordOk(h'.envs[v], h'.running) {
        if v != w {
          OtherStays(setup, v, h.envs[v], h.running, inst);
        }
      }
    }
  }

  lemma NothingParsed()
    ensures Parse("") == map[]
  {
  }

  /** Stopping a stack of one owner leaves the records of every other owner true. */
  lemma OtherStays(setup: Setup, v: Tree, text: string, running: map<string, nat>, inst: string)
    requires EnvOk(setup, v, text) && RecordOk(text, running) && setup.owner(inst) != v
    ensures RecordOk(text, running - {inst})
  {
    hide Lines, Count, Parse;
  }

  lemma EditKeeps(setup: Setup, h: Host, h': Host, w: Tree)
    requires Inv(setup, h) && Edit(h, h', w)
    ensures Inv(setup, h')
  {
    assert Parse("") == map[];
    hide Lines, Count, Parse, PortsOk;
    var text' := h'.envs[w];
    assert forall key :: key in {STACK, PROJECT, OFFSET, OFFSET_FOR} ==>
      Get(Parse(text'), key) == Get(Parse(EnvText(h, w)), key);
    assert Get(Parse(text'), OFFSET) == Get(Parse(EnvText(h, w)), OFFSET);
    assert Get(Parse(text'), OFFSET_FOR) == Get(Parse(EnvText(h, w)), OFFSET_FOR);
    assert Get(Parse(text'), STACK) == Get(Parse(EnvText(h, w)), STACK);
    forall v | v in h'.envs ensures EnvOk(setup, v, h'.envs[v]) && RecordOk(h'.envs[v], h'.running) {
      if v in h.envs {
        assert EnvOk(setup, v, h.envs[v]) && RecordOk(h.envs[v], h.running);
      }
    }
  }

  /** A reused selection is planned again, whatever is published on the host. */
  lemma ReusePlansRecorded(h: Host, w: Tree, inst: string, occupied: set<nat>, plan: Option<Updates>, offset: nat)
    requires Reuses(h, w, inst) && Parse(EnvText(h, w))[OFFSET] == Str(offset)
    requires IsPlan(EnvText(h, w), inst, true, occupied, plan)
    ensures plan == Some(Planned(inst, offset))
  {
    PlannedIs(inst, Str(offset), offset);
    hide Parse, IsSelection;
  }

  /** A fresh plan is the selection. */
  lemma FreshPlansSelected(h: Host, w: Tree, inst: string, occupied: set<nat>, plan: Option<Updates>)
    requires !Reuses(h, w, inst) && IsPlan(EnvText(h, w), inst, true, occupied, plan)
    ensures exists r :: IsSelection(BASE_HOST_PORTS, OFFSET_STEP, occupied, r) &&
              plan == if r.None? then None else Some(Planned(inst, r.value))
  {
    hide Parse, IsSelection;
    var r :| IsSelection(BASE_HOST_PORTS, OFFSET_STEP, occupied, r) &&
      plan == if r.None? then None
              else Some([(STACK, inst), (PROJECT, inst)] + [(OFFSET, Str(r.value)), (OFFSET_FOR, inst)]);
    if r.Some? {
      PlannedIs(inst, Str(r.value), r.value);
    }
  }

  /** The plan of a start is an offset that fits, true or not. */
  lemma PlanIsSelection(setup: Setup, h: Host, w: Tree, inst: string, occupied: set<nat>, plan: Option<Updates>)
    requires SelectionRecorded(EnvText(h, w)) && IsPlan(EnvText(h, w), inst, true, occupied, plan) && plan.Some?
    ensures exists offset :: plan.value == Planned(inst, offset) && Fits(BASE_HOST_PORTS, offset) &&
              (Reuses(h, w, inst) ==> Parse(EnvText(h, w))[OFFSET] == Str(offset)) &&
              (!Reuses(h, w, inst) ==> Free(BASE_HOST_PORTS, offset, occupied))
  {
    hide Free, Fits, Parse, IsPlan, Planned;
    if Reuses(h, w, inst) {
      var n: nat :| Parse(EnvText(h, w))[OFFSET] == Str(n) && Fits(BASE_HOST_PORTS, n);
      ReusePlansRecorded(h, w, inst, occupied, plan, n);
    } else {
      FreshPlansSelected(h, w, inst, occupied, plan);
      var r :| IsSelection(BASE_HOST_PORTS, OFFSET_STEP, occupied, r) && plan == if r.None? then None else Some(Planned(inst, r.value));
    }
  }

  lemma CountsKnown(setup: Setup, h: Host, w: Tree)
    requires WeakInv(setup, h)
    ensures forall key :: key in {STACK, PROJECT, OFFSET, OFFSET_FOR} ==> Count(Lines(EnvText(h, w)), key) <= 1
    ensures SelectionRecorded(EnvText(h, w))
  {
    assert Parse("") == map[] by { NothingParsed(); }
    hide PortsOk, Parse;
    assert Lines("") == [];
    if w in h.envs {
      assert EnvOk(setup, w, h.envs[w]);
    }
  }

  lemma TrueIsSelection(text: string, running: map<string, nat>)
    requires RecordOk(text, running) && forall i :: i in running ==> Fits(BASE_HOST_PORTS, running[i])
    ensures SelectionRecorded(text)
  {
    hide Parse, Fits;
  }

  lemma InvIsWeak(setup: Setup, h: Host)
    requires Inv(setup, h)
    ensures WeakInv(setup, h)
  {
    hide Parse, EnvOk, Apart, RecordOk, SelectionRecorded, Fits;
    forall w | w in h.envs ensures SelectionRecorded(h.envs[w]) {
      TrueIsSelection(h.envs[w], h.running);
    }
  }

  /** What a failed start leaves: a selection for its instance on record. */
  lemma FailedLeaves(setup: Setup, h: Host, h': Host, w: Tree, inst: string, foreign: set<nat>)
    requires WeakInv(setup, h) && UpFails(setup, h, h', w, inst, foreign)
    ensures h'.running == h.running
    ensures forall v :: v in h'.envs && v != w ==> v in h.envs && h'.envs[v] == h.envs[v]
    ensures h' == h || (w in h'.envs && EnvOk(setup, w, h'.envs[w]) && SelectionRecorded(h'.envs[w]))
  {
    hide IsPlan, PortsOk, Parse, Planned, EnvOk, Merge, NameOk, Reuses, Fits;
    var occupied := StackPorts(setup, h.running) + foreign;
    var plan :| IsPlan(EnvText(h, w), inst, true, occupied, plan) &&
      h' == if plan.None? then h else h.(envs := h.envs[w := Merge(EnvText(h, w), plan.value)]);
    CountsKnown(setup, h, w);
    if plan.Some? {
      PlanIsSelection(setup, h, w, inst, occupied, plan);
      var offset :| plan.value == Planned(inst, offset) && Fits(BASE_HOST_PORTS, offset);
      MergedEnv(setup, w, EnvText(h, w), inst, offset);
    }
  }

  lemma HarmlessKeeps(setup: Setup, h: Host, h': Host, w: Tree, inst: string, foreign: set<nat>)
    requires Inv(setup, h) && FailsHarmlessly(setup, h, h', w, inst, foreign)
    ensures Inv(setup, h')
  {
    InvIsWeak(setup, h);
    FailedLeaves(setup, h, h', w, inst, foreign);
    FailedStartIsHarmlessIff(setup, h, h', w, inst, foreign);
    hide PortsOk, EnvOk, RecordOk, UpFails, PlansNothingNew;
  }

  lemma {:induction false} RunKeeps(setup: Setup, run: seq<Host>, i: nat)
    requires SetupOk(setup) && SmoothRun(setup, run) && i < |run|
    ensures Inv(setup, run[i])
  {
    if i > 0 {
      hide Inv, SetupOk, Up, Down, Edit, Initial, FailsHarmlessly;
      RunKeeps(setup, run, i - 1);
      var h, h' := run[i - 1], run[i];
      assert SmoothStep(setup, h, h');
      if w, inst, foreign :| Up(setup, h, h', w, inst, foreign) {
        UpKeeps(setup, h, h', w, inst, foreign);
      } else if w, inst, foreign :| FailsHarmlessly(setup, h, h', w, inst, foreign) {
        HarmlessKeeps(setup, h, h', w, inst, foreign);
      } else if w :| Down(h, h', w) {
        DownKeeps(setup, h, h', w);
      } else {
        var w :| Edit(h, h', w);
        EditKeeps(setup, h, h', w);
      }
    }
  }

  /** In every state of every run in which no start fails, or only harmlessly: a recorded
      PORT_OFFSET_FOR/PORT_OFFSET pair names a stack that runs at that very offset; no host port
      is published by two stacks; and no stack's window passes the last port. The path that
      reuses a recorded offset without looking at the host keeps all three. */
  lemma RecordsAndPortsStaySound(setup: Setup, run: seq<Host>, i: nat)
    requires SetupOk(setup) && SmoothRun(setup, run) && i < |run|
    ensures var h := run[i];
            && (forall w :: w in h.envs && OFFSET_FOR in Parse(h.envs[w]) && OFFSET in Parse(h.envs[w]) ==>
                  var env := Parse(h.envs[w]);
                  env[OFFSET_FOR] in h.running && env[OFFSET] == Str(h.running[env[OFFSET_FOR]]))
            && (forall a, b, p ::
                  (a in h.running && p in Published(setup, a, h.running[a]) &&
                   b in h.running && p in Published(setup, b, h.running[b])) ==> a == b)
            && (forall a, p :: a in h.running && p in Published(setup, a, h.running[a]) ==> p <= MAX_HOST_PORT)
  {
    RunKeeps(setup, run, i);
    var h := run[i];
    hide Parse;
    forall w | w in h.envs ensures RecordOk(h.envs[w], h.running) {}
    forall a, p | a in h.running && p in Published(setup, a, h.running[a]) ensures p <= MAX_HOST_PORT {
      var q :| q in setup.publishes(a) && p == q + h.running[a];
      assert q in BASE_HOST_PORTS;
      assert Fits(BASE_HOST_PORTS, h.running[a]);
    }
  }

  // ---------------------------------------------------------------- starts that fail

  lemma OwnPortsAreOccupied(setup: Setup, running: map<string, nat>, inst: string, occupied: set<nat>)
    requires SetupOk(setup) && inst in running && setup.publishes(inst) != {} && StackPorts(setup, running) <= occupied
    ensures !Free(BASE_HOST_PORTS, running[inst], occupied)
  {
    var p :| p in setup.publishes(inst);
    assert p in BASE_HOST_PORTS;
    assert p + running[inst] in Published(setup, inst, running[inst]);
    assert p + running[inst] in StackPorts(setup, running);
    assert p + running[inst] in Window(BASE_HOST_PORTS, running[inst]);
  }

  lemma FailedStartWrites(setup: Setup, h: Host, h': Host, w: Tree, inst: string, foreign: set<nat>)
    requires UpFails(setup, h, h', w, inst, foreign)
    ensures exists plan: Option<Updates> ::
              && IsPlan(EnvText(h, w), inst, true, StackPorts(setup, h.running) + foreign, plan)
              && h'.running == h.running
              && EnvText(h', w) == if plan.None? then EnvText(h, w) else Merge(EnvText(h, w), plan.value)
  {
    hide IsPlan, NameOk, Merge, StackPorts;
  }

  /** The record a start would leave, if the stack is where it was. */
  lemma PlannedRecordIff(setup: Setup, w: Tree, text: string, inst: string, offset: nat, running: map<string, nat>)
    requires NameOk(inst) && setup.owner(inst) == w
    requires forall key :: key in {STACK, PROJECT, OFFSET, OFFSET_FOR} ==> Count(Lines(text), key) <= 1
    ensures RecordOk(Merge(text, Planned(inst, offset)), running) <==> inst in running && running[inst] == offset
  {
    MergedEnv(setup, w, text, inst, offset);
    hide NameOk, Planned, Merge, Parse, Lines, Count, EnvOk, Str;
    if inst in running && Str(offset) == Str(running[inst]) {
      StrInjective(offset, running[inst]);
    }
  }

  /** A failed start leaves a true record exactly when `plan_provision` took the reusing branch or
      found no window - for a stack that publishes nothing, also when it selected the offset the
      stack runs at. */
  lemma FailedStartIsHarmlessIff(setup: Setup, h: Host, h': Host, w: Tree, inst: string, foreign: set<nat>)
    requires Inv(setup, h) && UpFails(setup, h, h', w, inst, foreign)
    ensures RecordOk(EnvText(h', w), h'.running) <==> PlansNothingNew(setup, h, w, inst, foreign)
    ensures SetupOk(setup) && setup.publishes(inst) != {} ==>
              (RecordOk(EnvText(h', w), h'.running) <==>
               Reuses(h, w, inst) || IsSelection(BASE_HOST_PORTS, OFFSET_STEP, StackPorts(setup, h.running) + foreign, None))
  {
    var occupied := StackPorts(setup, h.running) + foreign;
    assert NameOk(inst) && setup.owner(inst) == w;
    RecordKnown(setup, h, w);
    InvIsWeak(setup, h);
    CountsKnown(setup, h, w);
    FailedStartWrites(setup, h, h', w, inst, foreign);
    hide IsPlan, UpFails, Inv, WeakInv, Parse, Planned, Merge, NameOk, Lines, Count, IsSelection, RecordOk, StackPorts;
    var plan: Option<Updates> :| IsPlan(EnvText(h, w), inst, true, occupied, plan) && h'.running == h.running
      && EnvText(h', w) == if plan.None? then EnvText(h, w) else Merge(EnvText(h, w), plan.value);
    if Reuses(h, w, inst) {
      ReusedOffset(h, w, inst);
      ReusePlansRecorded(h, w, inst, occupied, plan, h.running[inst]);
      PlannedRecordIff(setup, w, EnvText(h, w), inst, h.running[inst], h.running);
    } else {
      FreshPlansSelected(h, w, inst, occupied, plan);
      var r :| IsSelection(BASE_HOST_PORTS, OFFSET_STEP, occupied, r) && plan == if r.None? then None else Some(Planned(inst, r.value));
      OneSelection(occupied, r);
      if r.Some? {
        PlannedRecordIff(setup, w, EnvText(h, w), inst, r.value, h.running);
      }
    }
    NoSelectionWhereItRuns(setup, h, inst, occupied);
  }

  lemma ReusedOffset(h: Host, w: Tree, inst: string)
    requires Reuses(h, w, inst) && RecordOk(EnvText(h, w), h.running)
    ensures inst in h.running && Parse(EnvText(h, w))[OFFSET] == Str(h.running[inst])
  {
    hide Parse, Str;
  }

  /** A stack that publishes something is never given the offset it runs at anew. */
  lemma NoSelectionWhereItRuns(setup: Setup, h: Host, inst: string, occupied: set<nat>)
    requires StackPorts(setup, h.running) <= occupied
    ensures SetupOk(setup) && setup.publishes(inst) != {} && inst in h.running ==>
              !IsSelection(BASE_HOST_PORTS, OFFSET_STEP, occupied, Some(h.running[inst]))
  {
    if SetupOk(setup) && inst in h.running && setup.publishes(inst) != {} {
      OwnPortsAreOccupied(setup, h.running, inst, occupied);
    }
    hide Free, Fits, StackPorts, SetupOk;
  }

  lemma OneSelection(occupied: set<nat>, r: Option<nat>)
    requires IsSelection(BASE_HOST_PORTS, OFFSET_STEP, occupied, r)
    ensures forall r' :: IsSelection(BASE_HOST_PORTS, OFFSET_STEP, occupied, r') ==> r' == r
  {
    hide IsSelection;
    forall r' | IsSelection(BASE_HOST_PORTS, OFFSET_STEP, occupied, r') ensures r' == r {
      SelectionUnique(BASE_HOST_PORTS, OFFSET_STEP, occupied, r, r');
    }
  }

  /** Starting a stack at an offset keeps the ports apart exactly when no other stack has them. */
  lemma StartKeepsApartIff(setup: Setup, running: map<string, nat>, inst: string, offset: nat)
    requires Apart(setup, running)
    ensures Apart(setup, running[inst := offset]) <==> Published(setup, inst, offset) !! StackPorts(setup, running - {inst})
  {
    hide Published;
    var others := running - {inst};
    var after := running[inst := offset];
    if Published(setup, inst, offset) !! StackPorts(setup, others) {
      forall i | i in after && i != inst ensures Published(setup, inst, offset) !! Published(setup, i, after[i]) {
        assert forall p :: p in Published(setup, i, others[i]) ==> p in StackPorts(setup, others);
      }
    }
    if Apart(setup, after) {
      forall p | p in StackPorts(setup, others) ensures p !in Published(setup, inst, offset) {
        var i :| i in others && p in Published(setup, i, others[i]);
        assert i in after && after[i] == others[i] && after[inst] == offset;
      }
    }
  }

  lemma ReuseStartsThere(setup: Setup, h: Host, h': Host, w: Tree, inst: string, foreign: set<nat>, offset: nat)
    requires Up(setup, h, h', w, inst, foreign) && Reuses(h, w, inst) && Parse(EnvText(h, w))[OFFSET] == Str(offset)
    ensures h' == Host(h.envs[w := Merge(EnvText(h, w), Planned(inst, offset))], h.running[inst := offset])
  {
    hide IsPlan, Parse, Planned, Merge, NameOk, StackPorts, Reuses, ExportedOffset;
    var occupied := StackPorts(setup, h.running) + foreign;
    var plan :| IsPlan(EnvText(h, w), inst, true, occupied, plan) && UpTo(h, h', w, inst, plan);
    ReusePlansRecorded(h, w, inst, occupied, plan, offset);
    PlannedFacts(inst, offset);
  }

  /** A start on a reused selection keeps the ports apart exactly when no other running stack
      publishes a port of that window: what the reusing branch does not look at. */
  lemma ReuseKeepsPortsIff(setup: Setup, h: Host, h': Host, w: Tree, inst: string, foreign: set<nat>, offset: nat)
    requires WeakInv(setup, h) && Up(setup, h, h', w, inst, foreign)
    requires Reuses(h, w, inst) && Parse(EnvText(h, w))[OFFSET] == Str(offset)
    ensures Apart(setup, h'.running) <==> Published(setup, inst, offset) !! StackPorts(setup, h.running - {inst})
    ensures Apart(setup, h'.running) <==> WindowOpen(setup, h, w, inst)
  {
    ReuseStartsThere(setup, h, h', w, inst, foreign, offset);
    StartKeepsApartIff(setup, h.running, inst, offset);
    forall n: nat | Parse(EnvText(h, w))[OFFSET] == Str(n) ensures n == offset { StrInjective(n, offset); }
    hide Up, Reuses, Parse, Apart, StackPorts, Published, EnvOk;
  }

  lemma InformedKeeps(setup: Setup, h: Host, h': Host, w: Tree, inst: string, foreign: set<nat>)
    requires SetupOk(setup) && WeakInv(setup, h) && UpInformed(setup, h, h', w, inst, foreign)
    ensures WeakInv(setup, h')
  {
    hide IsPlan, SetupOk, NameOk, Planned, EnvOk, PortsOk, Merge, Parse, StackPorts, ExportedOffset, WindowOpen, Free, Fits;
    var occupied := StackPorts(setup, h.running) + foreign;
    var plan :| IsPlan(EnvText(h, w), inst, true, occupied, plan) && UpTo(h, h', w, inst, plan);
    CountsKnown(setup, h, w);
    if plan.Some? {
      PlanIsSelection(setup, h, w, inst, occupied, plan);
      var offset :| plan.value == Planned(inst, offset) && Fits(BASE_HOST_PORTS, offset) &&
        (Reuses(h, w, inst) ==> Parse(EnvText(h, w))[OFFSET] == Str(offset)) &&
        (!Reuses(h, w, inst) ==> Free(BASE_HOST_PORTS, offset, occupied));
      PlannedFacts(inst, offset);
      MergedEnv(setup, w, EnvText(h, w), inst, offset);
      if Reuses(h, w, inst) {
        ReuseKeepsPortsIff(setup, h, h', w, inst, foreign, offset);
        MovedFits(setup, h.running, inst, offset);
      } else {
        PortsMoved(setup, h.running, inst, offset, occupied);
      }
    }
  }

  lemma MovedFits(setup: Setup, running: map<string, nat>, inst: string, offset: nat)
    requires PortsOk(setup, running) && Fits(BASE_HOST_PORTS, offset)
    ensures Apart(setup, running[inst := offset]) ==> PortsOk(setup, running[inst := offset])
  {
    hide Fits, Apart;
  }

  lemma DownKeepsWeak(setup: Setup, h: Host, h': Host, w: Tree)
    requires WeakInv(setup, h) && Down(h, h', w)
    ensures WeakInv(setup, h')
  {
    hide Lines, Count, Published, Fits, Remove;
    var text := EnvText(h, w);
    assert Parse("") == map[] by { NothingParsed(); }
    if Provisioned(text).Some? {
      hide Parse;
      ReleasedEnv(setup, w, text);
      assert PortsOk(setup, h'.running);
      hide PortsOk, EnvOk;
    }
  }

  lemma EditKeepsWeak(setup: Setup, h: Host, h': Host, w: Tree)
    requires WeakInv(setup, h) && Edit(h, h', w)
    ensures WeakInv(setup, h')
  {
    CountsKnown(setup, h, w);
    assert Parse("") == map[] by { NothingParsed(); }
    hide Lines, Count, Parse, PortsOk;
    var text' := h'.envs[w];
    assert Get(Parse(text'), OFFSET) == Get(Parse(EnvText(h, w)), OFFSET);
    assert Get(Parse(text'), OFFSET_FOR) == Get(Parse(EnvText(h, w)), OFFSET_FOR);
    assert Get(Parse(text'), STACK) == Get(Parse(EnvText(h, w)), STACK);
    forall v | v in h'.envs ensures EnvOk(setup, v, h'.envs[v]) && SelectionRecorded(h'.envs[v]) {
      if v in h.envs {
        assert EnvOk(setup, v, h.envs[v]) && SelectionRecorded(h.envs[v]);
      }
    }
  }

  lemma {:induction false} InformedRunKeeps(setup: Setup, run: seq<Host>, i: nat)
    requires SetupOk(setup) && InformedRun(setup, run) && i < |run|
    ensures WeakInv(setup, run[i])
  {
    if i > 0 {
      hide WeakInv, SetupOk, UpInformed, UpFails, Down, Edit, Initial;
      InformedRunKeeps(setup, run, i - 1);
      var h, h' := run[i - 1], run[i];
      assert InformedStep(setup, h, h');
      if w, inst, foreign :| UpInformed(setup, h, h', w, inst, foreign) {
        InformedKeeps(setup, h, h', w, inst, foreign);
      } else if w, inst, foreign :| UpFails(setup, h, h', w, inst, foreign) {
        FailKeepsWeak(setup, h, h', w, inst, foreign);
      } else if w :| Down(h, h', w) {
        DownKeepsWeak(setup, h, h', w);
      } else {
        var w :| Edit(h, h', w);
        EditKeepsWeak(setup, h, h', w);
      }
    }
  }

  lemma FailKeepsWeak(setup: Setup, h: Host, h': Host, w: Tree, inst: string, foreign: set<nat>)
    requires WeakInv(setup, h) && UpFails(setup, h, h', w, inst, foreign)
    ensures WeakInv(setup, h')
  {
    FailedLeaves(setup, h, h', w, inst, foreign);
    hide PortsOk, EnvOk, UpFails, SelectionRecorded;
  }

  /** Starts may fail at any time, and leave false records: as long as none succeeds on a window
      that another running stack has, no host port is published by two stacks, and no window
      passes the last port. */
  lemma PortsStayApart(setup: Setup, run: seq<Host>, i: nat)
    requires SetupOk(setup) && InformedRun(setup, run) && i < |run|
    ensures var h := run[i];
            && (forall a, b, p ::
                  (a in h.running && p in Published(setup, a, h.running[a]) &&
                   b in h.running && p in Published(setup, b, h.running[b])) ==> a == b)
            && (forall a, p :: a in h.running && p in Published(setup, a, h.running[a]) ==> p <= MAX_HOST_PORT)
  {
    InformedRunKeeps(setup, run, i);
    PortsMean(setup, run[i].running);
  }

  /** Over any run, failed starts included: the ports stay apart in every state exactly when every
      start that succeeded could have - a reused selection found its window open. */
  lemma PortsStayApartIff(setup: Setup, run: seq<Host>)
    requires SetupOk(setup) && Run(setup, run)
    ensures (forall i :: 0 <= i < |run| ==> Apart(setup, run[i].running)) <==> InformedRun(setup, run)
  {
    hide Apart, SetupOk, Initial, Step, InformedStep;
    if InformedRun(setup, run) {
      forall i | 0 <= i < |run| ensures Apart(setup, run[i].running) {
        InformedRunKeeps(setup, run, i);
        ApartIn(setup, run[i]);
      }
    }
    if forall i :: 0 <= i < |run| ==> Apart(setup, run[i].running) {
      ApartIsInformed(setup, run, |run| - 1);
      assert run[..|run|] == run;
    }
  }

  lemma ApartIn(setup: Setup, h: Host)
    requires WeakInv(setup, h)
    ensures Apart(setup, h.running)
  {
  }

  lemma {:induction false} ApartIsInformed(setup: Setup, run: seq<Host>, i: nat)
    requires SetupOk(setup) && Run(setup, run) && i < |run|
    requires forall k :: 0 <= k <= i ==> Apart(setup, run[k].running)
    ensures InformedRun(setup, run[..i + 1])
  {
    hide Apart, SetupOk, Initial, Step, InformedStep, WeakInv;
    var part := run[..i + 1];
    if i > 0 {
      ApartIsInformed(setup, run, i - 1);
      InformedRunKeeps(setup, run[..i], i - 1);
      assert Step(setup, run[i - 1], run[i - 1 + 1]);
      ApartStepIsInformed(setup, run[i - 1], run[i]);
      forall k | 0 <= k < i ensures InformedStep(setup, part[k], part[k + 1]) {
        if k < i - 1 {
          assert InformedStep(setup, run[..i][k], run[..i][k + 1]);
        }
      }
    }
  }

  lemma ApartStepIsInformed(setup: Setup, h: Host, h': Host)
    requires WeakInv(setup, h) && Step(setup, h, h') && Apart(setup, h'.running)
    ensures InformedStep(setup, h, h')
  {
    hide WeakInv, Up, UpFails, Down, Edit, Apart;
    if w, inst, foreign :| Up(setup, h, h', w, inst, foreign) {
      if Reuses(h, w, inst) {
        RecordedOffset(setup, h, w, inst);
        var offset: nat :| Parse(EnvText(h, w))[OFFSET] == Str(offset);
        ReuseKeepsPortsIff(setup, h, h', w, inst, foreign, offset);
      }
      hide WindowOpen;
      assert UpInformed(setup, h, h', w, inst, foreign);
    }
  }

  lemma RecordedOffset(setup: Setup, h: Host, w: Tree, inst: string)
    requires WeakInv(setup, h) && Reuses(h, w, inst)
    ensures exists offset: nat :: Parse(EnvText(h, w))[OFFSET] == Str(offset)
  {
    CountsKnown(setup, h, w);
    hide WeakInv, Parse, Fits;
  }

  lemma PortsMean(setup: Setup, running: map<string, nat>)
    requires SetupOk(setup) && PortsOk(setup, running)
    ensures forall a, b, p ::
              (a in running && p in Published(setup, a, running[a]) && b in running && p in Published(setup, b, running[b])) ==> a == b
    ensures forall a, p :: a in running && p in Published(setup, a, running[a]) ==> p <= MAX_HOST_PORT
  {
    forall a, p | a in running && p in Published(setup, a, running[a]) ensures p <= MAX_HOST_PORT {
      var q :| q in setup.publishes(a) && p == q + running[a];
      assert q in BASE_HOST_PORTS;
      assert Fits(BASE_HOST_PORTS, running[a]);
    }
  }

  /** After a `down` nothing false is on record. */
  lemma DownClearsRecord(setup: Setup, h: Host, h': Host, w: Tree)
    requires WeakInv(setup, h) && Down(h, h', w) && Provisioned(EnvText(h, w)).Some?
    ensures RecordOk(EnvText(h', w), h'.running) && forall inst :: !Reuses(h', w, inst)
  {
    hide Lines, Count, PortsOk, Remove;
    var text := EnvText(h, w);
    if w in h.envs {
      hide Parse;
      assert EnvOk(setup, w, text);
      ReleasedEnv(setup, w, text);
    } else {
      NothingParsed();
    }
  }

  /** A retry that fails leaves the selection as it is on record, so the next one plans it again. */
  lemma FailedRetryStays(setup: Setup, h: Host, h': Host, w: Tree, inst: string, foreign: set<nat>, offset: nat)
    requires WeakInv(setup, h) && UpFails(setup, h, h', w, inst, foreign)
    requires Reuses(h, w, inst) && Parse(EnvText(h, w))[OFFSET] == Str(offset)
    ensures h'.running == h.running && Reuses(h', w, inst) && Parse(EnvText(h', w))[OFFSET] == Str(offset)
  {
    hide IsPlan, PortsOk, Parse, Planned, EnvOk, Merge, NameOk, StackPorts;
    var occupied := StackPorts(setup, h.running) + foreign;
    var plan :| IsPlan(EnvText(h, w), inst, true, occupied, plan) &&
      h' == if plan.None? then h else h.(envs := h.envs[w := Merge(EnvText(h, w), plan.value)]);
    CountsKnown(setup, h, w);
    ReusePlansRecorded(h, w, inst, occupied, plan, offset);
    MergedEnv(setup, w, EnvText(h, w), inst, offset);
  }

  /** Why the record matters: a start fails, another worktree takes the free window, and from then
      on every plan of the first is that window - which collides with a port the other stack
      publishes, so that the start cannot succeed - although another window fits and is free. */
  lemma FailedStartCollides(setup: Setup, w: Tree, inst: string, w': Tree, inst': string, p: nat) returns (run: seq<Host>)
    requires SetupOk(setup)
    requires NameOk(inst) && NameOk(inst') && inst != inst' && w != w' && setup.owner(inst) == w && setup.owner(inst') == w'
    requires p in setup.publishes(inst) && p in setup.publishes(inst')
    ensures InformedRun(setup, run) && |run| == 3 && PlansTakenWindow(setup, run[2], w, inst, p)
  {
    var text, text' := Merge("", Planned(inst, 0)), Merge("", Planned(inst', 0));
    hide *;
    var h2 := Host(map[w := text, w' := text'], map[inst' := 0]);
    run := [Host(map[], map[]), Host(map[w := text], map[]), h2];
    ThreeStates(setup, run[0], run[1], h2);
    assert EnvText(h2, w) == text by { TextOf(h2, w); }
    FirstTwoSteps(setup, w, inst, w', inst');
    FirstRecord(w, inst);
    TakenAtZero(setup, h2, w, inst, inst', p);
  }

  lemma TextOf(h: Host, w: Tree)
    requires w in h.envs
    ensures EnvText(h, w) == h.envs[w]
  {
  }

  lemma ThreeStates(setup: Setup, h0: Host, h1: Host, h2: Host)
    requires h0 == Host(map[], map[])
    ensures InformedStep(setup, h0, h1) && InformedStep(setup, h1, h2) ==> InformedRun(setup, [h0, h1, h2])
  {
    hide InformedStep, Parse, Count, Lines;
  }

  /** The plan for `inst` is a recorded window, whatever is published; another running stack has
      its port `p`; and some other window fits and is free. */
  ghost predicate PlansTakenWindow(setup: Setup, h: Host, w: Tree, inst: string, p: nat) {
    exists offset, k ::
      && Reuses(h, w, inst)
      && (forall occupied, plan :: IsPlan(EnvText(h, w), inst, true, occupied, plan) ==> plan == Some(Planned(inst, offset)))
      && p + offset in Published(setup, inst, offset) && p + offset in StackPorts(setup, h.running - {inst})
      && Fits(BASE_HOST_PORTS, Candidate(k, OFFSET_STEP))
      && Free(BASE_HOST_PORTS, Candidate(k, OFFSET_STEP), StackPorts(setup, h.running))
  }

  lemma TakenAtZero(setup: Setup, h: Host, w: Tree, inst: string, inst': string, p: nat)
    requires SetupOk(setup) && inst != inst' && h.running == map[inst' := 0]
    requires p in setup.publishes(inst) && p in setup.publishes(inst')
    requires Get(Parse(EnvText(h, w)), OFFSET) == Some(Str(0)) && Get(Parse(EnvText(h, w)), OFFSET_FOR) == Some(inst)
    ensures PlansTakenWindow(setup, h, w, inst, p)
  {
    SecondWindowFree(setup, inst');
    hide Planned, Parse, IsPlan, SetupOk, Free, Fits, Candidate, Str;
    forall occupied, plan | IsPlan(EnvText(h, w), inst, true, occupied, plan) ensures plan == Some(Planned(inst, 0)) {
      ReusePlansRecorded(h, w, inst, occupied, plan, 0);
    }
    assert h.running - {inst} == h.running;
    assert p + 0 in Published(setup, inst, 0) && p + 0 in Published(setup, inst', h.running[inst']);
  }

  lemma FirstTwoSteps(setup: Setup, w: Tree, inst: string, w': Tree, inst': string)
    requires NameOk(inst) && NameOk(inst') && w != w' && setup.owner(inst) == w && setup.owner(inst') == w'
    ensures var text, text' := Merge("", Planned(inst, 0)), Merge("", Planned(inst', 0));
            && InformedStep(setup, Host(map[], map[]), Host(map[w := text], map[]))
            && InformedStep(setup, Host(map[w := text], map[]), Host(map[w := text, w' := text'], map[inst' := 0]))
  {
    var text, text' := Merge("", Planned(inst, 0)), Merge("", Planned(inst', 0));
    var h0, h1 := Host(map[], map[]), Host(map[w := text], map[]);
    var h2 := Host(map[w := text, w' := text'], map[inst' := 0]);
    PlannedFacts(inst', 0);
    FirstPlan(setup, inst);
    FirstPlan(setup, inst');
    NothingParsed();
    hide NameOk, Planned, Merge, Parse, IsPlan, ExportedOffset, Published;
    assert StackPorts(setup, map[]) + {} == {};
    assert h0.envs[w := text] == h1.envs;
    assert UpFails(setup, h0, h1, w, inst, {});
    assert h1.envs[w' := text'] == h2.envs;
    assert UpTo(h1, h2, w', inst', Some(Planned(inst', 0)));
    assert Up(setup, h1, h2, w', inst', {});
    assert UpInformed(setup, h1, h2, w', inst', {});
  }

  lemma FirstRecord(w: Tree, inst: string)
    requires NameOk(inst)
    ensures var env := Parse(Merge("", Planned(inst, 0)));
            Get(env, OFFSET) == Some(Str(0)) && Get(env, OFFSET_FOR) == Some(inst)
  {
    hide Planned, Merge, Parse, Lines, Count, NameOk;
    CountsNothing();
    MergedEnv(Setup(s => w, s => {}), w, "", inst, 0);
  }

  /** Next to one stack at offset 0, the next window is free. */
  lemma SecondWindowFree(setup: Setup, inst: string)
    requires SetupOk(setup)
    ensures Fits(BASE_HOST_PORTS, Candidate(1, OFFSET_STEP))
    ensures Free(BASE_HOST_PORTS, Candidate(1, OFFSET_STEP), StackPorts(setup, map[inst := 0]))
  {
    ShippedHighest();
    hide Highest;
    assert Candidate(1, OFFSET_STEP) == 1000;
    forall q | q in Window(BASE_HOST_PORTS, 1000) ensures q !in BASE_HOST_PORTS {
      var b :| b in BASE_HOST_PORTS && q == b + 1000;
    }
    forall q | q in StackPorts(setup, map[inst := 0]) ensures q in BASE_HOST_PORTS {
      assert q in Published(setup, inst, 0);
    }
  }

  lemma FirstPlan(setup: Setup, inst: string)
    ensures IsPlan("", inst, true, {}, Some(Planned(inst, 0)))
  {
    NothingParsed();
    FirstSelection();
    PlannedIs(inst, Str(0), 0);
    hide Parse, IsSelection, Str;
  }

  lemma FirstSelection()
    ensures IsSelection(BASE_HOST_PORTS, OFFSET_STEP, {}, Some(0))
  {
    ShippedHighest();
    hide Window, Highest;
    assert Candidate(0, OFFSET_STEP) == 0;
    assert Free(BASE_HOST_PORTS, 0, {});
  }

  lemma CountsNothing()
    ensures forall key :: Count(Lines(""), key) == 0
  {
  }

  // ---------------------------------------------------------------- the names provisioning uses

  /** `[A-Za-z0-9._-]`, the characters of a slug. */
  predicate SlugChar(c: char) {
    'a' <= c <= 'z' || 'A' <= c <= 'Z' || '0' <= c <= '9' || c == '.' || c == '_' || c == '-'
  }

  lemma PlainName(s: string)
    requires s != "" && forall i :: 0 <= i < |s| ==> SlugChar(s[i])
    ensures NameOk(s)
  {
    assert Stripped(STACK) && OneLine(STACK) && '=' !in STACK && STACK[0] != '#';
    assert forall c :: SlugChar(c) ==> !Space(c) && c != LF;
    hide Space, SlugChar;
    assert OneLine(s);
  }

  lemma LabelChars(tag: string)
    requires Naming.Label(tag)
    ensures forall i :: 0 <= i < |tag| ==> SlugChar(tag[i])
  {
  }

  lemma SlugChars(slug: string, tag: string)
    requires forall i :: 0 <= i < |slug| ==> SlugChar(slug[i])
    requires forall i :: 0 <= i < |tag| ==> SlugChar(tag[i])
    ensures slug + "-" + tag != "" && forall i :: 0 <= i < |slug + "-" + tag| ==> SlugChar((slug + "-" + tag)[i])
  {
    assert SlugChar('-');
    hide SlugChar;
    var name := slug + "-" + tag;
    forall i | 0 <= i < |name| ensures SlugChar(name[i]) {
      if i < |slug| {
        assert name[i] == slug[i];
      } else if i > |slug| {
        assert name[i] == tag[i - |slug| - 1];
      }
    }
  }

  /** Every name `build_stack_instance` makes is one that the run above may use. */
  lemma BuiltNameIsOk(lower: string -> string, slug: string, branch: string)
    requires slug != "" && forall i :: 0 <= i < |slug| ==> SlugChar(slug[i])
    ensures Naming.Build(lower, slug, branch).Instance? ==> NameOk(Naming.Build(lower, slug, branch).name)
  {
    if Naming.Build(lower, slug, branch).Instance? {
      Naming.SanitizedIsLabel(lower, branch);
      var tag := Naming.Sanitize(lower, branch).value;
      LabelChars(tag);
      hide Naming.Sanitize, Naming.Label, SlugChar, NameOk;
      SlugChars(slug, tag);
      PlainName(slug + "-" + tag);
    }
  }
}

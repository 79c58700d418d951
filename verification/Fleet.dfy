/** Provisioning: the plan for one worktree's `.env`, `up --ports` and `down`, and every run
    of them by many worktrees on one host. `up --ports` and `down` are atomic here: the
    introspection, the write of `.env` and the start or stop of the stack come as one step -
    but the start may fail, after `.env` was written. */
module Fleet {
  import opened Lists
  import opened Text
  import opened Decimal
  import opened EnvFile
  import opened EnvLaws
  import opened Ports

  const STACK := "STACK_INSTANCE"
  const PROJECT := "COMPOSE_PROJECT_NAME"
  const OFFSET := "PORT_OFFSET"
  const OFFSET_FOR := "PORT_OFFSET_FOR"

  /** `plan_provision`; None is the RuntimeError of a full host. */
  ghost predicate IsPlan(text: string, instance: string, withPorts: bool, occupied: set<nat>, plan: Option<Updates>) {
    var base := [(STACK, instance), (PROJECT, instance)];
    var recorded := Parse(text);
    if !withPorts then plan == Some(base)
    else if Get(recorded, OFFSET_FOR) == Some(instance) && OFFSET in recorded then
      plan == Some(base + [(OFFSET, recorded[OFFSET]), (OFFSET_FOR, instance)])
    else
      exists r :: IsSelection(BASE_HOST_PORTS, OFFSET_STEP, occupied, r) &&
        plan == if r.None? then None else Some(base + [(OFFSET, Str(r.value)), (OFFSET_FOR, instance)])
  }

  method PlanProvision(text: string, instance: string, withPorts: bool, occupied: set<nat>)
    returns (plan: Option<Updates>)
    ensures IsPlan(text, instance, withPorts, occupied, plan)
  {
    hide IsSelection;
    var updates := [(STACK, instance), (PROJECT, instance)];
    if withPorts {
      var recorded := ParseEnv(text);
      if OFFSET_FOR in recorded && recorded[OFFSET_FOR] == instance && OFFSET in recorded {
        updates := updates + [(OFFSET, recorded[OFFSET]), (OFFSET_FOR, instance)];
      } else {
        var r := SelectPortOffset(occupied, BASE_HOST_PORTS, OFFSET_STEP);
        if r.None? {
          return None;
        }
        updates := updates + [(OFFSET, Str(r.value)), (OFFSET_FOR, instance)];
      }
    }
    plan := Some(updates);
  }

  class Worktree {
    var env: Option<string>

    function Text(): string
      reads this
    {
      if env.Some? then env.value else ""
    }

    /** `provision`, up to the start of the stack: writes `.env` and returns what the child
        process is given; with no free window nothing is written. */
    method Provision(instance: string, withPorts: bool, occupied: set<nat>) returns (exported: Option<Updates>)
      modifies this
      ensures IsPlan(old(Text()), instance, withPorts, occupied, exported)
      ensures env == if exported.None? then old(env) else Some(Merge(old(Text()), exported.value))
    {
      exported := PlanProvision(Text(), instance, withPorts, occupied);
      if exported.Some? {
        var text := MergeEnvVars(Text(), exported.value);
        env := Some(text);
      }
    }

    /** `deprovision`: the instance to stop is the recorded one, and the offset is released. */
    method Deprovision() returns (stopped: Option<string>)
      modifies this
      ensures stopped == Provisioned(old(Text()))
      ensures stopped.None? ==> env == old(env)
      ensures stopped.Some? ==> Text() == Released(old(Text()))
    {
      var text := Text();
      var recorded := ParseEnv(text);
      if STACK !in recorded || recorded[STACK] == "" {
        return None;
      }
      stopped := Some(recorded[STACK]);
      var released := RemoveEnvVars(text, {OFFSET, OFFSET_FOR});
      if released != text {
        env := Some(released);
      }
    }
  }

  /** The `.env` without the recorded offset. */
  function Released(text: string): string {
    Remove(text, {OFFSET, OFFSET_FOR})
  }

  /** `resolve_provisioned_instance` */
  function Provisioned(text: string): Option<string> {
    var recorded := Parse(text);
    if STACK in recorded && recorded[STACK] != "" then Some(recorded[STACK]) else None
  }

  // ---------------------------------------------------------------- the host

  type Tree = string

  /** The `.env` of each worktree, and the offset each running stack was started with. */
  datatype Host = Host(envs: map<Tree, string>, running: map<string, nat>)

  /** Who owns which instance name, and which base ports a stack publishes. */
  datatype Setup = Setup(owner: string -> Tree, publishes: string -> set<nat>)

  ghost predicate SetupOk(setup: Setup) {
    forall inst, p :: p in setup.publishes(inst) ==> p in BASE_HOST_PORTS
  }

  function Published(setup: Setup, inst: string, offset: nat): set<nat> {
    set p | p in setup.publishes(inst) :: p + offset
  }

  /** The host ports the running stacks publish. */
  function StackPorts(setup: Setup, running: map<string, nat>): set<nat> {
    set inst, p | inst in running && p in Published(setup, inst, running[inst]) :: p
  }

  ghost predicate NameOk(inst: string) {
    inst != "" && Writable((STACK, inst))
  }

  function EnvText(h: Host, w: Tree): string {
    if w in h.envs then h.envs[w] else ""
  }

  /** What the stack is started with: the exported offset. */
  function ExportedOffset(u: Updates): Option<nat> {
    var s := Lookup(u, OFFSET);
    if s.Some? && Decimal.Digits(s.value) then Some(Value(s.value)) else None
  }

  /** `worktree up --ports`; `foreign` are ports published by anything else. */
  ghost predicate Up(setup: Setup, h: Host, h': Host, w: Tree, inst: string, foreign: set<nat>) {
    && NameOk(inst) && setup.owner(inst) == w
    && exists plan: Option<Updates> ::
        && IsPlan(EnvText(h, w), inst, true, StackPorts(setup, h.running) + foreign, plan)
        && UpTo(h, h', w, inst, plan)
  }

  ghost predicate UpTo(h: Host, h': Host, w: Tree, inst: string, plan: Option<Updates>) {
    if plan.None? || ExportedOffset(plan.value).None? then h' == h
    else h' == Host(h.envs[w := Merge(EnvText(h, w), plan.value)],
                    h.running[inst := ExportedOffset(plan.value).value])
  }

  /** `worktree up --ports` whose stack does not start: `.env` is written, and nothing else changes. */
  ghost predicate UpFails(setup: Setup, h: Host, h': Host, w: Tree, inst: string, foreign: set<nat>) {
    && NameOk(inst) && setup.owner(inst) == w
    && exists plan: Option<Updates> ::
        && IsPlan(EnvText(h, w), inst, true, StackPorts(setup, h.running) + foreign, plan)
        && h' == if plan.None? then h else h.(envs := h.envs[w := Merge(EnvText(h, w), plan.value)])
  }

  /** `worktree down` */
  ghost predicate Down(h: Host, h': Host, w: Tree) {
    var inst := Provisioned(EnvText(h, w));
    h' == if inst.None? then h
          else Host(h.envs[w := Released(EnvText(h, w))], h.running - {inst.value})
  }

  /** Somebody edits a `.env` without touching what provisioning recorded there. */
  ghost predicate Edit(h: Host, h': Host, w: Tree) {
    && w in h'.envs && h' == h.(envs := h.envs[w := h'.envs[w]])
    && forall key :: key in {STACK, PROJECT, OFFSET, OFFSET_FOR} ==>
         Count(Lines(h'.envs[w]), key) <= 1 && Get(Parse(h'.envs[w]), key) == Get(Parse(EnvText(h, w)), key)
  }

  /** The `.env` records a selection for this very instance, which `up` would reuse. */
  ghost predicate Reuses(h: Host, w: Tree, inst: string) {
    Get(Parse(EnvText(h, w)), OFFSET_FOR) == Some(inst) && OFFSET in Parse(EnvText(h, w))
  }

  /** A fresh host: nothing runs, and no `.env` records a stack or a selection; it may well
      hold the template's default `PORT_OFFSET`. */
  ghost predicate Initial(h: Host) {
    && h.running == map[]
    && forall w :: w in h.envs ==>
         && STACK !in Parse(h.envs[w]) && OFFSET_FOR !in Parse(h.envs[w])
         && forall key :: key in {STACK, PROJECT, OFFSET, OFFSET_FOR} ==> Count(Lines(h.envs[w]), key) <= 1
  }

  // ---------------------------------------------------------------- what every step keeps

  /** A recorded selection names a running stack, at exactly the recorded offset. */
  ghost predicate RecordOk(text: string, running: map<string, nat>) {
    var env := Parse(text);
    OFFSET_FOR in env && OFFSET in env ==>
      env[OFFSET_FOR] in running && env[OFFSET] == Str(running[env[OFFSET_FOR]])
  }

  ghost predicate EnvOk(setup: Setup, w: Tree, text: string) {
    && (forall key :: key in {STACK, PROJECT, OFFSET, OFFSET_FOR} ==> Count(Lines(text), key) <= 1)
    && (STACK in Parse(text) ==> setup.owner(Parse(text)[STACK]) == w)
    && (OFFSET_FOR in Parse(text) ==> setup.owner(Parse(text)[OFFSET_FOR]) == w)
  }

  /** No host port is published by two stacks. */
  ghost predicate Apart(setup: Setup, running: map<string, nat>) {
    forall i, j :: i in running && j in running && i != j ==>
      Published(setup, i, running[i]) !! Published(setup, j, running[j])
  }

  ghost predicate PortsOk(setup: Setup, running: map<string, nat>) {
    Apart(setup, running) && forall i :: i in running ==> Fits(BASE_HOST_PORTS, running[i])
  }

  // ---------------------------------------------------------------- runs

  /** Any step. */
  ghost predicate Step(setup: Setup, h: Host, h': Host) {
    || (exists w, inst, foreign :: Up(setup, h, h', w, inst, foreign))
    || (exists w, inst, foreign :: UpFails(setup, h, h', w, inst, foreign))
    || (exists w :: Down(h, h', w))
    || (exists w :: Edit(h, h', w))
  }

  /** `plan_provision` takes the branch that reuses, or finds no free window; or - for a stack that
      publishes nothing - selects the very offset it runs at. */
  ghost predicate PlansNothingNew(setup: Setup, h: Host, w: Tree, inst: string, foreign: set<nat>) {
    var occupied := StackPorts(setup, h.running) + foreign;
    || Reuses(h, w, inst)
    || IsSelection(BASE_HOST_PORTS, OFFSET_STEP, occupied, None)
    || (inst in h.running && IsSelection(BASE_HOST_PORTS, OFFSET_STEP, occupied, Some(h.running[inst])))
  }

  ghost predicate FailsHarmlessly(setup: Setup, h: Host, h': Host, w: Tree, inst: string, foreign: set<nat>) {
    UpFails(setup, h, h', w, inst, foreign) && PlansNothingNew(setup, h, w, inst, foreign)
  }

  /** The recorded selection, if it is reused, collides with no other running stack: what a look at
      the host would tell, and the reusing branch does not ask. */
  ghost predicate WindowOpen(setup: Setup, h: Host, w: Tree, inst: string) {
    Reuses(h, w, inst) ==>
      forall offset: nat :: Parse(EnvText(h, w))[OFFSET] == Str(offset) ==>
        Published(setup, inst, offset) !! StackPorts(setup, h.running - {inst})
  }

  /** A start that succeeds on a window that is open. */
  ghost predicate UpInformed(setup: Setup, h: Host, h': Host, w: Tree, inst: string, foreign: set<nat>) {
    Up(setup, h, h', w, inst, foreign) && WindowOpen(setup, h, w, inst)
  }

  /** No start fails but harmlessly. */
  ghost predicate SmoothStep(setup: Setup, h: Host, h': Host) {
    || (exists w, inst, foreign :: Up(setup, h, h', w, inst, foreign))
    || (exists w, inst, foreign :: FailsHarmlessly(setup, h, h', w, inst, foreign))
    || (exists w :: Down(h, h', w))
    || (exists w :: Edit(h, h', w))
  }

  /** Starts may fail, but none succeeds on a window that another stack has. */
  ghost predicate InformedStep(setup: Setup, h: Host, h': Host) {
    || (exists w, inst, foreign :: UpInformed(setup, h, h', w, inst, foreign))
    || (exists w, inst, foreign :: UpFails(setup, h, h', w, inst, foreign))
    || (exists w :: Down(h, h', w))
    || (exists w :: Edit(h, h', w))
  }

  ghost predicate Run(setup: Setup, run: seq<Host>) {
    && run != [] && Initial(run[0])
    && forall i :: 0 <= i < |run| - 1 ==> Step(setup, run[i], run[i + 1])
  }

  ghost predicate SmoothRun(setup: Setup, run: seq<Host>) {
    && run != [] && Initial(run[0])
    && forall i :: 0 <= i < |run| - 1 ==> SmoothStep(setup, run[i], run[i + 1])
  }

  ghost predicate InformedRun(setup: Setup, run: seq<Host>) {
    && run != [] && Initial(run[0])
    && forall i :: 0 <= i < |run| - 1 ==> InformedStep(setup, run[i], run[i + 1])
  }

  /** A recorded selection is an offset that fits, whether or not its stack runs. */
  ghost predicate SelectionRecorded(text: string) {
    OFFSET_FOR in Parse(text) && OFFSET in Parse(text) ==>
      exists n: nat :: Parse(text)[OFFSET] == Str(n) && Fits(BASE_HOST_PORTS, n)
  }

  /** What holds even after failed starts. */
  ghost predicate WeakInv(setup: Setup, h: Host) {
    && (forall w :: w in h.envs ==> EnvOk(setup, w, h.envs[w]) && SelectionRecorded(h.envs[w]))
    && PortsOk(setup, h.running)
  }

  ghost predicate Inv(setup: Setup, h: Host) {
    && (forall w :: w in h.envs ==> EnvOk(setup, w, h.envs[w]) && RecordOk(h.envs[w], h.running))
    && PortsOk(setup, h.running)
  }
}

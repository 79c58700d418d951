/** Test sessions of several worktrees sweeping the transient stacks of one docker host.
    A sweep is many steps - three listings, then for each stack a look at its containers and
    a removal - and the steps of different sessions interleave with stacks coming and going. */
module Sweeps {
  import opened Lists
  import opened Naming

  const STALE_AGE: nat := 3600

  /** Creation times of a stack's containers; None is a time that does not parse. A stack may
      be left with volumes or networks only. */
  datatype Stack = Stack(containers: set<Option<nat>>, volumes: bool, networks: bool)

  datatype Kind = Containers | Volumes | Networks

  datatype Phase =
    | Idle
    | Listing(stale: bool, kinds: seq<Kind>, names: set<string>)
    | Sweeping(stale: bool, todo: set<string>)
    | Reaping(stale: bool, todo: set<string>, project: string)

  type Session = nat

  datatype Docker = Docker(now: nat, stacks: map<string, Stack>, phases: map<Session, Phase>)

  /** The slug of the rendered test project, and each session's worktree instance. */
  datatype Config = Config(slug: string, inst: Session -> string)

  function Has(stack: Stack, kind: Kind): bool {
    match kind
    case Containers => stack.containers != {}
    case Volumes => stack.volumes
    case Networks => stack.networks
  }

  /** `project_created_at`: the newest container time that parses. */
  ghost predicate CreatedAt(stack: Stack, created: Option<nat>) {
    match created
    case None => forall t: nat :: Some(t) !in stack.containers
    case Some(t) => Some(t) in stack.containers && forall u: nat :: Some(u) in stack.containers ==> u <= t
  }

  ghost predicate NoContainers(d: Docker, name: string) {
    name in d.stacks ==> d.stacks[name].containers == {}
  }

  /** There are containers, and no creation time of theirs parses. */
  ghost predicate NoTimes(d: Docker, name: string) {
    name in d.stacks && d.stacks[name].containers == {None}
  }

  /** The newest container is old enough. */
  ghost predicate HourOld(d: Docker, name: string) {
    && name in d.stacks && (exists t: nat :: Some(t) in d.stacks[name].containers)
    && forall t: nat :: Some(t) in d.stacks[name].containers ==> t + STALE_AGE <= d.now
  }

  /** The start-sweep does not spare it. */
  ghost predicate Stale(d: Docker, name: string) {
    NoContainers(d, name) || NoTimes(d, name) || HourOld(d, name)
  }

  /** Its newest container is younger. */
  ghost predicate Young(d: Docker, name: string, t: nat) {
    name in d.stacks && Some(t) in d.stacks[name].containers && d.now < t + STALE_AGE
  }

  /** Exactly the stacks with a young container are not stale. */
  lemma StaleIffNoneYoung(d: Docker, name: string)
    ensures Stale(d, name) <==> forall t: nat :: !Young(d, name, t)
  {
    if (forall t: nat :: !Young(d, name, t)) && name in d.stacks {
      var cs := d.stacks[name].containers;
      assert forall t: nat :: Some(t) in cs ==> !Young(d, name, t);
      if cs != {} && !HourOld(d, name) {
        var x :| x in cs;
        assert forall y :: y in cs ==> y == None;
        assert cs == {None};
      }
    }
  }

  ghost predicate InScope(c: Config, s: Session, stale: bool, name: string) {
    if stale then Tier3Any(c.slug, name) else Tier3Of(c.slug, c.inst(s), name)
  }

  // ---------------------------------------------------------------- steps

  ghost predicate Tick(d: Docker, d': Docker) {
    d.now <= d'.now && d' == d.(now := d'.now)
  }

  /** A stack appears, or gets one more container, volume or network. */
  ghost predicate Grow(d: Docker, d': Docker, name: string) {
    && name in d'.stacks && d' == d.(stacks := d.stacks[name := d'.stacks[name]])
    && (name in d.stacks ==> d.stacks[name].containers <= d'.stacks[name].containers)
    && (forall t: nat :: Some(t) in d'.stacks[name].containers ==>
          t <= d.now && ((name in d.stacks && Some(t) in d.stacks[name].containers) || t == d.now))
  }

  ghost predicate Teardown(d: Docker, d': Docker, name: string) {
    d' == d.(stacks := d.stacks - {name})
  }

  ghost predicate Begin(d: Docker, d': Docker, s: Session, stale: bool) {
    && s in d.phases && d.phases[s].Idle?
    && d' == d.(phases := d.phases[s := Listing(stale, [Containers, Volumes, Networks], {})])
  }

  /** One of the three discovery commands, filtered by the sweep's pattern. */
  ghost predicate ListKind(c: Config, d: Docker, d': Docker, s: Session) {
    && s in d.phases && d.phases[s].Listing? && d.phases[s].kinds != []
    && var p := d.phases[s];
       exists found: set<string> ::
         && (forall n :: n in found <==> n in d.stacks && Has(d.stacks[n], p.kinds[0]) && InScope(c, s, p.stale, n))
         && d' == d.(phases := d.phases[s := Listing(p.stale, p.kinds[1..], p.names + found)])
  }

  ghost predicate EndListing(d: Docker, d': Docker, s: Session) {
    && s in d.phases && d.phases[s].Listing? && d.phases[s].kinds == []
    && d' == d.(phases := d.phases[s := Sweeping(d.phases[s].stale, d.phases[s].names)])
  }

  /** The loop body up to the removal: a start-sweep spares young stacks. */
  ghost predicate Judge(d: Docker, d': Docker, s: Session, name: string) {
    && s in d.phases && d.phases[s].Sweeping? && name in d.phases[s].todo
    && var p := d.phases[s];
       var rest := p.todo - {name};
       exists created ::
         && (if name in d.stacks then CreatedAt(d.stacks[name], created) else created == None)
         && d' == d.(phases := d.phases[s :=
              if p.stale && created.Some? && d.now - created.value < STALE_AGE
              then Sweeping(p.stale, rest) else Reaping(p.stale, rest, name)])
  }

  ghost predicate Reap(d: Docker, d': Docker, s: Session) {
    && s in d.phases && d.phases[s].Reaping?
    && d' == d.(stacks := d.stacks - {d.phases[s].project},
                phases := d.phases[s := Sweeping(d.phases[s].stale, d.phases[s].todo)])
  }

  ghost predicate Finish(d: Docker, d': Docker, s: Session) {
    && s in d.phases && d.phases[s].Sweeping? && d.phases[s].todo == {}
    && d' == d.(phases := d.phases[s := Idle])
  }

  ghost predicate SessionStep(c: Config, d: Docker, d': Docker, s: Session) {
    || (exists stale :: Begin(d, d', s, stale))
    || ListKind(c, d, d', s)
    || EndListing(d, d', s)
    || (exists name :: Judge(d, d', s, name))
    || Reap(d, d', s)
    || Finish(d, d', s)
  }

  ghost predicate Step(c: Config, d: Docker, d': Docker) {
    || Tick(d, d')
    || (exists name :: Grow(d, d', name))
    || (exists name :: Teardown(d, d', name))
    || (exists s :: SessionStep(c, d, d', s))
  }

  ghost predicate Run(c: Config, run: seq<Docker>) {
    && run != []
    && (forall s :: s in run[0].phases ==> run[0].phases[s].Idle?)
    && forall i :: 0 <= i < |run| - 1 ==> Step(c, run[i], run[i + 1])
  }

  // ---------------------------------------------------------------- what every step keeps

  /** A sweep only ever holds names its pattern matches. */
  ghost predicate PhaseInScope(c: Config, s: Session, p: Phase) {
    match p
    case Idle => true
    case Listing(stale, _, names) => forall n :: n in names ==> InScope(c, s, stale, n)
    case Sweeping(stale, todo) => forall n :: n in todo ==> InScope(c, s, stale, n)
    case Reaping(stale, todo, project) =>
      InScope(c, s, stale, project) && forall n :: n in todo ==> InScope(c, s, stale, n)
  }

  ghost predicate ScopeOk(c: Config, d: Docker) {
    forall s :: s in d.phases ==> PhaseInScope(c, s, d.phases[s])
  }

  lemma SessionKeepsScope(c: Config, d: Docker, d': Docker, s: Session)
    requires ScopeOk(c, d) && SessionStep(c, d, d', s)
    ensures ScopeOk(c, d')
  {
    hide InScope;
    assert PhaseInScope(c, s, d'.phases[s]);
  }

  lemma {:induction false} RunKeepsScope(c: Config, run: seq<Docker>, i: nat)
    requires Run(c, run) && i < |run|
    ensures ScopeOk(c, run[i])
  {
    if i > 0 {
      RunKeepsScope(c, run, i - 1);
      var d, d' := run[i - 1], run[i];
      assert Step(c, d, d');
      if s :| SessionStep(c, d, d', s) {
        SessionKeepsScope(c, d, d', s);
      } else {
        assert d'.phases == d.phases;
      }
    }
  }

  /** No container of the stack was created in the last 3600 seconds, as far as times parse. */
  ghost predicate NoneUnderAnHour(d: Docker, name: string) {
    forall t: nat :: name in d.stacks && Some(t) in d.stacks[name].containers ==> t + 3600 <= d.now
  }

  /** A start-sweep goes on to remove the stack exactly when it finds it stale: no container of it
      is known to be less than an hour old. */
  lemma CondemnsIffStale(d: Docker, d': Docker, s: Session, name: string)
    requires Judge(d, d', s, name) && d.phases[s].stale
    ensures d'.phases[s].Reaping? <==> Stale(d, name)
    ensures d'.phases[s].Reaping? <==> NoneUnderAnHour(d, name)
    ensures d'.phases[s].Reaping? ==> d'.phases[s] == Reaping(true, d.phases[s].todo - {name}, name)
  {
    StaleIffNoneYoung(d, name);
    hide Stale;
    var created :|
      && (if name in d.stacks then CreatedAt(d.stacks[name], created) else created == None)
      && d' == d.(phases := d.phases[s :=
           if d.phases[s].stale && created.Some? && d.now - created.value < STALE_AGE
           then Sweeping(d.phases[s].stale, d.phases[s].todo - {name}) else Reaping(d.phases[s].stale, d.phases[s].todo - {name}, name)]);
    if created.Some? {
      assert Young(d, name, created.value) || forall t: nat :: !Young(d, name, t);
    }
  }

  /** A container just started is no protection when its creation time does not parse. */
  lemma UnparsedTimesCondemn(d: Docker, d': Docker, s: Session, name: string)
    requires Judge(d, d', s, name) && d.phases[s].stale && NoTimes(d, name)
    ensures d'.phases[s].Reaping? && d'.phases[s].project == name
  {
    CondemnsIffStale(d, d', s, name);
  }

  /** At step `j` session `s` judged `name`, and up to `i` it has not moved since. */
  ghost predicate JudgedFor(run: seq<Docker>, j: nat, i: nat, s: Session, name: string) {
    && j < i < |run| && Judge(run[j], run[j + 1], s, name) && s in run[i].phases
    && forall k :: j < k <= i ==> s in run[k].phases && run[k].phases[s].Reaping? && run[k].phases[s] == run[i].phases[s]
  }

  /** A session about to remove a stack judged it, at one earlier step. */
  lemma {:induction false} CondemnedWasJudged(c: Config, run: seq<Docker>, i: nat, s: Session) returns (j: nat)
    requires Run(c, run) && i < |run| && s in run[i].phases && run[i].phases[s].Reaping?
    ensures JudgedFor(run, j, i, s, run[i].phases[s].project)
    ensures s in run[j].phases && run[j].phases[s].Sweeping? && run[j].phases[s].stale == run[i].phases[s].stale
  {
    hide Step, JudgedFor;
    var d, d' := run[i - 1], run[i];
    assert Step(c, d, d');
    if s in d.phases && d.phases[s] == d'.phases[s] {
      j := CondemnedWasJudged(c, run, i - 1, s);
      StillJudged(run, j, i, s, d'.phases[s].project);
    } else {
      OnlyJudgeCondemns(c, d, d', s);
      j := i - 1;
      JustJudged(run, i, s);
    }
  }

  lemma JustJudged(run: seq<Docker>, i: nat, s: Session)
    requires 0 < i < |run| && s in run[i].phases && run[i].phases[s].Reaping?
    requires Judge(run[i - 1], run[i], s, run[i].phases[s].project)
    ensures JudgedFor(run, i - 1, i, s, run[i].phases[s].project)
  {
    hide Judge;
  }

  lemma StillJudged(run: seq<Docker>, j: nat, i: nat, s: Session, name: string)
    requires 0 < i < |run| && JudgedFor(run, j, i - 1, s, name)
    requires s in run[i].phases && run[i].phases[s] == run[i - 1].phases[s]
    ensures JudgedFor(run, j, i, s, name)
  {
    hide Judge;
  }

  lemma OnlyJudgeCondemns(c: Config, d: Docker, d': Docker, s: Session)
    requires Step(c, d, d') && s in d'.phases && d'.phases[s].Reaping?
    requires !(s in d.phases && d.phases[s] == d'.phases[s])
    ensures Judge(d, d', s, d'.phases[s].project) && d.phases[s].stale == d'.phases[s].stale
  {
    assert exists name :: Judge(d, d', s, name);
  }

  // ---------------------------------------------------------------- the promises

  /** Session `s` removes the stack `name` in the step after `run[i]`. */
  ghost predicate Reaps(run: seq<Docker>, i: nat, s: Session, name: string) {
    && i + 1 < |run| && s in run[i].phases && run[i].phases[s].Reaping? && run[i].phases[s].project == name
    && Reap(run[i], run[i + 1], s)
  }

  /** Over every interleaving: a finish-sweep reaps only stacks of its own worktree, and a
      start-sweep only test stacks that it judged, when they had no container, none with a
      creation time that parses, or their newest one an hour old. */
  lemma ReapedOnlyIfOwnOrStale(c: Config, run: seq<Docker>, i: nat, s: Session, name: string)
    requires Run(c, run) && Reaps(run, i, s, name)
    ensures if run[i].phases[s].stale
            then Tier3Any(c.slug, name) && exists j: nat :: JudgedFor(run, j, i, s, name) && Stale(run[j], name)
            else Tier3Of(c.slug, c.inst(s), name)
  {
    RunKeepsScope(c, run, i);
    assert PhaseInScope(c, s, run[i].phases[s]);
    if run[i].phases[s].stale {
      var j := CondemnedWasJudged(c, run, i, s);
      CondemnsIffStale(run[j], run[j + 1], s, name);
    }
  }

  /** With distinct instances, a stack of another worktree is not reaped by a session that did
      not find it stale. */
  lemma LivePeerIsSpared(c: Config, run: seq<Docker>, i: nat, s: Session, owner: Session, uuid: string)
    requires Run(c, run) && HexDigits(c.inst(s)) && HexDigits(c.inst(owner)) && c.inst(s) != c.inst(owner)
    requires forall j: nat :: JudgedFor(run, j, i, s, Tier3(c.slug, c.inst(owner), uuid)) ==>
               !Stale(run[j], Tier3(c.slug, c.inst(owner), uuid))
    ensures !Reaps(run, i, s, Tier3(c.slug, c.inst(owner), uuid))
  {
    hide JudgedFor, Stale;
    var name := Tier3(c.slug, c.inst(owner), uuid);
    if Reaps(run, i, s, name) {
      ReapedOnlyIfOwnOrStale(c, run, i, s, name);
      var uuid' :| HexDigits(uuid') && name == Tier3(c.slug, c.inst(s), uuid');
      Tier3Decomposes(c.slug, c.inst(owner), uuid, c.inst(s), uuid');
    }
  }

  /** No durable stack of the same slug is ever reaped. */
  lemma DurableStackIsSpared(c: Config, run: seq<Docker>, i: nat, s: Session, lower: string -> string, branch: string)
    requires Run(c, run) && Build(lower, c.slug, branch).Instance?
    ensures !Reaps(run, i, s, Build(lower, c.slug, branch).name)
  {
    var name := Build(lower, c.slug, branch).name;
    if Reaps(run, i, s, name) {
      RunKeepsScope(c, run, i);
      assert PhaseInScope(c, s, run[i].phases[s]);
      TiersDisjoint(lower, c.slug, branch);
    }
  }

  // ---------------------------------------------------------------- what a finished sweep has done

  /** One whole sweep of session `s`: it begins after `run[b]`, its listing ends after `run[m]`, and it
      finishes after `run[f]`. */
  ghost predicate Sweep(run: seq<Docker>, s: Session, stale: bool, b: nat, m: nat, f: nat) {
    && b < m < f && f + 1 < |run|
    && Begin(run[b], run[b + 1], s, stale) && EndListing(run[m], run[m + 1], s) && Finish(run[f], run[f + 1], s)
    && (forall k :: b < k <= m ==> s in run[k].phases && run[k].phases[s].Listing?)
    && (forall k :: m < k <= f ==> s in run[k].phases && (run[k].phases[s].Sweeping? || run[k].phases[s].Reaping?))
  }

  /** Throughout the listing the stack has containers, or volumes, or networks. */
  ghost predicate Stands(run: seq<Docker>, b: nat, m: nat, name: string, kind: Kind)
    requires m < |run|
  {
    forall k :: b < k <= m ==> name in run[k].stacks && Has(run[k].stacks[name], kind)
  }

  lemma ListingStep(c: Config, d: Docker, d': Docker, s: Session)
    requires Step(c, d, d') && s in d.phases && s in d'.phases && d.phases[s].Listing? && d'.phases[s].Listing?
    ensures d'.phases[s] == d.phases[s] || ListKind(c, d, d', s)
  {
    hide InScope, Has;
  }

  lemma ActiveStep(c: Config, d: Docker, d': Docker, s: Session)
    requires Step(c, d, d') && s in d.phases && s in d'.phases && (d.phases[s].Sweeping? || d.phases[s].Reaping?) && (d'.phases[s].Sweeping? || d'.phases[s].Reaping?)
    ensures d'.phases[s].todo == d.phases[s].todo ||
            exists name :: Judge(d, d', s, name) && d'.phases[s].todo == d.phases[s].todo - {name}
    ensures d.phases[s].Reaping? ==> d'.phases[s] == d.phases[s] || Reap(d, d', s)
  {
    hide InScope, Has, CreatedAt;
  }

  lemma {:induction false} ListedSoFar(c: Config, run: seq<Docker>, s: Session, stale: bool, b: nat, m: nat, k: nat, name: string, kind: Kind)
    requires Run(c, run) && b < k <= m < |run| && Begin(run[b], run[b + 1], s, stale)
    requires forall k :: b < k <= m ==> s in run[k].phases && run[k].phases[s].Listing?
    requires Stands(run, b, m, name, kind) && InScope(c, s, stale, name)
    ensures run[k].phases[s].stale == stale && (kind in run[k].phases[s].kinds || name in run[k].phases[s].names)
  {
    if k > b + 1 {
      ListedSoFar(c, run, s, stale, b, m, k - 1, name, kind);
      var d, d' := run[k - 1], run[k];
      hide Begin, InScope, Has;
      assert Step(c, d, d');
      ListingStep(c, d, d', s);
      assert name in d.stacks && Has(d.stacks[name], kind);
      hide ListKind, Run, Stands, Step;
      if d'.phases[s] != d.phases[s] {
        ListedOne(c, d, d', s, name, kind);
      }
    }
  }

  lemma ListedOne(c: Config, d: Docker, d': Docker, s: Session, name: string, kind: Kind)
    requires ListKind(c, d, d', s) && name in d.stacks && Has(d.stacks[name], kind) && InScope(c, s, d.phases[s].stale, name)
    requires kind in d.phases[s].kinds || name in d.phases[s].names
    ensures s in d'.phases && d'.phases[s].Listing? && d'.phases[s].stale == d.phases[s].stale
    ensures kind in d'.phases[s].kinds || name in d'.phases[s].names
  {
    hide InScope, Has;
    assert d.phases[s].kinds == [d.phases[s].kinds[0]] + d.phases[s].kinds[1..];
  }

  lemma {:induction false} StillToDo(c: Config, run: seq<Docker>, s: Session, m: nat, k: nat, name: string)
    requires Run(c, run) && m < k < |run|
    requires forall k' :: m < k' <= k ==> s in run[k'].phases && (run[k'].phases[s].Sweeping? || run[k'].phases[s].Reaping?)
    requires name in run[m + 1].phases[s].todo
    requires forall j: nat :: m < j < k ==> !JudgedAt(run, j, s, name)
    ensures name in run[k].phases[s].todo
  {
    if k > m + 1 {
      StillToDo(c, run, s, m, k - 1, name);
      var d, d' := run[k - 1], run[k];
      hide Judge;
      assert Step(c, d, d');
      ActiveStep(c, d, d', s);
      if d'.phases[s].todo != d.phases[s].todo {
        var n :| Judge(d, d', s, n) && d'.phases[s].todo == d.phases[s].todo - {n};
        assert !JudgedAt(run, k - 1, s, name);
        assert n != name;
      }
    }
  }

  ghost predicate JudgedAt(run: seq<Docker>, j: nat, s: Session, name: string) {
    j + 1 < |run| && Judge(run[j], run[j + 1], s, name)
  }

  ghost predicate RemovedBetween(run: seq<Docker>, j: int, f: nat, s: Session, name: string) {
    exists k: nat :: j < k < f && Reaps(run, k, s, name)
  }

  lemma {:induction false} CondemnedIsReaped(c: Config, run: seq<Docker>, s: Session, j: nat, f: nat, name: string)
    requires Run(c, run) && j <= f < |run|
    requires forall k :: j <= k <= f ==> s in run[k].phases && (run[k].phases[s].Sweeping? || run[k].phases[s].Reaping?)
    requires run[j].phases[s].Reaping? && run[j].phases[s].project == name && run[f].phases[s].Sweeping?
    ensures RemovedBetween(run, j - 1, f, s, name)
    decreases f - j
  {
    var d, d' := run[j], run[j + 1];
    hide Reap;
    assert Step(c, d, d');
    ActiveStep(c, d, d', s);
    if Reap(d, d', s) {
      assert Reaps(run, j, s, name);
    } else {
      CondemnedIsReaped(c, run, s, j + 1, f, name);
    }
  }

  /** A sweep that finishes has judged every stack in its scope that stood throughout its listing,
      be it of volumes or networks only, and has removed it - a start-sweep, if it found it stale. */
  lemma FinishedSweepIsComplete(c: Config, run: seq<Docker>, s: Session, stale: bool, b: nat, m: nat, f: nat, name: string, kind: Kind)
    requires Run(c, run) && Sweep(run, s, stale, b, m, f)
    requires Stands(run, b, m, name, kind) && InScope(c, s, stale, name)
    ensures exists j: nat :: m < j < f && JudgedAt(run, j, s, name) && ((stale ==> Stale(run[j], name)) ==> RemovedBetween(run, j, f, s, name))
  {
    hide Begin, InScope, Stands, Judge, Stale, Reaps, Run;
    ListedSoFar(c, run, s, stale, b, m, m, name, kind);
    assert run[m + 1].phases[s] == Sweeping(stale, run[m].phases[s].names);
    if forall j: nat :: m < j < f ==> !JudgedAt(run, j, s, name) {
      StillToDo(c, run, s, m, f, name);
    }
    var j: nat :| m < j < f && JudgedAt(run, j, s, name);
    StaleKept(c, run, s, stale, m, j);
    JudgedEnds(run[j], run[j + 1], s, name);
    if stale {
      CondemnsIffStale(run[j], run[j + 1], s, name);
    }
    if stale ==> Stale(run[j], name) {
      CondemnedIsReaped(c, run, s, j + 1, f, name);
    }
  }

  lemma {:induction false} StaleKept(c: Config, run: seq<Docker>, s: Session, stale: bool, m: nat, k: nat)
    requires Run(c, run) && m < k < |run|
    requires forall k' :: m < k' <= k ==> s in run[k'].phases && (run[k'].phases[s].Sweeping? || run[k'].phases[s].Reaping?)
    requires run[m + 1].phases[s].stale == stale
    ensures run[k].phases[s].stale == stale
  {
    if k > m + 1 {
      StaleKept(c, run, s, stale, m, k - 1);
      assert Step(c, run[k - 1], run[k - 1 + 1]);
      SweepKeepsKind(c, run[k - 1], run[k], s);
    }
  }

  lemma SweepKeepsKind(c: Config, d: Docker, d': Docker, s: Session)
    requires Step(c, d, d') && s in d.phases && s in d'.phases && (d.phases[s].Sweeping? || d.phases[s].Reaping?) && (d'.phases[s].Sweeping? || d'.phases[s].Reaping?)
    ensures d'.phases[s].stale == d.phases[s].stale
  {
    hide InScope, Has, CreatedAt;
  }

  lemma JudgedEnds(d: Docker, d': Docker, s: Session, name: string)
    requires Judge(d, d', s, name)
    ensures s in d.phases && d.phases[s].Sweeping? && s in d'.phases
    ensures !d.phases[s].stale ==> d'.phases[s].Reaping?
    ensures d'.phases[s].Reaping? ==> d'.phases[s].project == name
  {
    hide CreatedAt;
  }

  // ---------------------------------------------------------------- from the judgement to the removal

  ghost predicate HasTime(d: Docker, name: string, t: nat) {
    name in d.stacks && Some(t) in d.stacks[name].containers
  }

  /** Somebody puts a container with this creation time into the stack. */
  ghost predicate Adds(d: Docker, d': Docker, name: string, t: nat) {
    Grow(d, d', name) && HasTime(d', name, t) && !HasTime(d, name, t)
  }

  lemma OnlyGrowAdds(c: Config, d: Docker, d': Docker, name: string, t: nat)
    requires Step(c, d, d') && HasTime(d', name, t) && !HasTime(d, name, t)
    ensures Adds(d, d', name, t)
  {
    if n :| Grow(d, d', n) {
    } else if s :| SessionStep(c, d, d', s) {
    } else {
    }
  }

  lemma {:induction false} AddedBetween(c: Config, run: seq<Docker>, j: nat, i: nat, name: string, t: nat)
    requires Run(c, run) && j <= i < |run| && !HasTime(run[j], name, t) && HasTime(run[i], name, t)
    ensures exists k :: j <= k < i && Adds(run[k], run[k + 1], name, t)
    decreases i - j
  {
    hide HasTime, Adds, Step;
    if HasTime(run[i - 1], name, t) {
      AddedBetween(c, run, j, i - 1, name, t);
    } else {
      OnlyGrowAdds(c, run[i - 1], run[i], name, t);
      assert Adds(run[i - 1], run[i - 1 + 1], name, t);
    }
  }

  lemma StepPasses(c: Config, d: Docker, d': Docker)
    requires Step(c, d, d')
    ensures d.now <= d'.now
  {
  }

  lemma {:induction false} TimePasses(c: Config, run: seq<Docker>, j: nat, i: nat)
    requires Run(c, run) && j <= i < |run|
    ensures run[j].now <= run[i].now
    decreases i - j
  {
    if j < i {
      TimePasses(c, run, j, i - 1);
      StepPasses(c, run[i - 1], run[i]);
    }
  }

  /** What was stale stays stale until somebody adds a container to it. */
  lemma StaleUntilGrown(c: Config, d: Docker, d': Docker, name: string)
    requires Stale(d, name) && Step(c, d, d')
    requires !Grow(d, d', name)
    ensures Stale(d', name)
  {
    StaleIffNoneYoung(d, name);
    StaleIffNoneYoung(d', name);
    StepPasses(c, d, d');
    hide Stale, Step;
    if t: nat :| Young(d', name, t) {
      assert !Young(d, name, t);
      OnlyGrowAdds(c, d, d', name, t);
    }
  }

  /** A container was put in after step `j`, is there at `i` and is still young then. */
  ghost predicate Joined(run: seq<Docker>, j: nat, i: nat, name: string)
    requires i < |run|
  {
    exists k, t: nat :: j <= k < i && Adds(run[k], run[k + 1], name, t) && Young(run[i], name, t)
  }

  /** What was stale at some step of a run is stale at a later one exactly when no container
      put in between is there and young. */
  lemma StaleUnlessJoined(c: Config, run: seq<Docker>, j: nat, i: nat, name: string)
    requires Run(c, run) && j <= i < |run| && Stale(run[j], name)
    ensures Stale(run[i], name) <==> !Joined(run, j, i, name)
  {
    StaleIffNoneYoung(run[j], name);
    StaleIffNoneYoung(run[i], name);
    TimePasses(c, run, j, i);
    hide Stale, Adds, Run;
    if t: nat :| Young(run[i], name, t) {
      assert !Young(run[j], name, t);
      AddedBetween(c, run, j, i, name, t);
      var k :| j <= k < i && Adds(run[k], run[k + 1], name, t);
    }
  }

  /** A stack that a start-sweep removes is stale at the removal exactly when nobody, since the
      sweep judged it, put in a container that is there and young; and so it is when nobody put
      in anything. */
  lemma StaleAtRemovalIff(c: Config, run: seq<Docker>, i: nat, s: Session, name: string)
    requires Run(c, run) && Reaps(run, i, s, name) && run[i].phases[s].stale
    ensures exists j: nat :: JudgedFor(run, j, i, s, name)
    ensures forall j: nat :: JudgedFor(run, j, i, s, name) ==>
              && (Stale(run[i], name) <==> !Joined(run, j, i, name))
              && ((forall k :: j <= k < i ==> !Grow(run[k], run[k + 1], name)) ==> Stale(run[i], name))
  {
    var j0 := CondemnedWasJudged(c, run, i, s);
    forall j: nat | JudgedFor(run, j, i, s, name)
      ensures Stale(run[i], name) <==> !Joined(run, j, i, name)
      ensures (forall k :: j <= k < i ==> !Grow(run[k], run[k + 1], name)) ==> Stale(run[i], name)
    {
      OneJudgement(run, j, j0, i, s, name);
      CondemnsIffStale(run[j], run[j + 1], s, name);
      StaleUnlessJoined(c, run, j, i, name);
    }
  }

  /** There is one judging step only. */
  lemma OneJudgement(run: seq<Docker>, j: nat, j': nat, i: nat, s: Session, name: string)
    requires JudgedFor(run, j, i, s, name) && JudgedFor(run, j', i, s, name)
    ensures j == j'
  {
    assert s in run[j].phases && run[j].phases[s].Sweeping?;
    assert s in run[j'].phases && run[j'].phases[s].Sweeping?;
  }

  // ---------------------------------------------------------------- the gap before the removal

  /** A host with one stack, of one network and no container, and one session. */
  function Lone(s: Session, name: string, p: Phase): Docker {
    Docker(0, map[name := Stack({}, false, true)], map[s := p])
  }

  lemma LoneBegins(c: Config, s: Session, name: string)
    ensures Step(c, Lone(s, name, Idle), Lone(s, name, Listing(true, [Containers, Volumes, Networks], {})))
  {
    var d, d' := Lone(s, name, Idle), Lone(s, name, Listing(true, [Containers, Volumes, Networks], {}));
    assert Begin(d, d', s, true);
    assert SessionStep(c, d, d', s);
  }

  lemma LoneLists(c: Config, s: Session, name: string, kinds: seq<Kind>, names: set<string>)
    requires kinds != [] && Tier3Any(c.slug, name)
    ensures Step(c, Lone(s, name, Listing(true, kinds, names)),
                 Lone(s, name, Listing(true, kinds[1..], if kinds[0].Networks? then names + {name} else names)))
  {
    var d := Lone(s, name, Listing(true, kinds, names));
    var d' := Lone(s, name, Listing(true, kinds[1..], if kinds[0].Networks? then names + {name} else names));
    var found: set<string> := if kinds[0].Networks? then {name} else {};
    assert InScope(c, s, true, name);
    assert names + found == if kinds[0].Networks? then names + {name} else names;
    assert forall n :: n in found <==> n in d.stacks && Has(d.stacks[n], kinds[0]) && InScope(c, s, true, n);
    assert ListKind(c, d, d', s);
    assert SessionStep(c, d, d', s);
  }

  lemma LoneEnds(c: Config, s: Session, name: string)
    ensures Step(c, Lone(s, name, Listing(true, [], {name})), Lone(s, name, Sweeping(true, {name})))
  {
    var d, d' := Lone(s, name, Listing(true, [], {name})), Lone(s, name, Sweeping(true, {name}));
    assert EndListing(d, d', s);
    assert SessionStep(c, d, d', s);
  }

  lemma LoneJudges(c: Config, s: Session, name: string)
    ensures Step(c, Lone(s, name, Sweeping(true, {name})), Lone(s, name, Reaping(true, {}, name)))
  {
    var d, d' := Lone(s, name, Sweeping(true, {name})), Lone(s, name, Reaping(true, {}, name));
    assert CreatedAt(d.stacks[name], None);
    assert {name} - {name} == {};
    assert Judge(d, d', s, name);
    assert SessionStep(c, d, d', s);
  }

  /** Staleness is judged before the removal, and nothing holds the stack still in between: a
      peer that starts a container in that gap loses it. Here, for any names, is such a run. */
  lemma GapLosesAYoungContainer(c: Config, s: Session, owner: Session, uuid: string) returns (run: seq<Docker>, i: nat)
    requires HexDigits(c.inst(owner)) && HexDigits(uuid)
    ensures Run(c, run) && Reaps(run, i, s, Tier3(c.slug, c.inst(owner), uuid))
    ensures run[i].phases[s].stale && !Stale(run[i], Tier3(c.slug, c.inst(owner), uuid))
  {
    hide Step, Tier3;
    var name := Tier3(c.slug, c.inst(owner), uuid);
    assert Tier3Of(c.slug, c.inst(owner), name);
    var all := [Containers, Volumes, Networks];
    assert all[1..] == [Volumes, Networks] && all[1..][1..] == [Networks] && all[1..][1..][1..] == [];
    var d7 := Docker(0, map[name := Stack({Some(0)}, false, true)], map[s := Reaping(true, {}, name)]);
    var d8 := Docker(0, map[], map[s := Sweeping(true, {})]);
    run, i := [Lone(s, name, Idle), Lone(s, name, Listing(true, all, {})), Lone(s, name, Listing(true, all[1..], {})),
               Lone(s, name, Listing(true, all[1..][1..], {})), Lone(s, name, Listing(true, [], {name})),
               Lone(s, name, Sweeping(true, {name})), Lone(s, name, Reaping(true, {}, name)), d7, d8], 7;
    LoneBegins(c, s, name);
    LoneLists(c, s, name, all, {});
    LoneLists(c, s, name, all[1..], {});
    LoneLists(c, s, name, all[1..][1..], {});
    assert {} + {name} == {name};
    LoneEnds(c, s, name);
    LoneJudges(c, s, name);
    GapGrows(c, s, name, d7);
    GapReaps(c, s, name, d7, d8);
    assert Young(d7, name, 0);
    StaleIffNoneYoung(d7, name);
  }

  lemma GapGrows(c: Config, s: Session, name: string, d7: Docker)
    requires d7 == Docker(0, map[name := Stack({Some(0)}, false, true)], map[s := Reaping(true, {}, name)])
    ensures Step(c, Lone(s, name, Reaping(true, {}, name)), d7)
  {
    assert Grow(Lone(s, name, Reaping(true, {}, name)), d7, name);
  }

  lemma GapReaps(c: Config, s: Session, name: string, d7: Docker, d8: Docker)
    requires d7 == Docker(0, map[name := Stack({Some(0)}, false, true)], map[s := Reaping(true, {}, name)])
    requires d8 == Docker(0, map[], map[s := Sweeping(true, {})])
    ensures Reap(d7, d8, s) && Step(c, d7, d8)
  {
    assert d7.stacks - {name} == map[];
    assert Reap(d7, d8, s);
    assert SessionStep(c, d7, d8, s);
  }
}

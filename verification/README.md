# Verified model of the framework CLI

A Dafny model of six parts of the framework CLI that keep state over long runs or rewrite text
that something else must read back, with proofs of what they promise.

* **Review queue** - `Checkpoint`, `RunStage`, `StageLaws`, `Engine`, `PoolMachine`,
  `PoolInvariant`, `PoolSteps`, `PoolTheorems`: the run directory, the serial queues, and the thread pool as a
  state machine whose workers interleave step by step, with crashes, exhaustion and resumes.
* **Worktrees** - `EnvFile`, `EnvLaws`, `Ports`, `Decimal`, `Naming`, `Fleet`, `FleetProof`,
  `Sweeps`: `.env` rewriting, the port search, instance names, every run of `up` and `down` on a
  host, and the sweeps of test stacks by several sessions at once.
* **Integrity lock** - `Sections`, `Manifest`, `Integrity`, `IntegrityRuns`, with `Json` and
  `JsonValues` and `Numerals`, a JSON printer and decoder (RFC 8259).
* **Batteries** - `Batteries`, `Downskill`, `DownskillLaws`: the dependency closure, and removal
  over a file tree and two renders.
* **Agents** - `Agentic`, `AgenticLaws`, `Findings`, `Hunks`, `HunksLaws`: the tool-use loop, the
  findings scanner and the hunk validator.
* **Audit and settings** - `Changelists`, `ReplyJson`, `Reconcile`, `Refute`, `AuditRun`, `AuditLaws`,
  `AuditSessions`: the chained audit stages over many sessions; `Pairwise`: the greedy pair cover; `Answers`, `AnswersLaws`,
  `AnswersView`: the writers and readers of the answers file.

`Lists` and `Text` hold what Python's lists and strings do (`splitlines`, `join`, `strip`, string
order). Objects the program updates in place are classes; its loops are methods, each tied by its
`ensures` to a function about which the lemmas speak. What a call answers that the program cannot
foresee - the backend, a tool, a render, `docker ps`, the work of an item - is a parameter, so
every statement holds for all of them.

## Where the code does less than it says

Each of these is a lemma: the case in which the expected property fails, and when it holds.

* `merge_env_vars` rewrites the first assignment of a key while `parse_env` reads the last
  (`EnvLaws.MergeOverridesIff`).
* The start-sweep judges a stack's age before it removes it; a container started in between is
  lost (`Sweeps.GapLosesAYoungContainer`, and exactly when: `Sweeps.StaleAtRemovalIff`).
* `project_created_at` gives no time also for a stack whose containers' times do not parse, which
  its documentation does not say; such a stack is reaped (`Sweeps.UnparsedTimesCondemn`).
* `up --ports` writes `.env` before the stack starts. When the start fails, the record may name no
  running stack (exactly when: `FleetProof.FailedStartIsHarmlessIff`), and every retry until a
  `down` plans the recorded window again, even when another stack has taken it, so that the start
  cannot succeed, and another window is free (`FleetProof.FailedStartCollides`). No port is
  published twice as long as no start succeeds on a taken window (`FleetProof.PortsStayApartIff`).
* `validate_patch_hunks` takes a removed line `-- ...` or an added line `++ ...` for a file header,
  and an empty line between files for context (`HunksLaws.CorrectDiffPassesIff`).
* `run_audit` stamps the directory before it audits and deletes nothing of an older run, so a run
  cut short is resumed with an older run's reports, changelist or verdicts (exactly when:
  `AuditSessions.ReportsAreOwnIff`, `AuditSessions.ChangelistIsOwnIff`,
  `AuditSessions.VerdictsAreOwnIff`; never in a new directory: `AuditSessions.AlwaysCleanIff`).
* A reply that is a list of one object among prose is read as the object, so `_one_skeptic_verdict`
  accepts it, while its documentation says that an array is treated as a parse failure
  (`ReplyJson.ListOfOneIsUnwrapped`; without prose it is an array: `ReplyJson.BareReads`).
* Two changes for one agent survive reconciling and then share their verdicts
  (`Reconcile.CanonicalDoesNotMerge`, `AuditLaws.OwnVerdictsIff`).
* A battery or channel called `yes` or `null` would not be read back (`AnswersLaws.ListReadsBackIff`).
* An identity value with a character above U+FFFF is written as a JSON surrogate pair, which YAML
  does not join again (`AnswersView.IdentityReadsBackIff`).

## Model

| member | source | states |
|---|---|---|
| PoolSteps.RunKeepsInvariant | src/framework_cli/review/audit/orchestrator.py:60-100 | every state of every run of the thread pool - each worker in its own place inside or outside the lock, `append_record` in its steps, crashes and resumes at any point - satisfies the invariant: one holder of the lock, no torn state file, records before marks |
| PoolTheorems.DoneIsSafe | src/framework_cli/review/audit/orchestrator.py:68-97 | in every state of every run `done` is duplicate-free and planned, each done id was worked by exactly the call on record, and its file holds what that call returned or, under the item's own id, the error it raised; no session works an id twice |
| PoolTheorems.RunAdvances | src/framework_cli/review/checkpoint.py:42-57 | over every run with crashes and resumes `done` only grows at its end, the record of a done id never changes again, and no later call of `work` is for it |
| PoolTheorems.WorkIsBounded | src/framework_cli/review/checkpoint.py:42-57 | at every moment `work` has been called at most once per planned item plus once per thread and interruption |
| PoolTheorems.RaisesIffExhausted | src/framework_cli/review/audit/orchestrator.py:77-100 | a drained pool raises iff the work of some pending item exhausts the backend, which is iff the serial path raises |
| PoolTheorems.PoolReturnsSerialList | src/framework_cli/review/audit/orchestrator.py:50-103 | a drained pool that did not raise returns the serial path's list, in the same order, from the same directory |
| PoolTheorems.NoDeadlock | src/framework_cli/review/audit/orchestrator.py:64-97 | until the pool has drained some thread can move, whatever the schedule |
| PoolTheorems.SessionTerminates | src/framework_cli/review/audit/orchestrator.py:96-97 | every step of a session decreases a measure, so every schedule drains |
| PoolTheorems.PoolIsFaithful | src/framework_cli/review/audit/orchestrator.py:64-103 | in every state of every run of the pool the stage is what a serial session may leave, and a pool drained without exhaustion returns, position by position, each item's value or failure |
| Checkpoint.RunDir.constructor | src/framework_cli/review/checkpoint.py:16-19 | a directory without a state file, with whatever record files are there |
| Checkpoint.RunDir.InitRun | src/framework_cli/review/checkpoint.py:16-29 | the plan is recorded with nothing done; record files are left alone |
| Checkpoint.RunDir.WriteState | src/framework_cli/review/checkpoint.py:32-35 | the state is replaced and no temporary file stays |
| Checkpoint.RunDir.AppendRecord | src/framework_cli/review/checkpoint.py:42-51 | the record is written, then its id is marked done once; without a state file the record stays and the call fails |
| Checkpoint.RunDir.PendingItems | src/framework_cli/review/checkpoint.py:54-57 | the stored plan without the done ids, in plan order |
| RunStage.SerialRunMarks | src/framework_cli/review/audit/orchestrator.py:50-60 | raises iff a pending item exhausts the backend, and marks exactly the items before the first such one, in order |
| RunStage.SerialRunFiles | src/framework_cli/review/audit/orchestrator.py:52-60 | the file of each item that ran holds what its work returned or, under its own id, the error it raised; every other file is untouched |
| RunStage.ItemsKeepTheirIds | src/framework_cli/review/audit/orchestrator.py:48 | every item is worked as itself iff no two different items share an id |
| StageLaws.StageAdvances | src/framework_cli/review/audit/orchestrator.py:28-103 | a session of a run, cut short or not, leaves the stage the run's own, each done item's file with its value or failure, and when it finishes it returns these position by position; repeated ids included |
| StageLaws.StageRaisesIff | src/framework_cli/review/audit/orchestrator.py:50-60 | a stage raises iff some item still to be done exhausts the backend |
| StageLaws.ResumeIgnoresStrangers | src/framework_cli/review/audit/orchestrator.py:39-47 | a resume works and returns the planned and done items only, as if no other had been asked for |
| RunStage.RunPending | src/framework_cli/review/audit/orchestrator.py:50-60 | the loop carries out exactly the serial run of the pending items |
| RunStage.ReadBack | src/framework_cli/review/audit/orchestrator.py:102-103 | the records of the done ids, in the order of the items |
| RunStage.RunSerial | src/framework_cli/review/audit/orchestrator.py:28-103 | the whole serial stage: start or resume, run, read back; ties the directory and the result to `StageEnd` |
| Engine.RunEngine | src/framework_cli/review/engine.py:90-131 | what one session returns and leaves: it runs the pending items until exhaustion, records each, sorts them into completed and failed, and fails iff it resumes without a state file |
| Engine.SessionSorts | src/framework_cli/review/engine.py:111-131 | a session's completed items are those whose work returned and its failed ones those whose work raised, in order, up to the first that exhausts the backend; each record is its item's value or failure |
| Engine.SessionAdvances | src/framework_cli/review/engine.py:111-131 | a session takes the plan up where the last one left it, and is exhausted iff it leaves something undone |
| Engine.SessionsAddUp | src/framework_cli/review/engine.py:90-131 | however often a run is cut short and resumed, the sessions together return the record of each planned item once, in plan order |
| EnvFile.ParseEnv | src/framework_cli/template/scripts/worktree.py:104-113 | the loop computes `Parse`: assignments of the live lines, the later one winning |
| EnvFile.MergeEnvVars | src/framework_cli/template/scripts/worktree.py:116-136 | the loop computes `Merge`: rewrite the first live line of each key, append the rest, keep the final line break |
| EnvFile.RemoveEnvVars | src/framework_cli/template/scripts/worktree.py:295-311 | the loop computes `Remove`: drop every live line of the keys |
| EnvLaws.AssignmentIff | src/framework_cli/template/scripts/worktree.py:106-113 | a line is read as key and value exactly when it is `key=value` with blanks around both; a line says nothing exactly when it has no `=` or `#` is its first character that is no blank |
| EnvLaws.ParseMeans | src/framework_cli/template/scripts/worktree.py:104-113 | on every file a key has the value that the last line which says anything of it says |
| EnvLaws.ParseIsLastValue | src/framework_cli/template/scripts/worktree.py:104-113 | each key has its last live assignment, and no other key is there |
| EnvLaws.ReadAfterMerge | src/framework_cli/template/scripts/worktree.py:104-136 | what every key reads as after a merge, for every file |
| EnvLaws.MergeOverridesIff | src/framework_cli/template/scripts/worktree.py:116-136 | the merged file reads as the old one overridden by the updates iff no updated key has two live assignments with another last value |
| EnvLaws.MergeKeepsLines | src/framework_cli/template/scripts/worktree.py:121-133 | line by line: the first line that says anything of an updated key becomes `key=value`, every other line stays as and where it is, and the updates no line was for are appended in order |
| EnvLaws.MergeTwice | src/framework_cli/template/scripts/worktree.py:116-136 | a second merge with the same updates changes nothing, on every file |
| EnvLaws.ReadAfterRemove | src/framework_cli/template/scripts/worktree.py:295-311 | the removed keys read as absent and all others as before, duplicates and commented decoys included |
| EnvLaws.RemoveKeepsLines | src/framework_cli/template/scripts/worktree.py:301-308 | line by line: the lines that say anything of a released key go, all others stay in order |
| Ports.SelectPortOffset | src/framework_cli/template/scripts/worktree.py:192-213 | the least multiple of the step whose window fits and avoids the occupied ports; none iff there is none |
| Ports.SelectionMeans | src/framework_cli/template/scripts/worktree.py:192-213 | port by port: no base port moved by the offset is occupied or above 65535, at every smaller multiple of the step one is, and there is no selection iff at every multiple one is |
| Ports.SelectionUnique | src/framework_cli/template/scripts/worktree.py:192-213 | the occupied ports determine the selection |
| Ports.NeverExhausted | src/framework_cli/template/scripts/worktree.py:192-213 | with at most m base ports per residue and more than m x occupied candidate windows a window is free (pigeonhole) |
| Ports.ShippedNeverExhausted | src/framework_cli/template/scripts/worktree.py:150-213 | with the shipped ports and step any 19 occupied ports leave a window |
| Naming.SanitizedIsLabel | src/framework_cli/template/scripts/worktree.py:37-45 | a sanitised name is a label (letters and digits, single inner dashes, as in section 2.1 of RFC 1123 without its length limit), and labels are left as they are |
| Naming.WordsAreJoined | src/framework_cli/template/scripts/worktree.py:37-45 | words over `a-z0-9`, with anything else between and around them, are sanitised to the words joined by single dashes |
| Naming.SanitizeMeans | src/framework_cli/template/scripts/worktree.py:37-45 | every lowered text is of that form; sanitising fails iff it has no letter and no digit |
| Naming.BuildMeans | src/framework_cli/template/scripts/worktree.py:48-57 | the name is the slug, a dash and the sanitised branch, unless that is empty or holds `-t-` |
| Naming.TiersDisjoint | src/framework_cli/template/scripts/worktree.py:48-57 | for one slug no name that `build_stack_instance` makes matches either sweep pattern |
| Naming.Tier3Decomposes | tests/acceptance/_tier3.py:90-111 | a test-stack name has one instance and one uuid only |
| Fleet.PlanProvision | src/framework_cli/template/scripts/worktree.py:219-249 | the updates for `.env`: a recorded offset of the same instance is reused, else a free window is selected, else it fails |
| Fleet.Worktree.Provision | src/framework_cli/template/scripts/worktree.py:263-292 | `.env` becomes the merge of the plan, or nothing is written when no window is free |
| Fleet.Worktree.Deprovision | src/framework_cli/template/scripts/worktree.py:314-353 | stops the recorded instance and removes the recorded offset |
| FleetProof.UpIsReadBack | src/framework_cli/template/scripts/worktree.py:219-292 | after `up` the `.env` reads as the instance under both names and, with ports, for whom the offset is recorded and the reused or freshly selected one; every other key as before |
| FleetProof.DownUndoesUp | src/framework_cli/template/scripts/worktree.py:314-353 | `down` after `up` stops the instance that was brought up and leaves of it only the two names; every other key reads as before both |
| FleetProof.RecordsAndPortsStaySound | src/framework_cli/template/scripts/worktree.py:192-353 | in every state of every run of `up --ports`, `down` and edits by many worktrees, where starts fail only when `plan_provision` planned nothing new: a recorded pair names a stack running at that offset, no host port is published by two stacks, no window passes 65535 |
| FleetProof.FailedStartIsHarmlessIff | src/framework_cli/template/scripts/worktree.py:236-283 | a start that fails after `.env` was written leaves a true record iff, before it, `plan_provision` took the reusing branch or found no window - or, for a stack that publishes nothing, selected the offset it runs at |
| FleetProof.ReuseKeepsPortsIff | src/framework_cli/template/scripts/worktree.py:236-240 | a start on a reused offset keeps the published ports disjoint iff no other running stack publishes a port of that window, which the branch does not look at |
| FleetProof.PortsStayApartIff | src/framework_cli/template/scripts/worktree.py:192-353 | over every run, with starts failing at any time: no host port is published by two stacks in any state iff no start succeeded on a reused window that another running stack had |
| FleetProof.PortsStayApart | src/framework_cli/template/scripts/worktree.py:192-353 | in such a run no window passes 65535 either |
| FleetProof.FailedRetryStays | src/framework_cli/template/scripts/worktree.py:236-240 | a retry that fails leaves the recorded offset to be planned again |
| FleetProof.FailedStartCollides | src/framework_cli/template/scripts/worktree.py:236-240 | a run in which a start fails and another worktree takes its window: from then on every plan for the first stack is that window, which the other publishes, although another window fits and is free |
| FleetProof.DownClearsRecord | src/framework_cli/template/scripts/worktree.py:330-348 | after a `down` no recorded offset is left to reuse |
| FleetProof.BuiltNameIsOk | src/framework_cli/template/scripts/worktree.py:48-75 | every name built from a slug and a branch is one the run above may use |
| Sweeps.CondemnsIffStale | tests/acceptance/_tier3.py:242-245 | a start-sweep goes on to remove a stack iff it has no container, none whose creation time parses, or its newest is 3600 s old: iff no container is known to be younger than that |
| Sweeps.UnparsedTimesCondemn | tests/acceptance/_tier3.py:200-216 | a stack whose containers have no creation time that parses is condemned, however young they are |
| Sweeps.FinishedSweepIsComplete | tests/acceptance/_tier3.py:118-248 | a sweep that finishes has judged every stack in its scope that had containers, or volumes, or networks throughout its listing, and removed it - a start-sweep, if it found it stale |
| Sweeps.ReapedOnlyIfOwnOrStale | tests/acceptance/_tier3.py:219-248 | over every interleaving a finish-sweep reaps only its own worktree's stacks, and a start-sweep only test stacks that were in one of those three cases when it judged them |
| Sweeps.LivePeerIsSpared | tests/acceptance/_tier3.py:219-248 | with distinct instances a peer's stack is not reaped by a session that did not find it stale |
| Sweeps.DurableStackIsSpared | tests/acceptance/_tier3.py:118-157 | no durable stack of the slug is ever reaped |
| Sweeps.StaleUntilGrown | tests/acceptance/_tier3.py:240-247 | a stale stack stays stale until somebody adds a container |
| Sweeps.StaleUnlessJoined | tests/acceptance/_tier3.py:240-247 | over every run what was stale at one step is stale at a later one iff no container put in between is there and young |
| Sweeps.StaleAtRemovalIff | tests/acceptance/_tier3.py:240-247 | a stack that a start-sweep removes is stale at the removal iff no container put in since its judgement is there and young; so it is when nothing was put in |
| Sweeps.GapLosesAYoungContainer | tests/acceptance/_tier3.py:240-247 | a run in which a container started between the age check and the removal is lost |
| Sections.SpanIff | src/framework_cli/integrity/sections.py:16-24 | there is a section (b, e) iff each marker is on exactly one line, b and e, and b < e |
| Sections.ContentIs | src/framework_cli/integrity/sections.py:27-33 | the content is the lines between the markers; there is none iff the markers are not sound |
| Sections.SpliceRestores | src/framework_cli/integrity/restore.py:29-52 | for every pair of texts with sound markers: sound markers at a computable span, the canonical section with its marker lines, the target's lines outside it and its final line break |
| Sections.SpliceTwice | src/framework_cli/integrity/restore.py:29-52 | a second splice changes nothing |
| Manifest.EntryRoundTrip | src/framework_cli/integrity/manifest.py:30-46 | `from_dict` undoes `to_dict` on every entry |
| Manifest.DumpsIsConsistent | src/framework_cli/integrity/manifest.py:55-83 | the dumped document loads as the same manifest sorted by path, and its self hash is that of what is loaded |
| Manifest.SelfHashCoversAll | src/framework_cli/integrity/manifest.py:55-69 | two manifests have one self hash iff they have the same version, framework version and sorted entries, field by field |
| Manifest.TamperingShows | src/framework_cli/integrity/manifest.py:55-83 | a lock edited without its recorded hash stays self-consistent iff the edit changed nothing of what it says |
| JsonValues.LoadsOfPrint | src/framework_cli/integrity/manifest.py:71-83 | loading printed JSON gives the value back, for every value and every layout |
| Integrity.Project.Check | src/framework_cli/integrity/checker.py:30-113 | the findings of a check: missing, unreadable or tampered lock, else one pass over the entries |
| Integrity.Project.WriteManifest | src/framework_cli/integrity/generate.py:24-97 | the lock of the rules' files as they are, or the first rule's error - ignored, not rendered, no markers, no package name - and no change |
| Integrity.Project.RecordDrift | src/framework_cli/integrity/checker.py:116-128 | marks the entries of managed paths, or refuses and changes nothing |
| Integrity.Project.RestoreFile | src/framework_cli/integrity/restore.py:55-92 | the file becomes canonical (for a hybrid file, spliced), its entry is rehashed; each refusal changes nothing |
| IntegrityRuns.CheckReportsExactly | src/framework_cli/integrity/checker.py:30-113 | exactly the tracked, undrifted files that are missing, damaged or changed since they were recorded are reported as fatal, each with what happened to it, and outside CI the undrifted ignored files that are not there as not fatal |
| IntegrityRuns.StatusMeans | src/framework_cli/integrity/checker.py:72-112 | a tracked file is clean iff the lines between its markers, or for other classes its whole text, are those recorded; damaged iff its markers are not sound |
| IntegrityRuns.LostOrTamperedLock | src/framework_cli/integrity/checker.py:30-56 | a lock that is gone, or edited so that it says something else than its hash covers, is the one fatal finding, in CI and outside |
| IntegrityRuns.RefusedIffStopped | src/framework_cli/integrity/generate.py:24-97 | generating fails iff some tracked rule has no package name, is ignored, is not rendered or has no sound markers, with the error of the first such rule |
| IntegrityRuns.RulesAreRecorded | src/framework_cli/integrity/generate.py:24-97 | a generated lock records each rule's class and tier, undrifted, and of a tracked file the managed text as it is |
| IntegrityRuns.VersionIsKept | src/framework_cli/integrity/generate.py:91-97 | a generated lock records the framework version, and drift marking and restoring keep it |
| IntegrityRuns.FreshLockIsClean | src/framework_cli/integrity/generate.py:24-97 | right after `write_manifest` the check finds nothing |
| IntegrityRuns.DriftMeans | src/framework_cli/integrity/checker.py:116-128 | drift marking succeeds iff all paths are managed, changes the lock only, and records exactly those paths; else it names exactly the unmanaged ones |
| IntegrityRuns.RestoreMeans | src/framework_cli/integrity/restore.py:55-92 | a restore succeeds iff the version is synced, the path tracked and rendered, the answers are there and a hybrid file has sound markers on both sides; then a hybrid file has the canonical section and every line outside it as before, any other file is the canonical one, and only the file and the lock are touched |
| IntegrityRuns.RestoreRefusedIff | src/framework_cli/integrity/restore.py:55-92 | on every tree: which of the refusals a restore ends with, in order, and when it goes ahead; a refusal changes nothing |
| IntegrityRuns.RestoreClearsOnlyItsOwn | src/framework_cli/integrity/restore.py:86-92 | its own path has no finding afterwards, and every other path the one it had |
| IntegrityRuns.RunKeepsLock | src/framework_cli/integrity/checker.py:30-128 | over every run of generating, drifting, restoring and editing other files the lock stays self-consistent and means what was last written |
| Batteries.Resolve | src/framework_cli/batteries.py:156-173 | the worklist terminates on every graph and returns the sorted closed set of what is reachable, or an unknown reachable name |
| Batteries.ResolutionIsLeast | src/framework_cli/batteries.py:156-173 | the result is below every closed superset of the selection; it fails iff an unknown name is reachable |
| Batteries.RemovalClosedIffUnblocked | src/framework_cli/downskill.py:51-53 | taking a battery out leaves the set closed iff `blocking_dependents` is empty |
| Batteries.RecordedSetStaysClosed | src/framework_cli/cli.py:338-343 | over every run of new, upskill and downskill the recorded set stays sorted, known and closed; removal takes one name |
| Downskill.BlockingDependents | src/framework_cli/downskill.py:51-53 | exactly the other active batteries that depend on it; an exception iff some closure has an unknown name |
| Downskill.UsageReferences | src/framework_cli/downskill.py:56-92 | exactly the source files that mention the battery, are not its own and differ from the render |
| Downskill.DeleteOwned | src/framework_cli/downskill.py:134-144 | deletes exactly the owned files that are no migrations, and lists both kinds |
| Downskill.SettleShared | src/framework_cli/downskill.py:151-164 | splices, overwrites or reports each shared file by what stands there; stops at the first file that cannot be spliced |
| Downskill.RemoveBattery | src/framework_cli/downskill.py:95-177 | the refusals in order, each changing nothing; else the tree, the report with its warnings, the recorded set and the lock, also when it is cut short |
| DownskillLaws.RefusedEarlyIff | src/framework_cli/downskill.py:99-109 | refused before the tree is looked at iff the battery is unknown, not active, some active battery has an unknown requirement, or others depend on it - exactly those named |
| DownskillLaws.InUseIff | src/framework_cli/downskill.py:56-132 | past that, refused iff not forced and some builder's file under `src/` ending in `.py`, not the battery's own and not as rendered, holds the battery's name; exactly those files are named and nothing is changed |
| DownskillLaws.StoppedRemoval | src/framework_cli/downskill.py:151-164 | a removal stops at the first hybrid file that cannot be spliced: owned files are gone, shared ones before it dealt with, the rest as before |
| DownskillLaws.RemovalEnds | src/framework_cli/downskill.py:166-169 | otherwise it ends with the set recorded and the lock clean, or with the lock's error on the tree as it is, or, when the answers file was the battery's own, without a record |
| DownskillLaws.BuildersFilesStay | src/framework_cli/downskill.py:134-164 | with every outcome, a path the render does not know, a shared file the builder changed or the battery leaves alone, and a migration stay as they were |
| DownskillLaws.CompletedRemoval | src/framework_cli/downskill.py:134-177 | path by path after a completed removal: owned gone, unmodified shared files as in the reduced render, hybrid files with its section and their own lines; the report lists exactly the deleted files and the kept migrations and warns of exactly the shared files the builder changed and of those migrations |
| DownskillLaws.RemovalIsRecorded | src/framework_cli/downskill.py:166-169 | the answers file lists the reduced set, closed if it was before, and nothing else of it reads differently |
| DownskillLaws.RenderedProjectReduces | src/framework_cli/downskill.py:95-177 | on a project as rendered: no refusal for use, no warning but that of kept migrations, every path as in the reduced render but for those migrations, hybrid files equal in their managed section, and a clean lock |
| Agentic.AssistantTurn | src/framework_cli/review/agentic.py:152-171 | the replayed turn: tool calls kept, empty texts dropped |
| Agentic.RunAgent | src/framework_cli/review/agentic.py:174-270 | the loop meets `IsRun`: each request is the conversation so far, the loop goes on after tools or a nudge, ends at findings, at two nudges or at the turn limit, and reports the totals |
| AgenticLaws.BlockByBlock | src/framework_cli/review/agentic.py:148-171 | the text of a reply is its text blocks in order, its tool uses are its tool blocks in order, and it is replayed block by block: tool uses whole, texts unless empty |
| AgenticLaws.RunEndsIff | src/framework_cli/review/agentic.py:196-258 | a run ends at the forced request or at the first reply that runs no tool and either is no parse error or comes after two such replies, and only there |
| AgenticLaws.RunIsBounded | src/framework_cli/review/agentic.py:201-258 | at most max_turns + 1 requests and 2 nudges, tools offered in all but the forced request, and every request extends the earlier conversation |
| AgenticLaws.RequestsAlternate | src/framework_cli/review/agentic.py:196-258 | in-loop requests alternate and end with the user; only the forced one has two user messages in a row, at its end; no assistant turn is empty |
| AgenticLaws.ConversationAlternates | src/framework_cli/review/agentic.py:196-253 | the same of the conversation after any responses |
| AgenticLaws.ToolUsesAreAnswered | src/framework_cli/review/agentic.py:242-253 | the message after a tool turn answers every tool use by id, in order, with its result |
| AgenticLaws.NudgesAreSpoken | src/framework_cli/review/agentic.py:218-232 | a reply without tool calls that does not end the run is replayed as its text, or a stand-in for none, and followed by the nudge; the first message is the seed |
| AgenticLaws.RunReports | src/framework_cli/review/agentic.py:201-270 | the report is filled iff findings are returned or the forced request was made; its turns, each usage count and its tool log are the sums over the responses |
| AgenticLaws.LogAt | src/framework_cli/review/agentic.py:242-243 | each tool use is logged under its turn after all earlier ones |
| AgenticLaws.NotFindingsIff | src/framework_cli/review/agentic.py:213-232 | the parse error is raised iff the last reply is no findings array, which is the forced one or comes after two nudges |
| AgenticLaws.RunIsDetermined | src/framework_cli/review/agentic.py:174-270 | one backend gives one run and one outcome |
| Findings.ExtractArray | src/framework_cli/review/findings.py:48-83 | the scan over the brackets computes `Extract` |
| Findings.ExtractMeaning | src/framework_cli/review/findings.py:48-83 | the first non-empty array of objects wherever it is, else the first empty array |
| Findings.ExtractFails | src/framework_cli/review/findings.py:48-83 | the scan fails iff no position has either |
| Findings.ParseFindings | src/framework_cli/review/findings.py:86-122 | the loop over the items computes `Parse`, errors included |
| Findings.ItemMeans | src/framework_cli/review/findings.py:95-118 | an object is a finding iff its severity is one of the five words and it has a path and a message; how each field is read; a list or object as severity escapes, any other wrong one fails the parse |
| Findings.ItemsAreRead | src/framework_cli/review/findings.py:94-122 | items are read in order, and the first that is no finding decides how the parse fails |
| Findings.LineOfText | src/framework_cli/review/findings.py:31-45 | a line given as text is read by its leading digits, blanks before them aside, and as 0 without any |
| Findings.PrintedItemsAreRead | src/framework_cli/review/findings.py:48-122 | whatever objects an agent lists, in prose without a bracket before them and any layout, the parse is the reading of those objects |
| Findings.PrintedFindingsReadBack | src/framework_cli/review/findings.py:48-122 | printed findings read back from any prose without a bracket before them, any text after them and any layout |
| Changelists.ChangelistReadsBack | src/framework_cli/review/audit/changelist.py:48-76 | `from_dict` undoes `to_dict` on every changelist |
| Changelists.FileReadsBack | src/framework_cli/review/audit/pipeline.py:188-193 | a resumed run reads back exactly the changelist that was written |
| Changelists.MissingFields | src/framework_cli/review/audit/changelist.py:52-76 | which fields of an edit, a verdict, a change and a changelist are asked for, and what the others default to |
| Changelists.KeptPartition | src/framework_cli/review/audit/changelist.py:78-96 | each edit is kept or dropped, in order, and dropped iff its verdict says refuted |
| Changelists.VettedKeeps | src/framework_cli/review/audit/changelist.py:78-96 | vetting changes nothing but the edit lists, and vetting again drops nothing |
| ReplyJson.BareReads | src/framework_cli/review/audit/stages.py:68-81 | a printed object or array reads back from a reply that is it with blanks around, in every layout |
| ReplyJson.FencedReads | src/framework_cli/review/audit/stages.py:68-81 | and from a code fence, with or without a language |
| ReplyJson.ProseReads | src/framework_cli/review/audit/stages.py:68-81 | an object reads back from among prose without `{` before it and `}` after it, unless the reply starts as a fence or is some other JSON as a whole |
| ReplyJson.ListReads | src/framework_cli/review/audit/stages.py:68-81 | an array reads back from among prose without `[` before it and `]` after it, when the reply has no pair of braces |
| ReplyJson.ListOfOneIsUnwrapped | src/framework_cli/review/audit/stages.py:68-81 | a list of one object among prose is read as that object |
| Reconcile.ReconcileText | src/framework_cli/review/audit/stages.py:166-186 | from the text of the reply: the JSON in it, then the loops; an exception iff either gives one |
| Reconcile.ReconcileReply | src/framework_cli/review/audit/stages.py:168-186 | the two loops compute `Reconciled`: thresholds normalised, names made canonical, unknown agents dropped |
| Reconcile.ReplyIsTidied | src/framework_cli/review/audit/stages.py:168-186 | a reply that is a changelist is reconciled to that changelist: every edit in order, each change under its agent's key with a normal threshold, without the changes for unknown agents |
| Reconcile.TidiedOneByOne | src/framework_cli/review/audit/stages.py:168-184 | change by change: under its key, `null`, `none` and blank thresholds made null, or dropped when the name has no key |
| Reconcile.ReconciledIsClean | src/framework_cli/review/audit/stages.py:168-184 | every change is for a known agent and no threshold spells null |
| Reconcile.CanonicalIff | src/framework_cli/review/audit/stages.py:57-65 | a name's key is the name less a leading `review-`, iff that is a key |
| Reconcile.CanonicalDoesNotMerge | src/framework_cli/review/audit/stages.py:57-65 | `x` and `review-x` both become `x`, so one agent can have two changes |
| Refute.OneSkepticVerdict | src/framework_cli/review/audit/stages.py:212-237 | the first reply that is an object, none iff no attempt gives one |
| Refute.RefuteEdit | src/framework_cli/review/audit/stages.py:240-284 | the verdict: refuted iff 2 x survived <= skeptics, with the votes, the reasons and the unreadable replies |
| Refute.VerdictCounts | src/framework_cli/review/audit/stages.py:257-284 | the votes are the number of skeptics whose reply has `refuted` false (or what Python takes for false); every other skeptic gives its reason, in order; refuted iff twice that number is at most the skeptics |
| Refute.PlainVotesCount | src/framework_cli/review/audit/stages.py:272-284 | so for replies with `refuted` true, false or left out, votes counts those that say false |
| Refute.VotesAreReplies | src/framework_cli/review/audit/stages.py:212-237 | each skeptic's vote is its own first reply that is an object, none iff no re-prompt gives one |
| Refute.VotesAddUp | src/framework_cli/review/audit/stages.py:257-279 | every skeptic either fails to refute or gives one reason |
| Refute.UnreadableNeverHelps | src/framework_cli/review/audit/stages.py:259-272 | turning replies unreadable never saves a refuted edit |
| AuditRun.AuditDir.RunAudit | src/framework_cli/review/audit/pipeline.py:128-267 | one session meets `AuditEnd`: stamp, audit stage, one reconciliation or the stored one, refute stage, verdicts attached |
| AuditRun.AuditDir.RefuteAll | src/framework_cli/review/audit/pipeline.py:195-264 | the refute stage, the attached verdicts and the two written changelists |
| AuditRun.AuditDir.Attach | src/framework_cli/review/audit/pipeline.py:231-245 | each edit gets the verdict found under its agent and place |
| AuditLaws.KeyInjective | src/framework_cli/review/audit/pipeline.py:220 | the ids `agent__idx` of different items differ, whatever underscores the names have |
| AuditLaws.DecidedByLast | src/framework_cli/review/audit/pipeline.py:221-259 | in every changelist each edit ends with the verdict of the last item that has its agent and place |
| AuditLaws.OwnVerdictsIff | src/framework_cli/review/audit/pipeline.py:196-259 | every edit gets the verdict of its own refutation, whatever the skeptics say, iff no two different edits share an id |
| AuditLaws.DifferentAgentsAreEnough | src/framework_cli/review/audit/pipeline.py:196-197 | agents that differ from each other and from the preamble's name are enough for that |
| AuditLaws.RepeatedAgentsShareVerdicts | src/framework_cli/review/audit/pipeline.py:196-245 | two changes for one agent: the edits of both end with the verdict of the later |
| AuditLaws.DroppedIffOutvoted | src/framework_cli/review/audit/stages.py:257-284 | an edit is missing from the vetted list iff its refutation returned and twice the skeptics that said it is not refuted are at most the skeptics; else it is the edit as it was, with its verdict |
| AuditSessions.RunJudges | src/framework_cli/review/audit/pipeline.py:128-267 | over any number of sessions, each ended by the backend or killed between its writes: when the run starts cleanly, a session that completes returns the decision on a changelist this run made of its own reports, each edit with its own verdict when no two share an id |
| AuditSessions.RunStaysOwn | src/framework_cli/review/audit/pipeline.py:128-267 | everything a resume would use is then of this run |
| AuditSessions.UncutSessionCompletes | src/framework_cli/review/audit/pipeline.py:128-267 | a session of such a run that nothing cuts short completes |
| AuditSessions.NewRunJudges | src/framework_cli/review/audit/pipeline.py:128-267 | an uninterrupted run returns the reconciled edits each with the verdict of its own refutation, less the dropped ones |
| AuditSessions.DoneIsWritten | src/framework_cli/review/audit/pipeline.py:260-267 | a session that completes has written the vetted list it returns and the full one; no other session writes them |
| AuditSessions.RefusedIffStale | src/framework_cli/review/audit/pipeline.py:146-157 | a resume is refused iff the stamp is of other inputs, and then changes nothing |
| AuditSessions.ResumedRunJudges | src/framework_cli/review/audit/pipeline.py:185-193 | a run cut short while refuting and resumed ends as the uninterrupted run, whatever the auditors and the reconciler would say now |
| AuditSessions.AlwaysCleanIff | src/framework_cli/review/audit/pipeline.py:146-193 | a new run starts cleanly wherever its first session is killed iff its directory holds no reports, no changelist and no verdicts |
| AuditSessions.NewDirectoryJudges | src/framework_cli/review/audit/pipeline.py:128-267 | in such a directory a session that completes returns the decision on a changelist the run made, whatever cut the sessions before it |
| AuditSessions.ReportsAreOwnIff | src/framework_cli/review/audit/pipeline.py:146-183 | after a new session, ended or killed anywhere, the reports a resume finds are the run's own, or still to be made, iff the session got past its stamp or there were none |
| AuditSessions.ChangelistIsOwnIff | src/framework_cli/review/audit/pipeline.py:146-193 | after a new session, ended or killed anywhere, the stored changelist is the run's own, or still to be made, iff the session wrote one or there was none |
| AuditSessions.VerdictsAreOwnIff | src/framework_cli/review/audit/pipeline.py:209-220 | and the third stage is, iff the session began it or there was none |
| AuditSessions.ResumesOutlive | src/framework_cli/review/audit/pipeline.py:188-220 | what a new session did not replace - a changelist, the record of a done item - outlives every resume |
| AuditSessions.OlderReportsAreUsed | src/framework_cli/review/audit/pipeline.py:128-185 | a new run killed right after its stamp leaves an older run's reports, and its resume audits nothing and reconciles those |
| AuditSessions.OlderChangelistIsUsed | src/framework_cli/review/audit/pipeline.py:159-193 | a new run cut short while auditing leaves an older run's changelist, and its resume judges those older edits |
| AuditSessions.OlderVerdictsAreUsed | src/framework_cli/review/audit/pipeline.py:188-245 | a new run killed between writing its changelist and refuting leaves an older run's finished third stage, and its resume attaches those older verdicts |
| Hunks.ValidatePatchHunks | src/framework_cli/review/evals.py:258-310 | the nested loops compute `Validate` |
| HunksLaws.HeaderReads | src/framework_cli/review/evals.py:258 | a printed header declares its counts, short form included |
| HunksLaws.DeclaredIff | src/framework_cli/review/evals.py:258 | a line declares counts iff it is `@@ -start,a +start,b @@` and any heading, where a count of 1 may be left out |
| HunksLaws.DiffIsReported | src/framework_cli/review/evals.py:261-310 | on every printed diff of any files: one report, in order, per hunk whose declared counts are not those observed (POSIX `diff`, "Diff -u or -U Output Format") |
| HunksLaws.DiffTextIsReported | src/framework_cli/review/evals.py:261-310 | the same for the text of the diff |
| HunksLaws.PlainHunkReportedIff | src/framework_cli/review/evals.py:304-309 | a hunk without header look-alikes and separators is reported iff its counts disagree with its body |
| HunksLaws.CorrectHunkReportedIff | src/framework_cli/review/evals.py:281-303 | a correct hunk is reported iff it removes a line starting `-- `, adds one starting `++ `, or empty separator lines follow it |
| HunksLaws.CorrectDiffPassesIff | src/framework_cli/review/evals.py:261-310 | a diff of correct hunks passes iff it has no such line and no such separator |
| HunksLaws.RemovedCommentIsMisjudged | src/framework_cli/review/evals.py:290-291 | the correct hunk that removes `-- x` is reported |
| Pairwise.LeastPair | src/framework_cli/devmatrix.py:62 | the least uncovered pair in the order of sorted pairs |
| Pairwise.BestName | src/framework_cli/devmatrix.py:65-72 | the first name with the greatest positive gain |
| Pairwise.GrowCombo | src/framework_cli/devmatrix.py:64-76 | grows until the combination is full or nothing gains |
| Pairwise.GrowIsGreedy | src/framework_cli/devmatrix.py:64-76 | each name added is the first with the greatest positive gain over the names chosen before it |
| Pairwise.GainCounts | src/framework_cli/devmatrix.py:69 | the gain is the number of chosen names that the name makes an uncovered pair with |
| Pairwise.Discard | src/framework_cli/devmatrix.py:77-78 | takes exactly the pairs of the combination out |
| Pairwise.PairwiseCombos | src/framework_cli/devmatrix.py:56-80 | terminates with the greedy cover of the names |
| Pairwise.CoverIsComplete | src/framework_cli/devmatrix.py:56-80 | every pair is in some combination; each is sorted, of known names, no larger than max(2, max_size), has a pair no earlier one has, and if not full could not cover another new pair |
| Pairwise.CoverIsShort | src/framework_cli/devmatrix.py:56-80 | at most n(n-1)/2 combinations |
| Pairwise.CoverIsDetermined | src/framework_cli/devmatrix.py:56-80 | the names, their order and the size determine the cover |
| Answers.DropBlockLines | src/framework_cli/source.py:87-98 | the skipping loop computes `DropBlock` |
| Answers.AnswersFile.RecordBatteries | src/framework_cli/source.py:80-103 | the new text of the file |
| Answers.AnswersFile.RecordAlertChannels | src/framework_cli/source.py:122-141 | the new text of the file, with `webhook` for no channel |
| Answers.AnswersFile.RecordIdentity | src/framework_cli/source.py:161-178 | the new text of the file |
| Answers.AnswersFile.RecordPortableSource | src/framework_cli/source.py:193-206 | the new text of the file |
| AnswersLaws.ListReadsBackIff | src/framework_cli/source.py:52-103 | a recorded list of plain scalars - texts with blanks, commas, colons and dashes among them - is read back, whatever the file held, iff none is a word that YAML takes for null or a truth value and `str` spells otherwise |
| AnswersLaws.ListReadsBack | src/framework_cli/source.py:52-103 | so a recorded list without such words is read back |
| AnswersLaws.ListFrame | src/framework_cli/source.py:80-141 | recording a list leaves every other key's block as it was |
| AnswersView.NothingRecorded | src/framework_cli/source.py:52-191 | where nothing is recorded there is no battery, the one default channel, no identity and no version |
| AnswersLaws.TextsBlock | src/framework_cli/source.py:147-206 | recorded texts read as their new values, dropped ones not at all, all other keys as before |
| AnswersView.WriteIsReadBack | src/framework_cli/source.py:52-206 | every writer is read back by its reader, the source address included, and changes nothing another reader sees |
| AnswersView.IdentityReadsBackIff | src/framework_cli/source.py:147-178 | an identity reads back as recorded iff no value has a character above U+FFFF |
| AnswersView.WriteTwice | src/framework_cli/source.py:80-206 | the same write again leaves the file byte for byte |
| AnswersView.WritesAreReadBack | src/framework_cli/source.py:80-206 | any sequence of writes is observed as the sequence of field updates |
| AnswersView.WritesInAnyOrder | src/framework_cli/upskill.py:182-186 | writes by different writers, such as the three after an update, are observed the same in any order |
| AnswersView.Record | src/framework_cli/source.py:80-206 | the class's methods write what the laws speak of |

## Left out

- Subprocesses, git, docker, Copier, the network and the model backends: parameters, as said above. Wall clocks are a step that advances the time.
- Regular expressions, `str.lower` and Unicode digits: `lower` is a parameter, `\d` means `0` to `9`. Line breaks are LF only.
- Real SHA-256: a parameter. `IntegrityRuns` assumes that different texts have different hashes.
- JSON: a float is known by the text it prints as; lone surrogates, the recursion limit and the limit of 4300 digits to an int are not modelled.
- YAML: an answers file is flat, as the writers leave it. Its plain scalars are printable ASCII, start with a letter, hold no `: ` and no ` #`, and end in neither a blank nor a colon; what YAML makes of a list item that is no such scalar is not modelled.
- Checkpoint.RunDir.InitRun: does not model a crash before the first state file is there, nor the git fields, `is_stale` and `chmod`.
- RunStage.RunSerial: the record and the state file are written in one go here; their separate steps, and crashes between them, are in the pool machine.
- PoolSteps.RunKeepsInvariant: asks for distinct item ids and for a resume with the stored plan; `RunStage.ItemsKeepTheirIds` and `StageLaws.ResumeIgnoresStrangers` say what the serial path does otherwise.
- Engine.RunEngine: `reset_hint` and the extra fields of a failure record are not modelled; items with one agent name are taken to be the same item.
- Fleet.Worktree.Provision: a stack that fails to start is a step of the runs and no outcome of this method; the observability selection and the message texts are not modelled.
- FleetProof.RecordsAndPortsStaySound: is about `up --ports` and `down` as single steps and instance names owned by one worktree each; plain `up` publishes whatever the `.env` says and is not part of the run.
- Naming.SanitizedIsLabel: does not claim a limit of 63 characters, because the code enforces none.
- Naming.TiersDisjoint: is about one slug; two different slugs can make the same name.
- Sweeps.ReapedOnlyIfOwnOrStale: removing a stack is one step, where the code removes containers, volumes and networks in turn.
- Integrity.Project.WriteManifest: the rules are any list with distinct paths; those of battery sources are part of that list, at its end.
- Integrity.Project.Check: the messages of the findings are not modelled, and an entry whose path, class, tier or hash is of another JSON kind than text makes the lock unreadable.
- Downskill.RemoveBattery: pruning empty directories, the wording of warnings and the order of names in messages are not modelled; the ignore rules are those in force when the lock is written.
- DownskillLaws.RenderedProjectReduces: asks that the battery only adds paths to the render and that hybrid files are soundly marked. It says nothing of the migration chain, since preserved migrations keep their old parents.
- Agentic.RunAgent: building the first request, the tools themselves and the latency are not modelled; a tool's answer is a function of its name and input.
- Findings.ParseFindings: `str` on values other than text is a parameter.
- Reconcile.ReconcileReply: agent names in a stored changelist are texts; the log is not modelled.
- Refute.RefuteEdit: starts from the replies read as JSON, which `ReplyJson.ExtractJson` does; the prompts are not modelled.
- AuditRun.AuditDir.RunAudit: one session that is not killed (`AuditSessions.Session` adds the kills). The stages run serially; for distinct ids and a stage that a pool began `PoolTheorems.PoolIsFaithful` shows that a pool leaves and returns all that `AuditSessions` uses of a stage. How the fingerprint digests its inputs and the list of what changed are not modelled, and writing the two changelists is one step.
- AuditSessions.RunJudges: asks that the work of an item gives one answer whenever it is allowed to finish, and that a run's sessions have one set of targets, in any order, as their common fingerprint means.
- HunksLaws.DiffIsReported: asks that each file's header starts with a line that ends a hunk, as `diff --git` and `---` do.
- AnswersView.WriteIsReadBack: asks for list items that are plain scalars as above and none of YAML's null and truth words, for a version that is one behind its `v`, for identity values inside the basic plane, and that no list item stands under a single-line field.
- Scoring, costs, reports, scorecards, pull-request comments, the wizard, sampled combinations, version comparison, migration parents: short formulas or rendering that would only add easy members.

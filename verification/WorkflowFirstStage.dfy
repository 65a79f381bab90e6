/** The first stage of a run from its submission to the opening of the second, one item at a time. */
module WorkflowFirstStage {
  import opened Wrappers
  import opened PlanModel
  import opened DependencyStore
  import opened StoreView
  import opened WorkflowRun
  import opened WorkflowRunInv
  import opened WorkflowRunStages
  import opened WorkflowRunOpening
  import opened WorkflowRunLaws
  import opened WorkflowRunTheorems
  import opened WorkflowReplay
  import opened WorkflowCover
  import opened WorkflowCoverExact

  // ---------------------------------------------------------------------------------------
  // Submission

  lemma SubmittedOpen(cfg: Config, start: Controller, at: int, r: StepRecord) returns (c: Controller)
    requires IsNew(start) && Setting(cfg, start.store) && cfg.compile(0).Some?
    requires DistinctIds(NewItems(cfg, 0, at)) && NewItems(cfg, 0, at) != []
    requires r in start.store.steps && r.stageIndex == 0
    requires forall q :: q in start.store.steps && q.stageIndex == 0 ==> q.stepIndex in CompiledSteps(cfg.compile(0).value)
    ensures Live(cfg, c) && c.work == NewItems(cfg, 0, at) && c.store.steps == start.store.steps
    ensures c.store.terminal == map[] && c.store.facts == map[]
  {
    FirstStageQueued(cfg, start, at);
    c := Opening(cfg, start, 0, at);
    SubmittedLive(cfg, start, at, c, r);
  }

  lemma SubmittedLive(cfg: Config, start: Controller, at: int, c: Controller, r: StepRecord)
    requires IsNew(start) && Setting(cfg, start.store) && Submitted(cfg, c, at) && c == Opening(cfg, start, 0, at)
    requires r in c.store.steps && r.stageIndex == 0 && NewItems(cfg, 0, at) != []
    requires forall q :: q in c.store.steps && q.stageIndex == 0 ==> q.stepIndex in CompiledSteps(cfg.compile(0).value)
    requires
      var items := NewItems(cfg, 0, at);
      var queued := Undeferred(items, Ids(items));
      var q := QueueItems(start, items, queued, at);
      q.Some? && RecordMembers(q.value.store, Tracked(queued)) == (c.store, true) && q.value.(store := c.store) == c
    ensures Live(cfg, c)
  {
    CleanHealthy(c);
    NoEmpties(c.store, 0, CompiledSteps(cfg.compile(0).value), cfg.empty);
    SubmitGives(cfg, start, at, c);
    assert EmptiesDone(cfg, c.store, 0);
    OpenedOnward(cfg, c, c, 0, at);
  }

  lemma SubmitGives(cfg: Config, start: Controller, at: int, c: Controller)
    requires IsNew(start) && Setting(cfg, start.store) && cfg.compile(0).Some? && NewItems(cfg, 0, at) != []
    requires
      var items := NewItems(cfg, 0, at);
      var queued := Undeferred(items, Ids(items));
      var q := QueueItems(start, items, queued, at);
      q.Some? && RecordMembers(q.value.store, Tracked(queued)) == (c.store, true) && q.value.(store := c.store) == c
    requires RecordEmptySteps(c.store, 0, CompiledSteps(cfg.compile(0).value), cfg.empty) == (c.store, false)
    ensures Reaches(cfg, c)
  {
    assert Submit(cfg, start, at) == Some(c);
    assert ReachedBy(cfg, start, at, [], c);
  }

  // ---------------------------------------------------------------------------------------
  // One item of the first stage finishes

  /** The first stage is the last one opened; nothing is running and nothing was refused. */
  ghost predicate Live(cfg: Config, c: Controller) {
    Reaches(cfg, c) && CleanAt(cfg, c, 0) && Onward(cfg, c, 0, false) && c.refused == {} && c.store.running == {}
  }

  /** The item can be claimed. */
  predicate CanGo(c: Controller, x: Item) {
    x in c.work && !x.asset && x.stageIndex == 0 && x.id !in c.store.terminal && AllSucceed(c.store, x.dependsOn)
  }

  /** The item is on this step of the first stage, none of whose items wait for the stage. */
  predicate Outstanding(cfg: Config, c: Controller, r: StepRecord, z: Item) {
    && r in c.store.steps && r.stageIndex == 0 && cfg.compile(0).Some? && NoneDeferred(cfg.compile(0).value, r.stepIndex)
    && z in c.work && OnStep(z, r) && z.id !in c.store.terminal
  }

  /** A step without deferred items has no output while one of them is outstanding. */
  lemma StepOpen(cfg: Config, c: Controller, f: int, r: StepRecord, z: Item)
    requires CleanAt(cfg, c, f) && Outstanding(cfg, c, r, z)
    ensures r.stepIndex !in c.store.facts
  {
    assert IsCompiled(cfg, z);
    assert TrackedOn(cfg.compile(0).value, r.stepIndex, cfg.compile(0).value[z.index]);
    if r.stepIndex in c.store.facts {
      CoveredFinished(cfg, c, f, r);
    }
  }

  /** The item is claimed and completes; the next stage has not been tried. */
  lemma ItemFinishes(cfg: Config, c: Controller, x: Item, attempt: Terminal, at: int) returns (mid: Controller)
    requires Live(cfg, c) && CanGo(c, x) && Accepts(cfg, attempt) && IsSuccess(attempt)
    ensures RunsTo(cfg, c, ActivateNext(cfg, mid, 0, at))
    ensures CleanAt(cfg, mid, 0) && Onward(cfg, mid, 0, true) && TakenIn(c, mid, x, attempt)
    ensures LastOnStep(c.store, x) ==> x.stepIndex in mid.store.facts
  {
    ReadyIsQueued(cfg, c, x);
    mid := TakesIn(cfg, c, 0, x, attempt, at);
  }

  /** While another item is outstanding the stage stays open. */
  lemma GoesOn(cfg: Config, c: Controller, x: Item, attempt: Terminal, at: int, r: StepRecord, z: Item) returns (c': Controller)
    requires Live(cfg, c) && CanGo(c, x) && Outstanding(cfg, c, r, z) && z.id != x.id && Accepts(cfg, attempt) && IsSuccess(attempt)
    ensures Live(cfg, c') && TakenIn(c, c', x, attempt)
    ensures LastOnStep(c.store, x) ==> x.stepIndex in c'.store.facts
  {
    c' := ItemFinishes(cfg, c, x, attempt, at);
    StepOpen(cfg, c', 0, r, z);
    StageStaysOpen(cfg, c', 0, r, true, at);
    RunsAreReached(cfg, c, c');
  }

  /** While another step is open, too. */
  lemma GoesOnBeside(cfg: Config, c: Controller, x: Item, attempt: Terminal, at: int, r: StepRecord) returns (c': Controller)
    requires Live(cfg, c) && CanGo(c, x) && Accepts(cfg, attempt) && IsSuccess(attempt)
    requires r in c.store.steps && r.stageIndex == 0 && r.stepIndex !in c.store.facts && x.stepIndex != r.stepIndex
    ensures Live(cfg, c') && TakenIn(c, c', x, attempt) && r.stepIndex !in c'.store.facts
    ensures LastOnStep(c.store, x) ==> x.stepIndex in c'.store.facts
  {
    c' := ItemFinishes(cfg, c, x, attempt, at);
    StageStaysOpen(cfg, c', 0, r, true, at);
    RunsAreReached(cfg, c, c');
  }

  /** A deferred item is not released before what it depends on has finished. */
  lemma Unreleased(cfg: Config, c: Controller, x: Item, d: string)
    requires Always(cfg, c) && MembersSound(c) && x in c.work && !x.asset && Deferred(cfg, x)
    requires d in x.dependsOn && d !in c.store.terminal
    ensures !Touched(c.store, x.id) && MemberOf(x) !in c.store.members
  {
    var k :| 0 <= k < |x.dependsOn| && x.dependsOn[k] == d;
    assert !AllSucceed(c.store, x.dependsOn) by { assert !Succeeds(c.store, x.dependsOn[k]); }
  }

  /** Of two items on a step the other has finished, or has no membership yet. */
  lemma OneOfTwo(c: Controller, r: StepRecord, x: Item, y: Item)
    requires MembersSound(c) && OnStep(x, r) && (forall z :: z in c.work && OnStep(z, r) ==> z == x || z == y)
    requires y.id in c.store.terminal || !Touched(c.store, y.id)
    ensures LastOnStep(c.store, x)
  {
    forall m | m in c.store.members && m.stageIndex == x.stageIndex && m.stepIndex == x.stepIndex
      ensures m.id == x.id || m.id in c.store.terminal
    {
      var z := MemberTouched(c, m);
      assert OnStep(z, r);
    }
  }

  lemma Unfinished(cfg: Config, c: Controller, r: StepRecord, z: Item)
    requires IsCompiled(cfg, z) && OnStep(z, r) && z.id !in c.store.terminal
    ensures !StepFinished(cfg, c, r)
  {
    var y := cfg.compile(r.stageIndex).value[z.index];
    assert TrackedOn(cfg.compile(r.stageIndex).value, r.stepIndex, y) && !EntryFinished(c, r.stageIndex, y);
  }

  lemma OneMoreCall(cfg: Config, c: Controller, call: Call)
    requires Reaches(cfg, c)
    ensures Reaches(cfg, Next(cfg, c, call))
  {
    assert [call][1..] == [];
    assert RunCalls(cfg, c, [call]) == RunCalls(cfg, Next(cfg, c, call), []);
    RunsAreReached(cfg, c, Next(cfg, c, call));
  }

  // ---------------------------------------------------------------------------------------
  // The second stage is opened

  /** All steps of the stages are compiled to something, and the second stage is new. */
  ghost predicate CanOpen(cfg: Config, c: Controller, at: int) {
    && NewStage(cfg, c.work, 1, at) && cfg.compile(1).value != [] && StageKnown(c.store, 0) && StageKnown(c.store, 1)
    && (forall r :: r in c.store.steps && r.stageIndex == 1 ==> r.stepIndex in CompiledSteps(cfg.compile(1).value))
  }

  /** The second stage is blocked, so the plan is still running. */
  lemma SecondBlocked(cfg: Config, c: Controller)
    requires CleanAt(cfg, c, 0) && StageKnown(c.store, 1)
    ensures StageIs(c.store, 1, Blocked) && Rebuild(c.store).state == WorkflowState.Running
  {
    BeyondIsBlocked(cfg, c, 0);
    CleanHealthy(c);
    BlockedMeansRunning(c.store, 1);
  }

  lemma SettledMoves(cfg: Config, c: Controller)
    requires CleanAt(cfg, c, 0) && Settled(c.store, 0)
    ensures CleanAt(cfg, c, 1)
  {
    FrontierMoves(c, 0, 1);
  }

  lemma OneTurn(cfg: Config, c: Controller, at: int, c': Controller)
    requires StageIs(c.store, 0, Progress.Completed) && StageIs(c.store, 1, Blocked)
    requires Rebuild(c.store).state == WorkflowState.Running && cfg.compile(1).Some? && cfg.compile(1).value != []
    requires RecordEmptySteps(c.store, 1, CompiledSteps(cfg.compile(1).value), cfg.empty) == (c.store, false)
    requires QueueStage(c, 1, cfg.compile(1).value, at) == c'
    ensures ActivateNext(cfg, c, 0, at) == c'
  {
    assert c.(store := c.store) == c;
    assert ActivateStage(cfg, c, 1, at) == (c', false);
  }

  lemma SecondOpens(cfg: Config, c: Controller, at: int) returns (c': Controller)
    requires CleanAt(cfg, c, 0) && Settled(c.store, 0) && CanOpen(cfg, c, at)
    ensures ActivateNext(cfg, c, 0, at) == c' && c' == Opening(cfg, c, 1, at) && CleanAt(cfg, c', 1)
  {
    SettledStageCompleted(cfg, c, 0);
    SecondBlocked(cfg, c);
    SettledMoves(cfg, c);
    CleanHealthy(c);
    NoEmpties(c.store, 1, CompiledSteps(cfg.compile(1).value), cfg.empty);
    c' := NewStageQueued(cfg, c, 1, at);
    OneTurn(cfg, c, at, c');
  }
}

/** One small workflow run in full: a stage with one work item, then a stage whose only step
    materializes an asset. It shows that a repeated report can queue a running item again, and that
    a run can come to rest without completing, with its asset item done or failed. */
module WorkflowExample {
  import opened Wrappers
  import opened PlanModel
  import opened DependencyStore
  import opened StoreView
  import opened WorkflowRun
  import opened WorkflowRunInv
  import opened WorkflowRunStages
  import opened WorkflowRunOpening
  import opened WorkflowRunTheorems
  import opened WorkflowCover
  import opened WorkflowCoverExact
  import opened WorkflowReplay
  import opened WorkflowFirstStage

  const COMPUTE := StepRecord(0, 0, "compute", "")
  const ASSETS := StepRecord(1, 1, "assets", "")

  const RESULT := Output("[]", "digest", 2, false)

  function Compile(stageIndex: int): Option<seq<Compiled>> {
    if stageIndex == 0 then Some([Compiled("work", 0, [], false)])
    else if stageIndex == 1 then Some([Compiled("asset", 1, [], true)])
    else None
  }

  const CONFIG := Config(Compile, (step: Step) => Some(RESULT), (text: string) => true, RESULT)

  const TIME := 7

  const WORK := Item("work", 0, 0, 0, [], false, TIME)
  const ASSET := Item("asset", 1, 1, 0, [], true, TIME)

  const ATTEMPT := Terminal(false, false, "{}", "digest", "")

  function Start(): Controller {
    Controller(Store("run", "workflow", [COMPUTE, ASSETS], [], {}, {}, map[], map[], None), [], map[], [], {})
  }

  lemma StartSetting()
    ensures Setting(CONFIG, Start().store) && IsNew(Start())
  {
    var s := Start().store;
    assert COMPUTE in s.steps && ASSETS in s.steps;
    assert StageKnown(s, 0);
    forall i | Compile(i).Some?
      ensures SoundStage(s.steps, i, Compile(i).value)
    {
    }
  }

  lemma ItemsOf(i: int)
    requires i == 0 || i == 1
    ensures
      var items := NewItems(CONFIG, i, TIME);
      && items == [if i == 0 then WORK else ASSET]
      && Undeferred(items, Ids(items)) == items
      && NewTracked(CONFIG, i, TIME) == if i == 0 then items else []
  {
    var x := if i == 0 then WORK else ASSET;
    var items := NewItems(CONFIG, i, TIME);
    assert items == [x];
    KeepAll(items, (y: Item) => !HasCurrentStageDependency(y.dependsOn, Ids(items)));
    if i == 0 {
      KeepAll(items, (y: Item) => !y.asset);
    } else {
      KeepNone(items, (y: Item) => !y.asset);
    }
  }

  // ---------------------------------------------------------------------------------------
  // The work item is done and the second stage opened

  /** The work item is the only one recorded. */
  predicate OnlyMember(s: Store, m: MemberRecord) {
    m in s.members && forall k :: k in s.members ==> k == m
  }

  /** The work item has finished; nothing else has. */
  predicate WorkDone(c: Controller, work: seq<Item>, queued: set<string>, running: set<string>) {
    && c.work == work && c.store.queued == queued && c.store.running == running
    && c.store.terminal == map["work" := ATTEMPT] && OnlyMember(c.store, MemberOf(WORK))
    && c.store.saved == None && c.store.steps == [COMPUTE, ASSETS] && c.refused == {}
  }

  ghost predicate OnlyFirstFact(s: Store) {
    forall k :: k in s.facts <==> k == 0
  }

  lemma StepsCompiled(i: int)
    requires i == 0 || i == 1
    ensures forall r :: r in [COMPUTE, ASSETS] && r.stageIndex == i ==> r.stepIndex in CompiledSteps(Compile(i).value)
  {
    assert Compile(i).value[0] in Compile(i).value;
  }

  lemma Submitted0() returns (c: Controller)
    ensures Live(CONFIG, c) && c.work == [WORK] && c.store.steps == [COMPUTE, ASSETS]
    ensures c.store.terminal == map[] && c.store.facts == map[]
  {
    StartSetting();
    ItemsOf(0);
    StepsCompiled(0);
    assert COMPUTE in Start().store.steps;
    c := SubmittedOpen(CONFIG, Start(), TIME, COMPUTE);
  }

  /** When the one item of a run has finished, it is the only one recorded and nothing is queued. */
  lemma OneItemDone(cfg: Config, c: Controller, f: int, x: Item)
    requires CleanAt(cfg, c, f) && c.work == [x] && !x.asset && x.id in c.store.terminal
    ensures c.store.queued == {} && OnlyMember(c.store, MemberOf(x)) && c.store.saved == None
  {
    assert x in c.work && Touched(c.store, x.id) && InOnePlace(c.store, x.id);
    forall id
      ensures id !in c.store.queued
    {
      assert Touched(c.store, id) ==> id in Ids(c.work);
    }
    forall m | m in c.store.members
      ensures m == MemberOf(x)
    {
      var z := MemberTouched(c, m);
    }
  }

  /** Only memberships of the one item can be recorded. */
  lemma OneItemLast(c: Controller, x: Item)
    requires MembersSound(c) && c.work == [x]
    ensures LastOnStep(c.store, x)
  {
    forall m | m in c.store.members
      ensures m.id == x.id
    {
      var z := MemberTouched(c, m);
    }
  }

  lemma WorkFinishes() returns (before: Controller, mid: Controller)
    ensures Reaches(CONFIG, before) && RunsTo(CONFIG, before, ActivateNext(CONFIG, mid, 0, TIME))
    ensures CleanAt(CONFIG, mid, 0) && WorkDone(mid, [WORK], {}, {}) && OnlyFirstFact(mid.store)
  {
    before := Submitted0();
    StartSetting();
    assert WORK in before.work;
    OneItemLast(before, WORK);
    mid := ItemFinishes(CONFIG, before, WORK, ATTEMPT, TIME);
    OneItemDone(CONFIG, mid, 0, WORK);
  }

  /** Once the first stage has its fact the second one can be opened. */
  lemma SecondCanOpen(c: Controller)
    requires c.work == [WORK] && c.store.steps == [COMPUTE, ASSETS] && OnlyFirstFact(c.store)
    ensures CanOpen(CONFIG, c, TIME) && Settled(c.store, 0)
  {
    ItemsOf(1);
    StepsCompiled(1);
    assert COMPUTE in c.store.steps && ASSETS in c.store.steps;
    assert Ids(c.work) == {"work"};
  }

  lemma SecondState(c: Controller)
    requires WorkDone(c, [WORK], {}, {})
    ensures
      var c' := Opening(CONFIG, c, 1, TIME);
      WorkDone(c', [WORK, ASSET], {"asset"}, {}) && c'.store.facts == c.store.facts
  {
    ItemsOf(1);
    assert Ids([ASSET]) == {"asset"};
    assert c.store.members + MembersFor([]) == c.store.members;
    assert [WORK] + [ASSET] == [WORK, ASSET];
  }

  /** After the report of the work item the second stage is open. */
  lemma SecondReached() returns (c: Controller)
    ensures Reaches(CONFIG, c) && WorkDone(c, [WORK, ASSET], {"asset"}, {}) && OnlyFirstFact(c.store)
  {
    var before, mid := WorkFinishes();
    SecondCanOpen(mid);
    c := SecondOpens(CONFIG, mid, TIME);
    RunsAreReached(CONFIG, before, c);
    SecondState(mid);
  }

  // ---------------------------------------------------------------------------------------
  // What goes wrong

  lemma AssetClaimed(c: Controller)
    requires WorkDone(c, [WORK, ASSET], {"asset"}, {}) && OnlyFirstFact(c.store)
    ensures
      var c' := Next(CONFIG, c, ClaimCall("asset"));
      WorkDone(c', [WORK, ASSET], {}, {"asset"}) && OnlyFirstFact(c'.store)
  {
    assert c.store.queued - {"asset"} == {} && c.store.running + {"asset"} == {"asset"};
  }

  /** The asset item is running. */
  lemma AssetRunning() returns (c: Controller)
    ensures Reaches(CONFIG, c) && WorkDone(c, [WORK, ASSET], {}, {"asset"}) && OnlyFirstFact(c.store)
  {
    var second := SecondReached();
    AssetClaimed(second);
    OneMoreCall(CONFIG, second, ClaimCall("asset"));
    c := Next(CONFIG, second, ClaimCall("asset"));
  }

  lemma AssetRunningClean(c: Controller)
    requires Reaches(CONFIG, c) && WorkDone(c, [WORK, ASSET], {}, {"asset"}) && OnlyFirstFact(c.store)
    ensures Rebuild(c.store).state != WorkflowState.Failed
    ensures CleanAt(CONFIG, c, 1) && Onward(CONFIG, c, 1, false)
  {
    ReachableInv(CONFIG, c);
    assert Healthy(c.store);
    HealthyPlanState(c.store);
    var f := RunningIsClean(CONFIG, c);
    LastOpened(c, f);
  }

  lemma LastOpened(c: Controller, f: int)
    requires WorkDone(c, [WORK, ASSET], {}, {"asset"}) && OnlyFirstFact(c.store)
    requires WorkUpTo(c, f) && FactsSound(c.store, f, {})
    ensures f == 1
  {
    assert ASSET in c.work;
    assert ASSETS in c.store.steps && 1 !in c.store.facts;
  }

  lemma StagesSeen(c: Controller)
    requires Healthy(c.store) && c.store.steps == [COMPUTE, ASSETS] && OnlyFirstFact(c.store)
    requires OnlyMember(c.store, MemberOf(WORK))
    ensures Reopens(c.store, 0) && Rebuild(c.store).state == WorkflowState.Running && !StageBegun(c.store, 1)
  {
    var s := c.store;
    assert COMPUTE in s.steps && ASSETS in s.steps;
    assert StageKnown(s, 0) && StageKnown(s, 1);
    StageFound(s, 0);
    StageFound(s, 1);
    StageStates(s, 0);
    StageStates(s, 1);
    assert StageDone(s, 0);
    assert !DependencyStore.IsEarliest(s.steps, 1) by { assert s.steps[0].stageIndex == 0; }
    BlockedMeansRunning(s, 1);
  }

  lemma WorkAccepted(c: Controller)
    requires CleanAt(CONFIG, c, 1) && OnlyMember(c.store, MemberOf(WORK)) && c.store.steps == [COMPUTE, ASSETS]
    ensures RecordOutput(c.store, "work", "{}", "digest", CONFIG.aggregate).1
  {
    CleanHealthy(c);
    CleanUniqueIds(CONFIG, c);
    assert COMPUTE in c.store.steps && MemberOf(WORK) in c.store.members && Matches(MemberOf(WORK), COMPUTE);
    OutputAccepted(c.store, COMPUTE, MemberOf(WORK), "{}", "digest", CONFIG.aggregate);
  }

  lemma QueuedAgain(c: Controller)
    requires WorkDone(c, [WORK, ASSET], {}, {"asset"}) && CleanAt(CONFIG, c, 1)
    requires StageOpened(CONFIG, c, 1) && !StageBegun(c.store, 1)
    ensures QueueStage(c, 1, Compile(1).value, TIME) == Enqueued(c, [ASSET], TIME)
  {
    NotBegunNoMembers(c.store, c.store, 1);
    ItemsOf(1);
    AssetKnown(c);
    AcceptedAgain(CONFIG, c, 1, TIME);
  }

  lemma NoEmptiesSecond(s: Store)
    requires Healthy(s) && s.steps == [COMPUTE, ASSETS]
    ensures RecordEmptySteps(s, 1, CompiledSteps(Compile(1).value), RESULT) == (s, false)
  {
    StepsCompiled(1);
    assert ASSETS in s.steps;
    NoEmpties(s, 1, CompiledSteps(Compile(1).value), RESULT);
  }

  lemma ReplayOpensAgain(c: Controller)
    requires WorkDone(c, [WORK, ASSET], {}, {"asset"}) && OnlyFirstFact(c.store)
    requires CleanAt(CONFIG, c, 1) && Onward(CONFIG, c, 1, false)
    ensures ActivateNext(CONFIG, c, 0, TIME) == Enqueued(c, [ASSET], TIME)
  {
    CleanHealthy(c);
    StagesSeen(c);
    ReopenedIsLast(CONFIG, c, 1, 0);
    NoEmptiesSecond(c.store);
    QueuedAgain(c);
    OneTurn(CONFIG, c, TIME, Enqueued(c, [ASSET], TIME));
  }

  lemma AssetKnown(c: Controller)
    requires WorkDone(c, [WORK, ASSET], {}, {"asset"})
    ensures
      var items := NewItems(CONFIG, 1, TIME);
      QueueItems(c, items, Undeferred(items, Ids(items)), TIME).Some?
  {
    ItemsOf(1);
    assert WORK in c.work && ASSET in c.work;
    assert forall y :: y in c.work ==> y == WORK || y == ASSET;
  }

  /** Repeating the report of the work item while the asset item runs queues the asset item again:
      the condition for a harmless repetition does not hold in this reachable run. */
  lemma RunningAssetQueuedAgain() returns (c: Controller, c': Controller)
    ensures Reaches(CONFIG, c) && !ReplayHarmless(CONFIG, c, WORK, ATTEMPT, TIME)
    ensures c' == Complete(CONFIG, c, WORK, ATTEMPT, TIME)
    ensures "asset" !in c.store.queued && "asset" in c'.store.queued && "asset" in c'.store.running
  {
    c := AssetRunning();
    AssetRunningClean(c);
    WorkAccepted(c);
    var c1 := ReplayTakesIn(CONFIG, c, 1, WORK, ATTEMPT, TIME);
    SameFacts(c, c1);
    NothingReady(c1, "work");
    RestWithoutRelease(CONFIG, c1, WORK, TIME);
    ReplayOpensAgain(c1);
    c' := Enqueued(c1, [ASSET], TIME);
    assert ASSET in [ASSET];
    NotHarmless(c);
  }

  lemma SameFacts(c: Controller, c1: Controller)
    requires OnlyFirstFact(c.store) && c.store.steps == [COMPUTE, ASSETS] && SameFactSteps(c.store, c1.store)
    requires CleanAt(CONFIG, c1, 1)
    ensures OnlyFirstFact(c1.store)
  {
    assert COMPUTE in c.store.steps && ASSETS in c.store.steps;
    forall k | k in c1.store.facts
      ensures k == 0
    {
      assert FactKnown(c1.store, k, 1);
    }
  }

  lemma NotHarmless(c: Controller)
    requires Healthy(c.store) && WorkDone(c, [WORK, ASSET], {}, {"asset"}) && OnlyFirstFact(c.store)
    ensures !Harmless(CONFIG, c, 0, TIME)
  {
    StagesSeen(c);
    ItemsOf(1);
    assert ASSET in [ASSET];
  }

  /** Once the asset item has finished nothing is left to do, and the workflow is not completed. */
  lemma RestsWithoutCompleting() returns (c: Controller)
    ensures Reaches(CONFIG, c) && Quiescent(c) && c.refused == {}
    ensures Rebuild(c.store).state == WorkflowState.Running
  {
    var before := AssetRunning();
    c := AssetDone(before);
    StillRunning(c);
  }

  lemma AssetDone(before: Controller) returns (c: Controller)
    requires Reaches(CONFIG, before) && WorkDone(before, [WORK, ASSET], {}, {"asset"}) && OnlyFirstFact(before.store)
    ensures Reaches(CONFIG, c) && Quiescent(c) && c.refused == {} && c.store.saved == None && OnlyFirstFact(c.store)
    ensures OnlyMember(c.store, MemberOf(WORK)) && c.store.steps == [COMPUTE, ASSETS]
    ensures c.store.terminal == map["work" := ATTEMPT, "asset" := ATTEMPT]
  {
    c := Next(CONFIG, before, CompleteCall(ASSET, ATTEMPT, TIME));
    AssetFinished(before, c);
    OneMoreCall(CONFIG, before, CompleteCall(ASSET, ATTEMPT, TIME));
  }

  lemma StillRunning(c: Controller)
    requires c.store.saved == None && OnlyFirstFact(c.store) && OnlyMember(c.store, MemberOf(WORK))
    requires c.store.steps == [COMPUTE, ASSETS] && "work" in c.store.terminal && c.store.terminal["work"] == ATTEMPT
    ensures Rebuild(c.store).state == WorkflowState.Running
  {
    assert Healthy(c.store);
    StagesSeen(c);
  }

  /** When the session of the asset item expires for the last time nothing is left to do either: the
      plan goes on running, although the item has failed. */
  lemma ExpiredAssetStalls(reason: string) returns (c: Controller)
    ensures Reaches(CONFIG, c) && Quiescent(c) && c.refused == {}
    ensures Rebuild(c.store).state == WorkflowState.Running
    ensures ASSET in c.work && "asset" in c.store.terminal && c.store.terminal["asset"].failed
  {
    var before := AssetRunning();
    c := Next(CONFIG, before, ExpireCall(ASSET, reason));
    AssetExpired(before, c, reason);
    OneMoreCall(CONFIG, before, ExpireCall(ASSET, reason));
    StillRunning(c);
  }

  lemma AssetExpired(c: Controller, c': Controller, reason: string)
    requires WorkDone(c, [WORK, ASSET], {}, {"asset"}) && OnlyFirstFact(c.store)
    requires c' == Next(CONFIG, c, ExpireCall(ASSET, reason))
    ensures Quiescent(c') && c'.refused == {} && c'.store.saved == None && OnlyFirstFact(c'.store) && ASSET in c'.work
    ensures OnlyMember(c'.store, MemberOf(WORK)) && c'.store.steps == [COMPUTE, ASSETS]
    ensures c'.store.terminal == map["work" := ATTEMPT, "asset" := FailedAttempt(reason)]
  {
    assert c.store.running - {"asset"} == {};
    assert ASSET in c.work;
  }

  lemma AssetFinished(c: Controller, c': Controller)
    requires WorkDone(c, [WORK, ASSET], {}, {"asset"}) && OnlyFirstFact(c.store)
    requires c' == Next(CONFIG, c, CompleteCall(ASSET, ATTEMPT, TIME))
    ensures Quiescent(c') && c'.refused == {} && c'.store.saved == None && OnlyFirstFact(c'.store)
    ensures OnlyMember(c'.store, MemberOf(WORK)) && c'.store.steps == [COMPUTE, ASSETS]
    ensures c'.store.terminal == map["work" := ATTEMPT, "asset" := ATTEMPT]
  {
    var done := Finish(c, "asset", ATTEMPT);
    assert c.store.running - {"asset"} == {};
    assert ASSET in c.work;
    assert forall x :: x in done.work ==> x == WORK || x == ASSET;
    assert WaitersSound(done, {});
    NothingReady(done, "asset");
    NothingReleased(done, "asset", TIME);
  }
}

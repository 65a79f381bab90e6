/** Main theorems over whole workflow runs: stages open strictly in order, deferred items are
    released exactly once and only when they are ready, nothing is executed in two places, and a
    run that comes to rest has finished its work. */
module WorkflowRunTheorems {
  import opened PlanModel
  import opened DependencyStore
  import opened StoreLaws
  import opened StoreView
  import opened StoreEffects
  import opened WorkflowRun
  import opened WorkflowRunInv
  import opened WorkflowRunStages
  import opened WorkflowRunOpening
  import opened WorkflowRunLaws

  // ---------------------------------------------------------------------------------------
  // Submission

  lemma NewClean(cfg: Config, c: Controller)
    requires IsNew(c) && Setting(cfg, c.store)
    ensures CleanAt(cfg, c, 0)
  {
  }

  /** A submitted run before its empty steps are looked at: the first stage is known. */
  ghost predicate Submitted(cfg: Config, c: Controller, at: int) {
    && CleanAt(cfg, c, 0) && cfg.compile(0).Some?
    && c.store.facts == map[] && c.store.terminal == map[]
    && c.work == NewItems(cfg, 0, at)
  }

  lemma FirstStageQueued(cfg: Config, c: Controller, at: int)
    requires IsNew(c) && Setting(cfg, c.store) && cfg.compile(0).Some?
    requires Insertable([], NewItems(cfg, 0, at))
    ensures Submitted(cfg, Opening(cfg, c, 0, at), at)
    ensures
      var items := NewItems(cfg, 0, at);
      var queued := Undeferred(items, Ids(items));
      var r := QueueItems(c, items, queued, at);
      r.Some? && RecordMembers(r.value.store, Tracked(queued)) == (Opening(cfg, c, 0, at).store, true)
      && r.value.(store := Opening(cfg, c, 0, at).store) == Opening(cfg, c, 0, at)
  {
    NewClean(cfg, c);
    FirstIsNew(cfg, c, at);
    QueueNewStage(cfg, c, 0, at);
    OpeningOfNew(cfg, c, at);
  }

  lemma FirstIsNew(cfg: Config, c: Controller, at: int)
    requires IsNew(c) && cfg.compile(0).Some? && Insertable([], NewItems(cfg, 0, at))
    ensures NewStage(cfg, c.work, 0, at)
    ensures
      var items := NewItems(cfg, 0, at);
      QueueItems(c, items, Undeferred(items, Ids(items)), at).Some?
  {
  }

  lemma OpeningOfNew(cfg: Config, c: Controller, at: int)
    requires IsNew(c) && cfg.compile(0).Some?
    ensures
      var c' := Opening(cfg, c, 0, at);
      c'.store.facts == map[] && c'.store.terminal == map[] && c'.work == NewItems(cfg, 0, at)
  {
    assert c.work + NewItems(cfg, 0, at) == NewItems(cfg, 0, at);
  }

  lemma SubmittedMembers(cfg: Config, c: Controller, at: int, r: StepRecord)
    requires Submitted(cfg, c, at) && r in c.store.steps && r.stageIndex == 0 && HasMembers(c.store, r)
    ensures !IsUncompiled(cfg, r) && !AllTerminal(c.store, r)
  {
    var m :| m in c.store.members && Matches(m, r);
    assert MemberKnown(c.work, m);
    var x :| x in c.work && !x.asset && m == MemberOf(x);
    RecordsCompiled(cfg, 0, at, x);
    assert cfg.compile(0).value[x.index] in cfg.compile(0).value;
  }

  lemma SubmittedFlag(cfg: Config, c: Controller, at: int)
    requires Submitted(cfg, c, at) && RecordEmptySteps(c.store, 0, CompiledSteps(cfg.compile(0).value), cfg.empty).1
    ensures Settled(RecordEmptySteps(c.store, 0, CompiledSteps(cfg.compile(0).value), cfg.empty).0, 0)
  {
    var compiled := CompiledSteps(cfg.compile(0).value);
    CleanHealthy(c);
    EmptiesRecorded(c.store, 0, compiled, cfg.empty);
    EmptyFanoutFlag(c.store, 0, compiled, cfg.empty);
    forall r | r in c.store.steps && r.stageIndex == 0
      ensures r.stepIndex in RecordEmptySteps(c.store, 0, compiled, cfg.empty).0.facts
    {
      EmptyFactsExact(c.store, 0, compiled, cfg.empty, r);
      if Done(c.store, r) {
        SubmittedMembers(cfg, c, at, r);
        assert false;
      }
    }
  }

  /** The rest of a submission. */
  lemma SubmissionSettles(cfg: Config, c: Controller, at: int)
    requires Submitted(cfg, c, at)
    ensures
      var (s, all) := RecordEmptySteps(c.store, 0, CompiledSteps(cfg.compile(0).value), cfg.empty);
      Inv(cfg, if all then ActivateNext(cfg, c.(store := s), 0, at) else c.(store := s))
  {
    var (s, all) := RecordEmptySteps(c.store, 0, CompiledSteps(cfg.compile(0).value), cfg.empty);
    var c' := c.(store := s);
    EmptiesKeepClean(cfg, c, 0);
    if all {
      SubmittedFlag(cfg, c, at);
      ActivateNextKeeps(cfg, c', 0, 0, at);
    } else {
      forall r | r in c.store.steps && r.stageIndex == 0 && HasMembers(c.store, r)
        ensures !IsUncompiled(cfg, r) && !AllTerminal(c.store, r)
      {
        SubmittedMembers(cfg, c, at, r);
      }
      EmptiesLeaveSome(cfg, c.store, 0);
      OpenedOnward(cfg, c', c', 0, at);
      CleanAtInv(cfg, c', 0);
    }
  }

  /** An accepted submission establishes the invariant. */
  lemma SubmitEstablishesInv(cfg: Config, c: Controller, at: int)
    requires IsNew(c) && Setting(cfg, c.store) && Submit(cfg, c, at).Some?
    ensures Inv(cfg, Submit(cfg, c, at).value)
  {
    var items := NewItems(cfg, 0, at);
    var queued := Undeferred(items, Ids(items));
    if items == [] {
      NewClean(cfg, c);
      assert Tracked(queued) == [];
      assert Submitted(cfg, c, at);
      SubmissionSettles(cfg, c, at);
    } else {
      FirstStageQueued(cfg, c, at);
      SubmissionSettles(cfg, Opening(cfg, c, 0, at), at);
    }
  }

  /** The state of a run after these calls. */
  ghost predicate Reaches(cfg: Config, c: Controller) {
    exists start, at, calls :: ReachedBy(cfg, start, at, calls, c)
  }

  ghost predicate ReachedBy(cfg: Config, start: Controller, at: int, calls: seq<Call>, c: Controller) {
    && IsNew(start) && Setting(cfg, start.store) && Submit(cfg, start, at).Some?
    && c == RunCalls(cfg, Submit(cfg, start, at).value, calls)
  }

  lemma ReachableInv(cfg: Config, c: Controller)
    requires Reaches(cfg, c)
    ensures Inv(cfg, c)
  {
    var start, at, calls :| ReachedBy(cfg, start, at, calls, c);
    SubmitEstablishesInv(cfg, start, at);
    RunKeepsInv(cfg, Submit(cfg, start, at).value, calls);
  }

  // ---------------------------------------------------------------------------------------
  // Stage order

  predicate StageHasMembers(s: Store, i: int) {
    exists m :: m in s.members && m.stageIndex == i
  }

  lemma RunningIsClean(cfg: Config, c: Controller) returns (f: int)
    requires Inv(cfg, c) && Rebuild(c.store).state != WorkflowState.Failed
    ensures Clean(c, f, {}, {}) && Onward(cfg, c, f, false) && CleanAt(cfg, c, f)
  {
    RebuiltFailedIff(c.store);
    if Failing(c) {
      FailingForGood(c);
      assert false;
    }
    f :| Clean(c, f, {}, {}) && Onward(cfg, c, f, false);
  }

  lemma BegunStageBounded(cfg: Config, c: Controller, f: int, i: int)
    requires CleanAt(cfg, c, f) && i > 0
    requires (StageKnown(c.store, i) && !StageIs(c.store, i, Blocked)) || StageHasMembers(c.store, i)
    ensures i <= f
  {
    if StageHasMembers(c.store, i) {
      var m :| m in c.store.members && m.stageIndex == i;
      assert MemberKnown(c.work, m);
    } else {
      CleanHealthy(c);
      StageFound(c.store, i);
      StageStates(c.store, i);
      NotEarliest(cfg, c.store, i);
      var r :| r in c.store.steps && r.stageIndex == i && Begun(c.store, r);
      BegunUpTo(cfg, c, f, r);
    }
  }

  lemma NotEarliest(cfg: Config, s: Store, i: int)
    requires Setting(cfg, s) && i > 0
    ensures !DependencyStore.IsEarliest(s.steps, i)
  {
    var q :| q in s.steps && q.stageIndex == 0;
    var k :| 0 <= k < |s.steps| && s.steps[k] == q;
  }

  /** Stages open strictly in order: in every reachable run still going, a stage that is not
      blocked, or has a recorded membership, has all earlier stages completed. */
  lemma StageOrder(cfg: Config, c: Controller, i: int, j: int)
    requires Reaches(cfg, c) && Rebuild(c.store).state == WorkflowState.Running && 0 <= j < i
    requires (StageKnown(c.store, i) && !StageIs(c.store, i, Blocked)) || StageHasMembers(c.store, i)
    ensures StageIs(c.store, j, Progress.Completed)
  {
    ReachableInv(cfg, c);
    var f := RunningIsClean(cfg, c);
    BegunStageBounded(cfg, c, f, i);
    EarlierKnown(cfg, c, f, i, j);
    CleanHealthy(c);
    StageFound(c.store, j);
    StageStates(c.store, j);
    assert StageDone(c.store, j);
  }

  /** Stages before one that has begun are stages of the plan. */
  lemma EarlierKnown(cfg: Config, c: Controller, f: int, i: int, j: int)
    requires CleanAt(cfg, c, f) && 0 <= j < i && (StageKnown(c.store, i) || StageHasMembers(c.store, i))
    ensures StageKnown(c.store, j)
  {
    if StageKnown(c.store, i) {
      var r :| r in c.store.steps && r.stageIndex == i;
    } else {
      var m :| m in c.store.members && m.stageIndex == i;
      assert MemberKnown(c.work, m);
      var x :| x in c.work && !x.asset && m == MemberOf(x);
      var r := StepOf(cfg, c, x);
    }
  }

  // ---------------------------------------------------------------------------------------
  // Releases

  /** In every reachable run, failed or not: the release log repeats nobody and names exactly the
      deferred items ever queued, and everything a released item depends on has succeeded; items that
      depend on the same ones are released together. Items tracked by the plan are never in two places
      at once. */
  lemma ReleasedOnceWhenReady(cfg: Config, c: Controller, x: Item)
    requires Reaches(cfg, c) && x in c.work
    ensures Distinct(c.released)
    ensures x.id in c.released <==> Deferred(cfg, x) && Touched(c.store, x.id)
    ensures x.id in c.released ==> AllSucceed(c.store, x.dependsOn)
    ensures forall y :: y in c.work && Alike(x, y) && x.id in c.released ==> y.id in c.released
    ensures !x.asset ==> InOnePlace(c.store, x.id)
  {
    ReachableInv(cfg, c);
  }

  /** In every reachable run still going, an item not yet queued depends on one that has not
      succeeded or whose output was refused. */
  lemma UnreleasedWaits(cfg: Config, c: Controller, x: Item)
    requires Reaches(cfg, c) && Rebuild(c.store).state != WorkflowState.Failed && x in c.work && !Touched(c.store, x.id)
    ensures exists k :: 0 <= k < |x.dependsOn| && (!Succeeds(c.store, x.dependsOn[k]) || x.dependsOn[k] in c.refused)
  {
    ReachableInv(cfg, c);
    var f := RunningIsClean(cfg, c);
    assert Waits(c, x, {});
  }

  // ---------------------------------------------------------------------------------------
  // Coming to rest

  /** Dependencies are known items, ranked below the items that wait for them. */
  predicate Ranked(work: seq<Item>, rank: string -> nat) {
    forall x, k :: x in work && 0 <= k < |x.dependsOn| ==>
      x.dependsOn[k] in Ids(work) && rank(x.dependsOn[k]) < rank(x.id)
  }

  predicate NoFailedAttempt(s: Store) {
    forall id :: id in s.terminal ==> !s.terminal[id].failed
  }

  predicate Quiescent(c: Controller) {
    c.store.queued == {} && c.store.running == {}
  }

  lemma {:induction false} RestingItemSucceeded(c: Controller, rank: string -> nat, x: Item)
    requires WaitersSound(c, {}) && NoFailedAttempt(c.store) && Quiescent(c) && c.refused == {} && Ranked(c.work, rank) && x in c.work
    ensures Succeeds(c.store, x.id)
    decreases rank(x.id)
  {
    if !Touched(c.store, x.id) {
      assert Waits(c, x, {});
      var k :| 0 <= k < |x.dependsOn| && !Succeeds(c.store, x.dependsOn[k]);
      var y :| y in c.work && y.id == x.dependsOn[k];
      RestingItemSucceeded(c, rank, y);
    }
  }

  /** Progress: with acyclic dependencies among known items, when the plan has not failed, no output
      was refused, and nothing is queued or running, every item has succeeded if and only if no
      attempt has failed; only an asset item can have a failed attempt then. */
  lemma RestingMeansDone(cfg: Config, c: Controller, rank: string -> nat)
    requires Reaches(cfg, c) && Rebuild(c.store).state != WorkflowState.Failed && c.refused == {}
    requires Quiescent(c) && Ranked(c.work, rank)
    ensures NoFailedAttempt(c.store) <==> forall x :: x in c.work ==> Succeeds(c.store, x.id)
    ensures forall x :: x in c.work && !x.asset && x.id in c.store.terminal ==> Succeeds(c.store, x.id)
  {
    ReachableInv(cfg, c);
    var f := RunningIsClean(cfg, c);
    if NoFailedAttempt(c.store) {
      forall x | x in c.work
        ensures Succeeds(c.store, x.id)
      {
        RestingItemSucceeded(c, rank, x);
      }
    }
    forall id | id in c.store.terminal && (forall x :: x in c.work ==> Succeeds(c.store, x.id))
      ensures !c.store.terminal[id].failed
    {
      assert Touched(c.store, id);
    }
    forall x | x in c.work && !x.asset && x.id in c.store.terminal
      ensures Succeeds(c.store, x.id)
    {
      assert Touched(c.store, x.id) && MemberOf(x) in c.store.members;
    }
  }

  /** A step all of whose items materialize assets. */
  predicate OnlyAssets(c: Controller, r: StepRecord) {
    && (exists x :: x in c.work && x.stageIndex == r.stageIndex && x.stepIndex == r.stepIndex)
    && (forall x :: x in c.work && x.stageIndex == r.stageIndex && x.stepIndex == r.stepIndex ==> x.asset)
  }

  predicate HasAssetOnlyStep(c: Controller) {
    exists r :: r in c.store.steps && OnlyAssets(c, r)
  }

  lemma AssetOnlyNotDone(cfg: Config, c: Controller, f: int, r: StepRecord)
    requires CleanAt(cfg, c, f) && r in c.store.steps && OnlyAssets(c, r)
    ensures !Done(c.store, r)
  {
    if HasMembers(c.store, r) {
      var y := TouchedMember(c, r);
      assert false;
    }
    var x :| x in c.work && x.stageIndex == r.stageIndex && x.stepIndex == r.stepIndex;
    assert IsCompiled(cfg, x);
    assert cfg.compile(x.stageIndex).value[x.index] in cfg.compile(x.stageIndex).value;
  }

  /** A step with neither a fact nor memberships left to finish has only asset items. */
  lemma UndoneIsAssetOnly(cfg: Config, c: Controller, f: int, r: StepRecord)
    requires CleanAt(cfg, c, f) && Onward(cfg, c, f, false) && !Settled(c.store, f)
    requires forall x :: x in c.work ==> Succeeds(c.store, x.id)
    requires r in c.store.steps && r.stageIndex == f && r.stepIndex !in c.store.facts
    ensures OnlyAssets(c, r)
  {
    forall x | x in c.work && x.stageIndex == r.stageIndex && x.stepIndex == r.stepIndex
      ensures x.asset
    {
      if !x.asset {
        MemberSettles(cfg, c, f, r, x);
      }
    }
    assert !IsUncompiled(cfg, r);
    var y :| y in cfg.compile(f).value && y.stepIndex == r.stepIndex;
    var k :| 0 <= k < |cfg.compile(f).value| && cfg.compile(f).value[k] == y;
    assert InWork(c.work, f, k);
    var x :| x in c.work && x.stageIndex == f && x.index == k;
    assert IsCompiled(cfg, x);
  }

  lemma MemberSettles(cfg: Config, c: Controller, f: int, r: StepRecord, x: Item)
    requires CleanAt(cfg, c, f) && (forall y :: y in c.work ==> Succeeds(c.store, y.id))
    requires r in c.store.steps && x in c.work && !x.asset && x.stageIndex == r.stageIndex && x.stepIndex == r.stepIndex
    ensures r.stepIndex in c.store.facts
  {
    assert Touched(c.store, x.id) && MemberOf(x) in c.store.members && Matches(MemberOf(x), r);
    forall m | m in c.store.members && Matches(m, r)
      ensures m.id in c.store.terminal
    {
      assert MemberKnown(c.work, m);
    }
    assert AllTerminal(c.store, r);
  }

  lemma AllStagesDone(cfg: Config, c: Controller, f: int)
    requires CleanAt(cfg, c, f) && Onward(cfg, c, f, false) && Settled(c.store, f)
    ensures forall r :: r in c.store.steps ==> r.stepIndex in c.store.facts
  {
    forall r | r in c.store.steps
      ensures r.stepIndex in c.store.facts
    {
      if r.stageIndex > f {
        NextKnown(cfg, c.store, f, r);
        assert false;
      }
    }
  }

  lemma NextKnown(cfg: Config, s: Store, f: int, r: StepRecord)
    requires Setting(cfg, s) && f >= 0 && r in s.steps && r.stageIndex > f
    ensures StageKnown(s, f + 1)
  {
    if r.stageIndex == f + 1 {
      assert r in s.steps;
    }
  }

  /** The plan of a store without a failure is completed when all its steps are done. */
  lemma CompletedIff(s: Store)
    requires Healthy(s) && s.steps != []
    ensures Rebuild(s).state == WorkflowState.Completed <==> forall r :: r in s.steps ==> Done(s, r)
  {
    HealthyPlanState(s);
    var stages, indexes := Rebuild(s).stages, StageIndexes(s.steps);
    if forall r :: r in s.steps ==> Done(s, r) {
      forall g | 0 <= g < |stages|
        ensures stages[g].state == Progress.Completed
      {
        StageIndexKnown(s.steps, indexes[g]);
        StageStates(s, indexes[g]);
        assert StageDone(s, indexes[g]);
      }
      assert s.steps[0] in s.steps;
      StageIndexListed(s.steps, s.steps[0]);
    }
    if Rebuild(s).state == WorkflowState.Completed {
      forall r | r in s.steps
        ensures Done(s, r)
      {
        CompletedStepDone(s, r);
      }
    }
  }

  lemma CompletedStepDone(s: Store, r: StepRecord)
    requires Healthy(s) && Rebuild(s).state == WorkflowState.Completed && r in s.steps
    ensures Done(s, r)
  {
    assert StageKnown(s, r.stageIndex);
    StageFound(s, r.stageIndex);
    StageStates(s, r.stageIndex);
    var g := StageAt(Rebuild(s).stages, r.stageIndex);
    assert AllStages(Rebuild(s).stages, Progress.Completed);
    assert Rebuild(s).stages[g].state == Progress.Completed;
    assert StageDone(s, r.stageIndex);
  }

  /** When such a run comes to rest its workflow is completed exactly if no step consists of asset
      items alone: those have no memberships, so their step never completes. */
  lemma RestingCompletedIff(cfg: Config, c: Controller, rank: string -> nat)
    requires Reaches(cfg, c) && Rebuild(c.store).state != WorkflowState.Failed && c.refused == {}
    requires NoFailedAttempt(c.store) && Quiescent(c) && Ranked(c.work, rank)
    ensures Rebuild(c.store).state == WorkflowState.Completed <==> !HasAssetOnlyStep(c)
  {
    ReachableInv(cfg, c);
    var f := RunningIsClean(cfg, c);
    CleanHealthy(c);
    CompletedIff(c.store);
    forall x | x in c.work
      ensures Succeeds(c.store, x.id)
    {
      RestingItemSucceeded(c, rank, x);
    }
    if HasAssetOnlyStep(c) {
      var r :| r in c.store.steps && OnlyAssets(c, r);
      AssetOnlyNotDone(cfg, c, f, r);
    } else {
      if !Settled(c.store, f) {
        var r :| r in c.store.steps && r.stageIndex == f && r.stepIndex !in c.store.facts;
        UndoneIsAssetOnly(cfg, c, f, r);
        assert false;
      }
      AllStagesDone(cfg, c, f);
    }
  }
}

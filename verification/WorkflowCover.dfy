/** Which steps have finished all their items once they have an output. A step is completed by its
    recorded memberships, and an item gets its membership only when it is released, so the output of
    a step may come before some of its items. It does not when the items are released together. */
module WorkflowCover {
  import opened Wrappers
  import opened PlanModel
  import opened DependencyStore
  import opened StoreView
  import opened StoreEffects
  import opened WorkflowRun
  import opened WorkflowRunInv
  import opened WorkflowRunParts
  import opened WorkflowRunRelease
  import opened WorkflowRunOpening
  import opened WorkflowRunLaws
  import opened WorkflowRunTheorems

  /** The compiled entry is a known item of the stage that has succeeded. */
  predicate EntryFinished(c: Controller, i: int, y: Compiled) {
    Succeeds(c.store, y.id) && exists x :: x in c.work && x.stageIndex == i && x.id == y.id
  }

  /** Every item the plan tracks on this step of the compiled stage has succeeded. */
  ghost predicate StepFinished(cfg: Config, c: Controller, r: StepRecord) {
    && cfg.compile(r.stageIndex).Some?
    && forall y :: TrackedOn(cfg.compile(r.stageIndex).value, r.stepIndex, y) ==> EntryFinished(c, r.stageIndex, y)
  }

  /** The items of a covered step that has begun have all been queued. */
  lemma CoveredTouched(cfg: Config, c: Controller, r: StepRecord, z: Item, x: Item)
    requires Always(cfg, c) && WaitersSound(c, {}) && r in c.store.steps && Covered(cfg, c.refused, r)
    requires z in c.work && OnStep(z, r) && Touched(c.store, z.id) && x in c.work && OnStep(x, r)
    ensures Touched(c.store, x.id)
  {
    assert IsCompiled(cfg, x);
    var compiled := cfg.compile(r.stageIndex).value;
    assert compiled[x.index] in compiled;
    if NoneDeferred(compiled, r.stepIndex) {
      assert !Deferred(cfg, x);
    } else if SameDependencies(compiled, r.stepIndex) {
      AlikeTouched(cfg, c, r, z, x);
    } else {
      Together(cfg, c);
      assert IsUniform(cfg, r);
    }
  }

  lemma CoveredEntry(cfg: Config, c: Controller, f: int, r: StepRecord, z: Item, y: Compiled)
    requires CleanAt(cfg, c, f) && r in c.store.steps && r.stepIndex in c.store.facts && Covered(cfg, c.refused, r)
    requires z in c.work && OnStep(z, r) && Touched(c.store, z.id)
    requires cfg.compile(r.stageIndex).Some? && TrackedOn(cfg.compile(r.stageIndex).value, r.stepIndex, y)
    ensures EntryFinished(c, r.stageIndex, y)
  {
    var x := CompiledItem(cfg, c, r.stageIndex, z, y);
    CoveredTouched(cfg, c, r, z, x);
    assert MemberOf(x) in c.store.members && Matches(MemberOf(x), r) && AllTerminal(c.store, r);
    assert x.id in c.store.terminal;
  }

  lemma CoveredFinished(cfg: Config, c: Controller, f: int, r: StepRecord)
    requires CleanAt(cfg, c, f) && r in c.store.steps && r.stepIndex in c.store.facts && Covered(cfg, c.refused, r)
    ensures StepFinished(cfg, c, r)
  {
    if IsUncompiled(cfg, r) {
      assert forall y :: !TrackedOn(cfg.compile(r.stageIndex).value, r.stepIndex, y);
    } else {
      var z := TouchedMember(c, r);
      assert IsCompiled(cfg, z);
      forall y | TrackedOn(cfg.compile(r.stageIndex).value, r.stepIndex, y)
        ensures EntryFinished(c, r.stageIndex, y)
      {
        CoveredEntry(cfg, c, f, r, z, y);
      }
    }
  }

  /** In every reachable run still going, a step that has an output has finished every item the plan
      tracks on it, when none of them waits for its own stage, or they all depend on the same items, or
      no output has been refused and they all wait for the same items, directly or not. */
  lemma OutputMeansFinished(cfg: Config, c: Controller, r: StepRecord)
    requires Reaches(cfg, c) && Rebuild(c.store).state != WorkflowState.Failed
    requires r in c.store.steps && r.stepIndex in c.store.facts && Covered(cfg, c.refused, r)
    ensures StepFinished(cfg, c, r)
  {
    ReachableInv(cfg, c);
    var f := RunningIsClean(cfg, c);
    CoveredFinished(cfg, c, f, r);
  }

  /** Stages open in order, said of the items: once a stage has begun, every item tracked on such a
      step of an earlier stage has succeeded. */
  lemma StageOrderItems(cfg: Config, c: Controller, i: int, r: StepRecord)
    requires Reaches(cfg, c) && Rebuild(c.store).state == WorkflowState.Running
    requires (StageKnown(c.store, i) && !StageIs(c.store, i, Blocked)) || StageHasMembers(c.store, i)
    requires r in c.store.steps && r.stageIndex < i && Covered(cfg, c.refused, r)
    ensures StepFinished(cfg, c, r)
  {
    ReachableInv(cfg, c);
    var f := RunningIsClean(cfg, c);
    assert 0 <= r.stageIndex;
    StageOrder(cfg, c, i, r.stageIndex);
    CompletedStageSettled(cfg, c, f, r.stageIndex);
    CoveredFinished(cfg, c, f, r);
  }

  // ---------------------------------------------------------------------------------------
  // An item is claimed and completes

  /** Every output is resolved and every aggregation succeeds. */
  ghost predicate AcceptsAll(cfg: Config) {
    (forall text :: cfg.resolves(text)) && (forall step :: cfg.aggregate(step).Some?)
  }

  /** The output of the attempt is resolved and every aggregation succeeds. */
  ghost predicate Accepts(cfg: Config, attempt: Terminal) {
    cfg.resolves(attempt.outputJson) && forall step :: cfg.aggregate(step).Some?
  }

  predicate IsSuccess(attempt: Terminal) {
    !attempt.failed && attempt.outputJson != ""
  }

  lemma ClaimKeepsClean(cfg: Config, c: Controller, f: int, x: Item, c': Controller)
    requires CleanAt(cfg, c, f) && Onward(cfg, c, f, false) && IsClaimed(c, x, c')
    ensures Setting(cfg, c'.store) && Always(cfg, c') && Clean(c', f, {}, {}) && Onward(cfg, c', f, false)
  {
    ClaimMoves(c, x, c');
    AlwaysByTouched(cfg, c, c');
    SettingBySteps(cfg, c.store, c'.store);
    MoveKeepsClean(c, c', f);
    CoverKept(cfg, c, c');
    OnwardGrows(cfg, c, c', f, false);
  }

  lemma ClaimMoves(c: Controller, x: Item, c': Controller)
    requires IsClaimed(c, x, c') && forall y :: y in c.work && !y.asset ==> InOnePlace(c.store, y.id)
    ensures SameTouched(c.store, c'.store)
    ensures forall y :: y in c'.work && !y.asset ==> InOnePlace(c'.store, y.id)
  {
  }

  /** An aggregation that never refuses accepts every recorded item's output. */
  lemma OutputAccepted(s: Store, r: StepRecord, m: MemberRecord, json: string, sha256: string, aggregate: Step -> Option<Output>)
    requires Healthy(s) && UniqueStepRecords(s) && UniqueIds(s) && r in s.steps && m in s.members && Matches(m, r)
    requires NamesOutputs(aggregate) && forall step :: aggregate(step).Some?
    ensures RecordOutput(s, m.id, json, sha256, aggregate).1
  {
    Located(s, r, m);
    HealthyQuiet(s);
    ReportedQuiet(s, r, m.id, json, sha256);
    QuietOutcome(Rebuild(s), m.id, json, sha256, aggregate, RebuiltStep(s, r), Reported(s, r, m.id, json, sha256));
  }

  /** While nothing runs and nothing was refused, an unfinished item whose dependencies have succeeded
      is queued. */
  lemma ReadyIsQueued(cfg: Config, c: Controller, x: Item)
    requires Always(cfg, c) && WaitersSound(c, {}) && c.refused == {} && c.store.running == {}
    requires x in c.work && x.id !in c.store.terminal && AllSucceed(c.store, x.dependsOn)
    ensures x.id in c.store.queued
  {
    assert !Waits(c, x, {});
  }

  /** One more item has succeeded, and its step may have got its output. */
  ghost predicate TakenIn(c: Controller, c': Controller, x: Item, attempt: Terminal) {
    && c'.work == c.work && c'.refused == c.refused && c'.store.steps == c.store.steps
    && c'.store.running == c.store.running && c'.store.terminal == c.store.terminal[x.id := attempt]
    && FactsAdded(c.store, c'.store, x.stepIndex)
  }

  ghost predicate FactsAdded(s: Store, s': Store, k: int) {
    && (forall j :: j in s'.facts ==> j in s.facts || j == k)
    && (forall j :: j in s.facts ==> j in s'.facts && (j != k ==> s'.facts[j] == s.facts[j]))
  }

  /** Nobody else recorded on the item's step is still to finish. */
  predicate LastOnStep(s: Store, x: Item) {
    forall m :: m in s.members && m.stageIndex == x.stageIndex && m.stepIndex == x.stepIndex ==> m.id == x.id || m.id in s.terminal
  }

  ghost function Claimed(c: Controller, x: Item, attempt: Terminal): Controller {
    c.(store := c.store.(queued := c.store.queued - {x.id}, terminal := c.store.terminal[x.id := attempt]))
  }

  /** The item is claimed and its attempt recorded. */
  lemma ClaimedAndFinished(cfg: Config, c: Controller, f: int, x: Item, attempt: Terminal) returns (claimed: Controller)
    requires CleanAt(cfg, c, f) && Onward(cfg, c, f, false) && IsSuccess(attempt)
    requires x in c.work && x.id in c.store.queued && x.id !in c.store.running && x.id !in c.store.terminal
    ensures IsClaimed(c, x, claimed) && Finish(claimed, x.id, attempt) == Claimed(c, x, attempt)
    ensures Between(cfg, Claimed(c, x, attempt), f, x, if x.asset then {} else {x.stepIndex}, false)
  {
    claimed := c.(store := c.store.(queued := c.store.queued - {x.id}, running := c.store.running + {x.id}));
    ClaimKeepsClean(cfg, c, f, x, claimed);
    FinishClaimed(c, x, attempt, claimed);
    CompletionStarts(cfg, claimed, f, x, attempt);
  }

  lemma FinishClaimed(c: Controller, x: Item, attempt: Terminal, claimed: Controller)
    requires IsClaimed(c, x, claimed) && x.id !in c.store.terminal
    ensures Finish(claimed, x.id, attempt) == Claimed(c, x, attempt)
  {
    assert c.store.running + {x.id} - {x.id} == c.store.running;
  }

  /** The output of a finished item is taken in, and completes the step of the last one. */
  lemma OutputTakenIn(cfg: Config, c: Controller, f: int, x: Item, attempt: Terminal) returns (taken: Controller)
    requires Between(cfg, c, f, x, {x.stepIndex}, false) && !x.asset && Accepts(cfg, attempt) && IsSuccess(attempt)
    ensures RecordOutput(c.store, x.id, attempt.outputJson, attempt.outputSha256, cfg.aggregate) == (taken.store, true)
    ensures taken == c.(store := taken.store) && Between(cfg, taken, f, x, {}, x.stageIndex == f)
    ensures Frame(c.store, taken.store) && FactsAdded(c.store, taken.store, x.stepIndex)
    ensures LastOnStep(c.store, x) ==> x.stepIndex in taken.store.facts
  {
    var r := StepOf(cfg, c, x);
    assert Touched(c.store, x.id) && MemberOf(x) in c.store.members;
    CleanHealthy(c);
    CleanUniqueIds(cfg, c);
    StoreTakesIn(c.store, r, MemberOf(x), attempt, cfg.aggregate);
    taken := c.(store := RecordOutput(c.store, x.id, attempt.outputJson, attempt.outputSha256, cfg.aggregate).0);
    OutputBetween(cfg, c, f, x, attempt, taken);
    if LastOnStep(c.store, x) {
      assert AllTerminal(c.store, r);
    }
  }

  lemma StoreTakesIn(s: Store, r: StepRecord, m: MemberRecord, attempt: Terminal, aggregate: Step -> Option<Output>)
    requires Healthy(s) && UniqueStepRecords(s) && UniqueIds(s) && OutputsKept(s) && r in s.steps && m in s.members && Matches(m, r)
    requires NamesOutputs(aggregate) && (forall step :: aggregate(step).Some?) && attempt.outputJson != ""
    ensures
      var (s', ok) := RecordOutput(s, m.id, attempt.outputJson, attempt.outputSha256, aggregate);
      ok && FactsAdded(s, s', r.stepIndex) && (AllTerminal(s, r) ==> r.stepIndex in s'.facts)
  {
    OutputAccepted(s, r, m, attempt.outputJson, attempt.outputSha256, aggregate);
    OutputRecorded(s, r, m, attempt.outputJson, attempt.outputSha256, aggregate);
  }

  lemma OutputBetween(cfg: Config, c: Controller, f: int, x: Item, attempt: Terminal, taken: Controller)
    requires Between(cfg, c, f, x, {x.stepIndex}, false) && !x.asset && IsSuccess(attempt)
    requires RecordOutput(c.store, x.id, attempt.outputJson, attempt.outputSha256, cfg.aggregate) == (taken.store, true)
    requires taken == c.(store := taken.store)
    ensures Between(cfg, taken, f, x, {}, x.stageIndex == f) && Frame(c.store, taken.store)
  {
    OutputKeepsClean(cfg, c, f, x, attempt.outputJson, attempt.outputSha256);
    AlwaysByQueue(cfg, c, taken);
    SettingBySteps(cfg, c.store, taken.store);
    SameTouchedGroups(cfg, c, taken);
  }

  /** The release that follows changes neither attempts nor facts. */
  lemma ReleasedAfter(cfg: Config, c: Controller, f: int, x: Item, moving: bool, at: int) returns (mid: Controller)
    requires Between(cfg, c, f, x, {}, moving)
    ensures EnqueueReady(c, x.id, at) == (mid, true)
    ensures CleanAt(cfg, mid, f) && Onward(cfg, mid, f, moving)
    ensures mid.work == c.work && mid.refused == c.refused && mid.store.facts == c.store.facts
    ensures mid.store.steps == c.store.steps && mid.store.terminal == c.store.terminal && mid.store.running == c.store.running
  {
    mid := EnqueueReady(c, x.id, at).0;
    ReleaseStep(cfg, c, f, x, moving, at);
    ReleaseOutcome(cfg, c, x.id, at);
  }

  /** The completion handler of a running item, step by step. */
  lemma HandlerSteps(cfg: Config, c: Controller, x: Item, attempt: Terminal, at: int, taken: Controller, mid: Controller)
    requires x in c.work && !x.asset && x.id in c.store.running && IsSuccess(attempt) && cfg.resolves(attempt.outputJson)
    requires taken == Finish(c, x.id, attempt).(store := taken.store)
    requires RecordOutput(Finish(c, x.id, attempt).store, x.id, attempt.outputJson, attempt.outputSha256, cfg.aggregate) == (taken.store, true)
    requires RecordTerminal(taken.store, x.id, if attempt.skipped then MemberState.Skipped else MemberState.Completed, "") == taken.store
    requires EnqueueReady(taken, x.id, at) == (mid, true)
    ensures Complete(cfg, c, x, attempt, at) == ActivateNext(cfg, mid, x.stageIndex, at)
  {
    assert taken.(store := taken.store) == taken;
  }

  ghost predicate RunsTo(cfg: Config, c: Controller, c': Controller) {
    exists calls :: c' == RunCalls(cfg, c, calls)
  }

  predicate IsClaimed(c: Controller, x: Item, claimed: Controller) {
    && x in c.work && x.id in c.store.queued && x.id !in c.store.running
    && claimed == c.(store := c.store.(queued := c.store.queued - {x.id}, running := c.store.running + {x.id}))
  }

  lemma ClaimThenComplete(cfg: Config, c: Controller, x: Item, attempt: Terminal, at: int, claimed: Controller)
    requires IsClaimed(c, x, claimed)
    ensures RunsTo(cfg, c, Complete(cfg, claimed, x, attempt, at))
  {
    var first, second := ClaimCall(x.id), CompleteCall(x, attempt, at);
    assert [first, second][1..] == [second] && [second][1..] == [];
    assert Next(cfg, c, first) == claimed;
    assert RunCalls(cfg, claimed, [second]) == RunCalls(cfg, Next(cfg, claimed, second), []);
    assert RunCalls(cfg, c, [first, second]) == Complete(cfg, claimed, x, attempt, at);
  }

  /** A queued item is claimed and completes; `mid` is the state before the next stage is tried. */
  lemma TakesIn(cfg: Config, c: Controller, f: int, x: Item, attempt: Terminal, at: int) returns (mid: Controller)
    requires CleanAt(cfg, c, f) && Onward(cfg, c, f, false) && Accepts(cfg, attempt) && IsSuccess(attempt)
    requires x in c.work && x.id in c.store.queued && x.id !in c.store.running && x.id !in c.store.terminal
    ensures CleanAt(cfg, mid, f) && Onward(cfg, mid, f, !x.asset && x.stageIndex == f) && TakenIn(c, mid, x, attempt)
    ensures RunsTo(cfg, c, if x.asset then mid else ActivateNext(cfg, mid, x.stageIndex, at))
    ensures !x.asset && LastOnStep(c.store, x) ==> x.stepIndex in mid.store.facts
  {
    var claimed := ClaimedAndFinished(cfg, c, f, x, attempt);
    if x.asset {
      mid := AssetTakenIn(cfg, c, f, x, attempt, at, claimed);
    } else {
      mid := WorkTakenIn(cfg, c, f, x, attempt, at, claimed);
    }
  }

  lemma WorkTakenIn(cfg: Config, c: Controller, f: int, x: Item, attempt: Terminal, at: int, claimed: Controller)
      returns (mid: Controller)
    requires Between(cfg, Claimed(c, x, attempt), f, x, {x.stepIndex}, false) && !x.asset && Accepts(cfg, attempt) && IsSuccess(attempt)
    requires IsClaimed(c, x, claimed) && Finish(claimed, x.id, attempt) == Claimed(c, x, attempt)
    ensures CleanAt(cfg, mid, f) && Onward(cfg, mid, f, x.stageIndex == f) && TakenIn(c, mid, x, attempt)
    ensures RunsTo(cfg, c, ActivateNext(cfg, mid, x.stageIndex, at))
    ensures LastOnStep(c.store, x) ==> x.stepIndex in mid.store.facts
  {
    var taken := OutputTakenIn(cfg, Claimed(c, x, attempt), f, x, attempt);
    SuccessKeeps(cfg, taken, f, x, attempt.skipped);
    mid := ReleasedAfter(cfg, taken, f, x, x.stageIndex == f, at);
    WorkHandled(cfg, c, x, attempt, at, claimed, taken, mid);
  }

  lemma WorkHandled(cfg: Config, c: Controller, x: Item, attempt: Terminal, at: int, claimed: Controller, taken: Controller, mid: Controller)
    requires IsClaimed(c, x, claimed) && !x.asset && IsSuccess(attempt) && cfg.resolves(attempt.outputJson)
    requires taken == Finish(claimed, x.id, attempt).(store := taken.store)
    requires RecordOutput(Finish(claimed, x.id, attempt).store, x.id, attempt.outputJson, attempt.outputSha256, cfg.aggregate) == (taken.store, true)
    requires RecordTerminal(taken.store, x.id, if attempt.skipped then MemberState.Skipped else MemberState.Completed, "") == taken.store
    requires EnqueueReady(taken, x.id, at) == (mid, true)
    ensures RunsTo(cfg, c, ActivateNext(cfg, mid, x.stageIndex, at))
  {
    HandlerSteps(cfg, claimed, x, attempt, at, taken, mid);
    ClaimThenComplete(cfg, c, x, attempt, at, claimed);
  }

  lemma AssetTakenIn(cfg: Config, c: Controller, f: int, x: Item, attempt: Terminal, at: int, claimed: Controller)
      returns (mid: Controller)
    requires Between(cfg, Claimed(c, x, attempt), f, x, {}, false) && x.asset && IsSuccess(attempt)
    requires IsClaimed(c, x, claimed) && Finish(claimed, x.id, attempt) == Claimed(c, x, attempt)
    ensures CleanAt(cfg, mid, f) && Onward(cfg, mid, f, false) && TakenIn(c, mid, x, attempt) && RunsTo(cfg, c, mid)
  {
    mid := ReleasedAfter(cfg, Claimed(c, x, attempt), f, x, false, at);
    AssetHandler(cfg, claimed, x, attempt, at, mid);
    ClaimThenComplete(cfg, c, x, attempt, at, claimed);
  }

  lemma AssetHandler(cfg: Config, c: Controller, x: Item, attempt: Terminal, at: int, mid: Controller)
    requires x in c.work && x.asset && x.id in c.store.running && IsSuccess(attempt)
    requires EnqueueReady(Finish(c, x.id, attempt), x.id, at) == (mid, true)
    ensures Complete(cfg, c, x, attempt, at) == mid
  {
  }
}

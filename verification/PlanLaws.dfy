/** Laws of the plan mutators: failure always propagates upward, an incremental report gives
    exactly the states a rebuild would derive, and a repeated report changes nothing. */
module PlanLaws {
  import opened Wrappers
  import opened PlanModel

  // ---------------------------------------------------------------------------------------
  // Failure propagates upward

  predicate StepUp(step: Step) {
    AnyMember(step.workItems, MemberState.Failed) ==> step.state == Progress.Failed
  }

  predicate StageUp(stage: Stage) {
    && (forall t :: 0 <= t < |stage.steps| ==> StepUp(stage.steps[t]))
    && (AnyStep(stage.steps, Progress.Failed) ==> stage.state == Progress.Failed)
  }

  /** A failed membership has a failed step, a failed step a failed stage, a failed stage a failed
      workflow. */
  predicate FailureUp(plan: Plan) {
    && (forall g :: 0 <= g < |plan.stages| ==> StageUp(plan.stages[g]))
    && (AnyStage(plan.stages, Progress.Failed) ==> plan.state == WorkflowState.Failed)
  }

  lemma FailStageUp(stage: Stage, stepIndex: int, id: string, reason: string)
    requires StageUp(stage)
    ensures StageUp(FailStage(stage, stepIndex, id, reason))
  {
  }

  lemma MarkFailedUp(plan: Plan, stageIndex: int, stepIndex: int, id: string, reason: string)
    requires FailureUp(plan)
    ensures FailureUp(MarkFailed(plan, stageIndex, stepIndex, id, reason))
  {
    var at := StageAt(plan.stages, stageIndex);
    if at < |plan.stages| {
      FailStageUp(plan.stages[at], stepIndex, id, ReasonOrDefault(reason));
    }
  }

  lemma PruneStageUp(stage: Stage)
    ensures StageUp(PruneStage(stage)) == StageUp(stage)
  {
    forall t | 0 <= t < |stage.steps|
      ensures StepUp(PruneStage(stage).steps[t]) == StepUp(stage.steps[t])
    {
      PruneKeepsMemberStates(stage.steps[t].workItems, MemberState.Failed);
    }
    PruneKeepsStepStates(stage, Progress.Failed);
  }

  lemma PruneKeepsMemberStates(items: seq<Membership>, state: MemberState)
    ensures AnyMember(PruneMembers(items), state) == AnyMember(items, state)
  {
    if AnyMember(items, state) {
      var i :| 0 <= i < |items| && items[i].state == state;
      assert PruneMembers(items)[i].state == state;
    }
  }

  lemma PruneKeepsStepStates(stage: Stage, state: Progress)
    ensures AnyStep(PruneStage(stage).steps, state) == AnyStep(stage.steps, state)
  {
    if AnyStep(stage.steps, state) {
      var i :| 0 <= i < |stage.steps| && stage.steps[i].state == state;
      assert PruneStage(stage).steps[i].state == state;
    }
  }

  lemma PruneKeepsStageStates(plan: Plan, state: Progress)
    ensures AnyStage(PruneIfTerminal(plan).stages, state) == AnyStage(plan.stages, state)
  {
    if AnyStage(plan.stages, state) {
      var i :| 0 <= i < |plan.stages| && plan.stages[i].state == state;
      assert PruneIfTerminal(plan).stages[i].state == state;
    }
  }

  lemma PruneUp(plan: Plan)
    requires FailureUp(plan)
    ensures FailureUp(PruneIfTerminal(plan))
  {
    forall g | 0 <= g < |plan.stages|
      ensures StageUp(PruneIfTerminal(plan).stages[g])
    {
      PruneStageUp(plan.stages[g]);
    }
    PruneKeepsStageStates(plan, Progress.Failed);
  }

  lemma WithStepUp(plan: Plan, g: nat, t: nat, step: Step)
    requires FailureUp(plan) && g < |plan.stages| && t < |plan.stages[g].steps|
    requires StepUp(step) && (step.state == Progress.Failed ==> plan.stages[g].steps[t].state == Progress.Failed)
    ensures FailureUp(WithStep(plan, g, t, step))
  {
    var stage := plan.stages[g];
    var steps := stage.steps[t := step];
    assert StageUp(stage);
    if AnyStep(steps, Progress.Failed) {
      var k :| 0 <= k < |steps| && steps[k].state == Progress.Failed;
      assert stage.steps[k].state == Progress.Failed;
      assert plan.stages[g].state == Progress.Failed;
    }
    var next := WithStep(plan, g, t, step);
    if AnyStage(next.stages, Progress.Failed) {
      var k :| 0 <= k < |next.stages| && next.stages[k].state == Progress.Failed;
      assert k != g ==> plan.stages[k].state == Progress.Failed;
    }
  }

  /** Succeeding one membership adds no failure to a step. */
  lemma SucceedMemberUp(step: Step, m: nat, member: Membership)
    requires StepUp(step) && m < |step.workItems| && member.state != MemberState.Failed
    ensures
      var items := step.workItems[m := member];
      var updated := step.(workItems := items, state := UpdatedStepState(items, step.state));
      StepUp(updated) && (updated.state == Progress.Failed ==> step.state == Progress.Failed)
  {
    SubstMemberKeeps(step.workItems, m, member, MemberState.Failed);
  }

  lemma TerminalReportUp(plan: Plan, id: string, terminal: MemberState, reason: string)
    requires FailureUp(plan) && IsTerminal(terminal)
    ensures FailureUp(TerminalReport(plan, id, terminal, reason).0)
  {
    if PlanHasMember(plan, id) {
      var g := StageWithMember(plan.stages, id);
      var t := StepWithMember(plan.stages[g].steps, id);
      var step := plan.stages[g].steps[t];
      var m := MemberAt(step.workItems, id);
      assert StageUp(plan.stages[g]);
      if terminal == MemberState.Failed {
        MarkFailedUp(plan, plan.stages[g].stageIndex, step.stepIndex, id, reason);
        PruneUp(MarkFailed(plan, plan.stages[g].stageIndex, step.stepIndex, id, reason));
      } else {
        var member := step.workItems[m].(state := terminal);
        var items := step.workItems[m := member];
        var updated := step.(workItems := items, state := UpdatedStepState(items, step.state));
        SucceedMemberUp(step, m, member);
        WithStepUp(plan, g, t, updated);
        PruneUp(WithStep(plan, g, t, updated));
      }
    }
  }

  lemma OutputReportUp(plan: Plan, id: string, json: string, sha256: string, aggregate: Step -> Option<Output>)
    requires FailureUp(plan)
    ensures
      var r := OutputReport(plan, id, json, sha256, aggregate);
      r.Recorded? ==> FailureUp(r.plan)
  {
    if PlanHasMember(plan, id) {
      var g := StageWithMember(plan.stages, id);
      var t := StepWithMember(plan.stages[g].steps, id);
      var step := plan.stages[g].steps[t];
      var m := MemberAt(step.workItems, id);
      assert StageUp(plan.stages[g]);
      var member := step.workItems[m].(state := MemberState.Completed, output := Output(json, sha256, |json|, false));
      var items := step.workItems[m := member];
      var updated := step.(workItems := items, state := UpdatedStepState(items, step.state));
      SucceedMemberUp(step, m, member);
      if !OutputsReady(items) {
        WithStepUp(plan, g, t, updated);
        PruneUp(WithStep(plan, g, t, updated));
      } else if aggregate(updated).Some? {
        var finished := updated.(output := aggregate(updated).value, state := Progress.Completed, workItems := PruneMembers(items));
        PruneKeepsMemberStates(items, MemberState.Failed);
        WithStepUp(plan, g, t, finished);
        PruneUp(WithStep(plan, g, t, finished));
      }
    }
  }

  lemma {:induction false} InsertKeepsFailures(items: seq<Membership>, m: Membership)
    requires m.state != MemberState.Failed
    ensures AnyMember(InsertSorted(items, m), MemberState.Failed) ==> AnyMember(items, MemberState.Failed)
  {
    var result := InsertSorted(items, m);
    if items != [] && items[0].index <= m.index {
      InsertKeepsFailures(items[1..], m);
      if AnyMember(result, MemberState.Failed) {
        var k :| 0 <= k < |result| && result[k].state == MemberState.Failed;
        if k == 0 {
          assert items[0].state == MemberState.Failed;
        } else {
          assert InsertSorted(items[1..], m)[k - 1] == result[k];
          assert AnyMember(items[1..], MemberState.Failed);
          var j :| 0 <= j < |items[1..]| && items[1..][j].state == MemberState.Failed;
          assert items[j + 1].state == MemberState.Failed;
        }
      }
    } else if AnyMember(result, MemberState.Failed) {
      var k :| 0 <= k < |result| && result[k].state == MemberState.Failed;
      assert k > 0 && items[k - 1] == result[k];
    }
  }

  lemma AddMembershipUp(plan: Plan, stageIndex: int, stepIndex: int, id: string, index: int)
    requires FailureUp(plan)
    ensures
      var r := AddMembership(plan, stageIndex, stepIndex, id, index);
      r.Some? ==> FailureUp(r.value)
  {
    var r := AddMembership(plan, stageIndex, stepIndex, id, index);
    if r.Some? {
      var g := StageAt(plan.stages, stageIndex);
      var t := StepAt(plan.stages[g].steps, stepIndex);
      var step := plan.stages[g].steps[t];
      assert StageUp(plan.stages[g]);
      InsertKeepsFailures(step.workItems, Membership(id, index, Queued, "", NO_OUTPUT));
      var steps := r.value.stages[g].steps;
      if AnyStep(steps, Progress.Failed) {
        var k :| 0 <= k < |steps| && steps[k].state == Progress.Failed;
        assert plan.stages[g].steps[k].state == Progress.Failed;
      }
      if AnyStage(r.value.stages, Progress.Failed) {
        var k :| 0 <= k < |r.value.stages| && r.value.stages[k].state == Progress.Failed;
        assert plan.stages[k].state == Progress.Failed;
      }
    }
  }

  lemma EmptyFanoutUp(plan: Plan, stageIndex: int, compiled: set<int>, empty: Output)
    requires FailureUp(plan)
    ensures FailureUp(EmptyFanout(plan, stageIndex, compiled, empty).0)
  {
    var g := StageAt(plan.stages, stageIndex);
    if g < |plan.stages| {
      var next := EmptyFanout(plan, stageIndex, compiled, empty).0;
      assert StageUp(plan.stages[g]);
      var steps := CompleteEmptySteps(plan.stages[g].steps, compiled, empty);
      if AnyStep(steps, Progress.Failed) {
        var k :| 0 <= k < |steps| && steps[k].state == Progress.Failed;
        assert plan.stages[g].steps[k].state == Progress.Failed;
      }
      if AnyStage(next.stages, Progress.Failed) {
        var k :| 0 <= k < |next.stages| && next.stages[k].state == Progress.Failed;
        assert k != g ==> plan.stages[k].state == Progress.Failed;
      }
    }
  }

  lemma MarkStageReadyUp(plan: Plan, stageIndex: int)
    requires FailureUp(plan)
    ensures FailureUp(MarkStageReady(plan, stageIndex))
  {
    var g := StageAt(plan.stages, stageIndex);
    if g < |plan.stages| {
      var next := MarkStageReady(plan, stageIndex);
      assert StageUp(plan.stages[g]);
      if AnyStage(next.stages, Progress.Failed) {
        var k :| 0 <= k < |next.stages| && next.stages[k].state == Progress.Failed;
        assert plan.stages[k].state == Progress.Failed;
      }
      var steps := next.stages[g].steps;
      if AnyStep(steps, Progress.Failed) {
        var k :| 0 <= k < |steps| && steps[k].state == Progress.Failed;
        assert plan.stages[g].steps[k].state == Progress.Failed;
      }
    }
  }

  /** The plan mutators, as one alphabet. */
  datatype Mutation =
    | Reports(id: string, terminal: MemberState, reason: string)
    | Outputs(id: string, json: string, sha256: string, aggregate: Step -> Option<Output>)
    | Adds(stageIndex: int, stepIndex: int, id: string, index: int)
    | Empties(stageIndex: int, compiled: set<int>, empty: Output)
    | Readies(stageIndex: int)
    | FailsActivation(stageIndex: int, reason: string)

  function Mutate(plan: Plan, m: Mutation): Plan {
    match m
    case Reports(id, terminal, reason) => if IsTerminal(terminal) then TerminalReport(plan, id, terminal, reason).0 else plan
    case Outputs(id, json, sha256, aggregate) =>
      var r := OutputReport(plan, id, json, sha256, aggregate);
      if r.Recorded? then r.plan else plan
    case Adds(g, t, id, index) =>
      var r := AddMembership(plan, g, t, id, index);
      if r.Some? then r.value else plan
    case Empties(g, compiled, empty) => EmptyFanout(plan, g, compiled, empty).0
    case Readies(g) => MarkStageReady(plan, g)
    case FailsActivation(g, reason) => FailActivation(plan, g, reason)
  }

  function MutateAll(plan: Plan, ms: seq<Mutation>): Plan
    decreases |ms|
  {
    if ms == [] then plan else MutateAll(Mutate(plan, ms[0]), ms[1..])
  }

  lemma MutateUp(plan: Plan, m: Mutation)
    requires FailureUp(plan)
    ensures FailureUp(Mutate(plan, m))
  {
    match m
    case Reports(id, terminal, reason) => if IsTerminal(terminal) { TerminalReportUp(plan, id, terminal, reason); }
    case Outputs(id, json, sha256, aggregate) => OutputReportUp(plan, id, json, sha256, aggregate);
    case Adds(g, t, id, index) => AddMembershipUp(plan, g, t, id, index);
    case Empties(g, compiled, empty) => EmptyFanoutUp(plan, g, compiled, empty);
    case Readies(g) => MarkStageReadyUp(plan, g);
    case FailsActivation(g, reason) =>
      MarkFailedUp(plan, g, -1, "", reason);
      PruneUp(MarkFailed(plan, g, -1, "", reason));
  }

  /** Whatever sequence of mutators is applied, failure stays propagated upward. */
  lemma {:induction false} MutationsKeepFailureUp(plan: Plan, ms: seq<Mutation>)
    requires FailureUp(plan)
    ensures FailureUp(MutateAll(plan, ms))
    decreases |ms|
  {
    if ms != [] {
      MutateUp(plan, ms[0]);
      MutationsKeepFailureUp(Mutate(plan, ms[0]), ms[1..]);
    }
  }

  // ---------------------------------------------------------------------------------------
  // A report gives exactly the derived states

  predicate IsEarliest(plan: Plan, g: nat)
    requires g < |plan.stages|
  {
    forall k :: 0 <= k < |plan.stages| ==> plan.stages[g].stageIndex <= plan.stages[k].stageIndex
  }

  lemma EarliestByIndexes(plan: Plan, next: Plan, g: nat)
    requires g < |plan.stages| == |next.stages|
    requires forall k :: 0 <= k < |plan.stages| ==> next.stages[k].stageIndex == plan.stages[k].stageIndex
    ensures IsEarliest(next, g) == IsEarliest(plan, g)
  {
    if IsEarliest(next, g) {
      forall k | 0 <= k < |plan.stages|
        ensures plan.stages[g].stageIndex <= plan.stages[k].stageIndex
      {
        assert next.stages[g].stageIndex <= next.stages[k].stageIndex;
      }
    }
  }

  predicate StageDerived(stage: Stage, facts: set<int>, isEarliest: bool) {
    && (forall t :: 0 <= t < |stage.steps| ==>
          stage.steps[t].state == DerivedStepState(stage.steps[t].workItems, stage.steps[t].stepIndex in facts))
    && stage.state == DerivedStageState(stage.steps, isEarliest)
  }

  /** Every state of the plan is the one a rebuild derives; `facts` are the steps with a recorded
      output. */
  predicate Derived(plan: Plan, facts: set<int>) {
    && (forall g :: 0 <= g < |plan.stages| ==> StageDerived(plan.stages[g], facts, IsEarliest(plan, g)))
    && plan.state == DerivedWorkflowState(plan.stages)
  }

  lemma PruneKeepsStepState(step: Step, hasFact: bool)
    ensures DerivedStepState(PruneStep(step).workItems, hasFact) == DerivedStepState(step.workItems, hasFact)
  {
    PruneKeepsMemberStates(step.workItems, MemberState.Failed);
    PruneKeepsMemberStates(step.workItems, MemberState.Running);
    PruneKeepsMemberStates(step.workItems, Queued);
    PruneKeepsMemberStates(step.workItems, MemberState.Completed);
    PruneKeepsMemberStates(step.workItems, MemberState.Skipped);
    SucceededByState(step.workItems);
    SucceededByState(PruneMembers(step.workItems));
    var items, pruned := step.workItems, PruneMembers(step.workItems);
    assert forall i :: 0 <= i < |items| ==> Succeeded(pruned[i]) == Succeeded(items[i]);
  }

  lemma SucceededByState(items: seq<Membership>)
    ensures AnySucceeded(items) == (AnyMember(items, MemberState.Completed) || AnyMember(items, MemberState.Skipped))
  {
    if AnySucceeded(items) {
      var i :| 0 <= i < |items| && Succeeded(items[i]);
    }
    if AnyMember(items, MemberState.Completed) {
      var i :| 0 <= i < |items| && items[i].state == MemberState.Completed;
      assert Succeeded(items[i]);
    }
    if AnyMember(items, MemberState.Skipped) {
      var i :| 0 <= i < |items| && items[i].state == MemberState.Skipped;
      assert Succeeded(items[i]);
    }
  }

  lemma StageStateBySteps(steps: seq<Step>, steps': seq<Step>, isEarliest: bool)
    requires |steps| == |steps'| && forall i :: 0 <= i < |steps| ==> steps[i].state == steps'[i].state
    ensures DerivedStageState(steps, isEarliest) == DerivedStageState(steps', isEarliest)
  {
    AnyStepByState(steps, steps', Progress.Failed);
    AnyStepByState(steps, steps', Progress.Completed);
    AnyStepByState(steps, steps', Active);
    AnyStepByState(steps, steps', Ready);
  }

  lemma AnyStepByState(steps: seq<Step>, steps': seq<Step>, state: Progress)
    requires |steps| == |steps'| && forall i :: 0 <= i < |steps| ==> steps[i].state == steps'[i].state
    ensures AnyStep(steps, state) == AnyStep(steps', state)
  {
    if AnyStep(steps, state) {
      var i :| 0 <= i < |steps| && steps[i].state == state;
      assert steps'[i].state == state;
    }
    if AnyStep(steps', state) {
      var i :| 0 <= i < |steps'| && steps'[i].state == state;
      assert steps[i].state == state;
    }
  }

  lemma PruneKeepsDerived(plan: Plan, facts: set<int>)
    requires Derived(plan, facts)
    ensures Derived(PruneIfTerminal(plan), facts)
  {
    if plan.state != WorkflowState.Running {
      var next := PruneIfTerminal(plan);
      assert AllStages(plan.stages, Progress.Completed) == AllStages(next.stages, Progress.Completed) by {
        assert forall g :: 0 <= g < |plan.stages| ==> next.stages[g].state == plan.stages[g].state;
      }
      PruneKeepsStageStates(plan, Progress.Failed);
      forall g | 0 <= g < |plan.stages|
        ensures StageDerived(next.stages[g], facts, IsEarliest(next, g))
      {
        var stage, stage' := plan.stages[g], next.stages[g];
        EarliestByIndexes(plan, next, g);
        forall t | 0 <= t < |stage.steps|
          ensures stage'.steps[t].state == DerivedStepState(stage'.steps[t].workItems, stage'.steps[t].stepIndex in facts)
        {
          PruneKeepsStepState(stage.steps[t], stage.steps[t].stepIndex in facts);
        }
        StageStateBySteps(stage.steps, stage'.steps, IsEarliest(plan, g));
      }
    }
  }

  /** In a running derived plan nothing has failed. */
  lemma RunningHasNoFailure(plan: Plan, facts: set<int>, g: nat, t: nat)
    requires Derived(plan, facts) && plan.state == WorkflowState.Running
    requires g < |plan.stages| && t < |plan.stages[g].steps|
    ensures plan.stages[g].state != Progress.Failed
    ensures !AnyStep(plan.stages[g].steps, Progress.Failed)
    ensures !AnyMember(plan.stages[g].steps[t].workItems, MemberState.Failed)
  {
    assert StageDerived(plan.stages[g], facts, IsEarliest(plan, g));
    assert plan.stages[g].steps != [];
  }

  predicate AddsOnly(facts: set<int>, facts': set<int>, x: int) {
    facts <= facts' && forall y :: y in facts' ==> y in facts || y == x
  }

  /** Facts about other steps do not touch a stage. */
  lemma OtherStageDerived(stage: Stage, facts: set<int>, facts': set<int>, isEarliest: bool, changed: int)
    requires StageDerived(stage, facts, isEarliest)
    requires AddsOnly(facts, facts', changed)
    requires forall u :: 0 <= u < |stage.steps| ==> stage.steps[u].stepIndex != changed
    ensures StageDerived(stage, facts', isEarliest)
  {
    forall u | 0 <= u < |stage.steps|
      ensures stage.steps[u].stepIndex in facts <==> stage.steps[u].stepIndex in facts'
    {
    }
  }

  /** A begun step makes its stage active or completed, both by update and by derivation. */
  lemma BegunStageState(steps: seq<Step>, t: nat, current: Progress, isEarliest: bool)
    requires t < |steps| && (steps[t].state == Active || steps[t].state == Progress.Completed)
    requires !AnyStep(steps, Progress.Failed) && current != Progress.Failed
    ensures UpdatedStageState(steps, current) == DerivedStageState(steps, isEarliest)
    ensures UpdatedStageState(steps, current) != Progress.Failed
  {
  }

  lemma OwnStageDerived(stage: Stage, facts: set<int>, facts': set<int>, isEarliest: bool, t: nat, step: Step)
    requires StageDerived(stage, facts, isEarliest) && t < |stage.steps|
    requires stage.state != Progress.Failed && !AnyStep(stage.steps, Progress.Failed)
    requires step.state == DerivedStepState(step.workItems, step.stepIndex in facts')
    requires step.state == Active || step.state == Progress.Completed
    requires AddsOnly(facts, facts', step.stepIndex)
    requires forall u :: 0 <= u < |stage.steps| && u != t ==> stage.steps[u].stepIndex != step.stepIndex
    ensures
      var steps := stage.steps[t := step];
      var stage' := stage.(steps := steps, state := UpdatedStageState(steps, stage.state));
      StageDerived(stage', facts', isEarliest) && stage'.state != Progress.Failed
  {
    var steps := stage.steps[t := step];
    assert !AnyStep(steps, Progress.Failed) by {
      SubstStepKeeps(stage.steps, t, step, Progress.Failed);
    }
    BegunStageState(steps, t, stage.state, isEarliest);
    forall u | 0 <= u < |steps|
      ensures steps[u].state == DerivedStepState(steps[u].workItems, steps[u].stepIndex in facts')
    {
      if u != t {
        assert steps[u].stepIndex in facts <==> steps[u].stepIndex in facts';
      }
    }
  }

  lemma SubstStepKeeps(steps: seq<Step>, t: nat, step: Step, state: Progress)
    requires t < |steps| && step.state != state
    ensures AnyStep(steps[t := step], state) ==> AnyStep(steps, state)
  {
    var steps' := steps[t := step];
    if AnyStep(steps', state) {
      var k :| 0 <= k < |steps'| && steps'[k].state == state;
      assert steps[k].state == state;
    }
  }

  lemma SubstMemberKeeps(items: seq<Membership>, m: nat, member: Membership, state: MemberState)
    requires m < |items| && member.state != state
    ensures AnyMember(items[m := member], state) ==> AnyMember(items, state)
  {
    var items' := items[m := member];
    if AnyMember(items', state) {
      var k :| 0 <= k < |items'| && items'[k].state == state;
      assert items[k].state == state;
    }
  }

  lemma SubstStageKeeps(stages: seq<Stage>, g: nat, stage: Stage, state: Progress)
    requires g < |stages| && stage.state != state
    ensures AnyStage(stages[g := stage], state) ==> AnyStage(stages, state)
  {
    var stages' := stages[g := stage];
    if AnyStage(stages', state) {
      var k :| 0 <= k < |stages'| && stages'[k].state == state;
      assert stages[k].state == state;
    }
  }

  /** Replacing a step by one whose state is derived and has begun keeps the plan derived. */
  lemma WithStepDerived(plan: Plan, facts: set<int>, facts': set<int>, g: nat, t: nat, step: Step)
    requires Derived(plan, facts) && plan.state == WorkflowState.Running
    requires g < |plan.stages| && t < |plan.stages[g].steps|
    requires step.stepIndex == plan.stages[g].steps[t].stepIndex
    requires step.state == DerivedStepState(step.workItems, step.stepIndex in facts')
    requires step.state == Active || step.state == Progress.Completed
    requires AddsOnly(facts, facts', step.stepIndex)
    requires OnlyStepWithIndex(plan, g, t)
    ensures Derived(WithStep(plan, g, t, step), facts')
  {
    var next := WithStep(plan, g, t, step);
    RunningHasNoFailure(plan, facts, g, t);
    forall k | 0 <= k < |next.stages|
      ensures StageDerived(next.stages[k], facts', IsEarliest(next, k))
    {
      EarliestByIndexes(plan, next, k);
      assert StageDerived(plan.stages[k], facts, IsEarliest(plan, k));
      if k == g {
        OwnStageDerived(plan.stages[k], facts, facts', IsEarliest(plan, k), t, step);
      } else {
        OtherStageDerived(plan.stages[k], facts, facts', IsEarliest(plan, k), step.stepIndex);
      }
    }
  }

  /** No other step of the plan has this step's index. */
  predicate OnlyStepWithIndex(plan: Plan, g: nat, t: nat)
    requires g < |plan.stages| && t < |plan.stages[g].steps|
  {
    forall k, u :: 0 <= k < |plan.stages| && 0 <= u < |plan.stages[k].steps| && !(k == g && u == t) ==>
      plan.stages[k].steps[u].stepIndex != plan.stages[g].steps[t].stepIndex
  }

  predicate UniqueStepIndexes(plan: Plan) {
    forall g, t :: 0 <= g < |plan.stages| && 0 <= t < |plan.stages[g].steps| ==> OnlyStepWithIndex(plan, g, t)
  }

  /** A step with a newly succeeded membership is active or completed after the update, and that is what
      it derives to exactly when it has no fact or everything on it has succeeded. */
  lemma SucceededStepDerived(step: Step, m: nat, member: Membership, hasFact: bool)
    requires m < |step.workItems| && Succeeded(member) && !AnyMember(step.workItems, MemberState.Failed)
    ensures
      var items := step.workItems[m := member];
      var state := UpdatedStepState(items, step.state);
      && (state == DerivedStepState(items, hasFact) <==> !hasFact || AllSucceeded(items))
      && (state == Active || state == Progress.Completed)
  {
    var items := step.workItems[m := member];
    assert Succeeded(items[m]);
    SubstMemberKeeps(step.workItems, m, member, MemberState.Failed);
  }

  /** Failing the named step of a derived stage leaves the stage derived. */
  lemma FailedStageDerived(stage: Stage, facts: set<int>, isEarliest: bool, t: nat, m: nat, reason: string)
    requires StageDerived(stage, facts, isEarliest) && UniqueSteps(stage) && NonNegativeSteps(stage)
    requires t < |stage.steps| && m < |stage.steps[t].workItems| && stage.steps[t].workItems[m].id != ""
    ensures
      var stage' := FailStage(stage, stage.steps[t].stepIndex, stage.steps[t].workItems[m].id, reason);
      StageDerived(stage', facts, isEarliest)
  {
    var step, id := stage.steps[t], stage.steps[t].workItems[m].id;
    assert StepAt(stage.steps, step.stepIndex) == t;
    var step' := FailStep(step, id, reason);
    assert step'.workItems[m].state == MemberState.Failed;
    assert DerivedStepState(step'.workItems, step'.stepIndex in facts) == Progress.Failed;
    var steps' := stage.steps[t := step'];
    assert steps'[t].state == Progress.Failed;
    assert DerivedStageState(steps', isEarliest) == Progress.Failed;
  }

  /** Failing the found membership fails exactly its step, stage and workflow. */
  lemma FailedReportDerived(plan: Plan, facts: set<int>, g: nat, t: nat, m: nat, reason: string)
    requires WellFormed(plan) && Derived(plan, facts)
    requires g < |plan.stages| && t < |plan.stages[g].steps| && m < |plan.stages[g].steps[t].workItems|
    ensures
      var step := plan.stages[g].steps[t];
      Derived(MarkFailed(plan, plan.stages[g].stageIndex, step.stepIndex, step.workItems[m].id, reason), facts)
  {
    var stage, step := plan.stages[g], plan.stages[g].steps[t];
    assert StageAt(plan.stages, stage.stageIndex) == g;
    assert UniqueMembers(step);
    var next := MarkFailed(plan, stage.stageIndex, step.stepIndex, step.workItems[m].id, reason);
    assert next.stages[g].state == Progress.Failed;
    assert AnyStage(next.stages, Progress.Failed);
    forall k | 0 <= k < |next.stages|
      ensures StageDerived(next.stages[k], facts, IsEarliest(next, k))
    {
      EarliestByIndexes(plan, next, k);
      assert StageDerived(plan.stages[k], facts, IsEarliest(plan, k));
      if k == g {
        FailedStageDerived(stage, facts, IsEarliest(plan, g), t, m, ReasonOrDefault(reason));
      }
    }
  }

  /** The step of the item has no output fact, or all its other memberships have succeeded. */
  predicate ReportAgrees(plan: Plan, facts: set<int>, id: string)
    requires PlanHasMember(plan, id)
  {
    var g := StageWithMember(plan.stages, id);
    var step := plan.stages[g].steps[StepWithMember(plan.stages[g].steps, id)];
    var m := MemberAt(step.workItems, id);
    step.stepIndex !in facts || forall i :: 0 <= i < |step.workItems| && i != m ==> Succeeded(step.workItems[i])
  }

  lemma OthersAndOne(items: seq<Membership>, m: nat, member: Membership)
    requires m < |items| && Succeeded(member)
    ensures AllSucceeded(items[m := member]) <==> forall i :: 0 <= i < |items| && i != m ==> Succeeded(items[i])
  {
    var items' := items[m := member];
    if AllSucceeded(items') {
      forall i | 0 <= i < |items| && i != m
        ensures Succeeded(items[i])
      {
        assert Succeeded(items'[i]);
      }
    }
  }

  /** A pruned plan in derived state was in derived state at every step. */
  lemma DerivedBeforePruning(plan: Plan, facts: set<int>, g: nat, t: nat)
    requires Derived(PruneIfTerminal(plan), facts) && g < |plan.stages| && t < |plan.stages[g].steps|
    ensures
      var step := plan.stages[g].steps[t];
      step.state == DerivedStepState(step.workItems, step.stepIndex in facts)
  {
    var next := PruneIfTerminal(plan);
    assert StageDerived(next.stages[g], facts, IsEarliest(next, g));
    assert next.stages[g].steps[t].state == plan.stages[g].steps[t].state;
    PruneKeepsStepState(plan.stages[g].steps[t], plan.stages[g].steps[t].stepIndex in facts);
  }

  /** Writing back a step with a newly succeeded membership. */
  lemma SucceededPlanDerived(plan: Plan, facts: set<int>, g: nat, t: nat, m: nat, member: Membership)
    requires Derived(plan, facts) && plan.state == WorkflowState.Running && UniqueStepIndexes(plan)
    requires g < |plan.stages| && t < |plan.stages[g].steps| && m < |plan.stages[g].steps[t].workItems| && Succeeded(member)
    ensures
      var step := plan.stages[g].steps[t];
      var items := step.workItems[m := member];
      var updated := step.(workItems := items, state := UpdatedStepState(items, step.state));
      Derived(PruneIfTerminal(WithStep(plan, g, t, updated)), facts) == (step.stepIndex !in facts || AllSucceeded(items))
  {
    var step := plan.stages[g].steps[t];
    var items := step.workItems[m := member];
    var updated := step.(workItems := items, state := UpdatedStepState(items, step.state));
    RunningHasNoFailure(plan, facts, g, t);
    SucceededStepDerived(step, m, member, step.stepIndex in facts);
    if step.stepIndex !in facts || AllSucceeded(items) {
      WithStepDerived(plan, facts, facts, g, t, updated);
      PruneKeepsDerived(WithStep(plan, g, t, updated), facts);
    } else if Derived(PruneIfTerminal(WithStep(plan, g, t, updated)), facts) {
      DerivedBeforePruning(WithStep(plan, g, t, updated), facts, g, t);
    }
  }

  /** For a running plan in derived state, a completed, skipped or failed report gives a plan that is
      again in derived state, so that the incremental update and the rebuild agree, unless it leaves a
      step that has its output with a membership that has not succeeded. */
  lemma TerminalReportRefinesRebuild(plan: Plan, facts: set<int>, id: string, terminal: MemberState, reason: string)
    requires WellFormed(plan) && UniqueStepIndexes(plan)
    requires Derived(plan, facts) && plan.state == WorkflowState.Running
    requires IsTerminal(terminal)
    ensures Derived(TerminalReport(plan, id, terminal, reason).0, facts) <==>
            (TerminalReport(plan, id, terminal, reason).1 && terminal != MemberState.Failed ==> ReportAgrees(plan, facts, id))
  {
    if TerminalReport(plan, id, terminal, reason).1 {
      var g := StageWithMember(plan.stages, id);
      var t := StepWithMember(plan.stages[g].steps, id);
      var step := plan.stages[g].steps[t];
      var m := MemberAt(step.workItems, id);
      if terminal == MemberState.Failed {
        RunningHasNoFailure(plan, facts, g, t);
        FailedReportDerived(plan, facts, g, t, m, reason);
        PruneKeepsDerived(MarkFailed(plan, plan.stages[g].stageIndex, step.stepIndex, id, reason), facts);
      } else {
        OthersAndOne(step.workItems, m, step.workItems[m].(state := terminal));
        SucceededPlanDerived(plan, facts, g, t, m, step.workItems[m].(state := terminal));
      }
    }
  }

  /** The same for a completed item's output, where a step whose output becomes known joins the
      facts. */
  lemma OutputReportRefinesRebuild(plan: Plan, facts: set<int>, id: string, json: string, sha256: string, aggregate: Step -> Option<Output>)
    requires WellFormed(plan) && UniqueStepIndexes(plan)
    requires Derived(plan, facts) && plan.state == WorkflowState.Running
    ensures
      var r := OutputReport(plan, id, json, sha256, aggregate);
      r.Recorded? ==>
        PlanHasMember(plan, id)
        && (Derived(r.plan, facts + if r.step.Some? then {r.step.value.stepIndex} else {}) <==> ReportAgrees(plan, facts, id))
  {
    if OutputReport(plan, id, json, sha256, aggregate).Recorded? {
      var g := StageWithMember(plan.stages, id);
      var t := StepWithMember(plan.stages[g].steps, id);
      var step := plan.stages[g].steps[t];
      var m := MemberAt(step.workItems, id);
      var member := step.workItems[m].(state := MemberState.Completed, output := Output(json, sha256, |json|, false));
      OthersAndOne(step.workItems, m, member);
      RecordedPlan(plan, id, json, sha256, aggregate);
      if OutputsReady(step.workItems[m := member]) {
        FinishedPlanDerived(plan, facts, g, t, m, member, aggregate);
      } else {
        SucceededPlanDerived(plan, facts, g, t, m, member);
        assert facts + {} == facts;
      }
    }
  }

  /** The plan a recorded output gives, and the index of the step it finishes. */
  lemma RecordedPlan(plan: Plan, id: string, json: string, sha256: string, aggregate: Step -> Option<Output>)
    requires OutputReport(plan, id, json, sha256, aggregate).Recorded?
    ensures
      var r := OutputReport(plan, id, json, sha256, aggregate);
      var g := StageWithMember(plan.stages, id);
      var t := StepWithMember(plan.stages[g].steps, id);
      var step := plan.stages[g].steps[t];
      var m := MemberAt(step.workItems, id);
      var items := step.workItems[m := step.workItems[m].(state := MemberState.Completed, output := Output(json, sha256, |json|, false))];
      var updated := step.(workItems := items, state := UpdatedStepState(items, step.state));
      && r.step.Some? == OutputsReady(items) && (r.step.Some? ==> r.step.value.stepIndex == step.stepIndex && aggregate(updated).Some?)
      && r.plan == PruneIfTerminal(WithStep(plan, g, t,
           if OutputsReady(items) && aggregate(updated).Some?
           then updated.(output := aggregate(updated).value, state := Progress.Completed, workItems := PruneMembers(items))
           else updated))
  {
  }

  /** Writing back a step whose last output has come in. */
  lemma FinishedPlanDerived(plan: Plan, facts: set<int>, g: nat, t: nat, m: nat, member: Membership, aggregate: Step -> Option<Output>)
    requires Derived(plan, facts) && plan.state == WorkflowState.Running && UniqueStepIndexes(plan)
    requires g < |plan.stages| && t < |plan.stages[g].steps| && m < |plan.stages[g].steps[t].workItems|
    requires OutputsReady(plan.stages[g].steps[t].workItems[m := member])
    ensures
      var step := plan.stages[g].steps[t];
      var items := step.workItems[m := member];
      var updated := step.(workItems := items, state := UpdatedStepState(items, step.state));
      AllSucceeded(items) && (aggregate(updated).Some? ==>
        Derived(PruneIfTerminal(WithStep(plan, g, t, updated.(output := aggregate(updated).value, state := Progress.Completed, workItems := PruneMembers(items)))),
                facts + {step.stepIndex}))
  {
    var step := plan.stages[g].steps[t];
    var items := step.workItems[m := member];
    var updated := step.(workItems := items, state := UpdatedStepState(items, step.state));
    RunningHasNoFailure(plan, facts, g, t);
    assert Succeeded(items[m]);
    SubstMemberKeeps(step.workItems, m, member, MemberState.Failed);
    if aggregate(updated).Some? {
      var finished := updated.(output := aggregate(updated).value, state := Progress.Completed, workItems := PruneMembers(items));
      PruneKeepsMemberStates(items, MemberState.Failed);
      assert DerivedStepState(finished.workItems, true) == Progress.Completed;
      WithStepDerived(plan, facts, facts + {step.stepIndex}, g, t, finished);
      PruneKeepsDerived(WithStep(plan, g, t, finished), facts + {step.stepIndex});
    }
  }

  // ---------------------------------------------------------------------------------------
  // A repeated report changes nothing

  /** Same shape: the same stages, steps and membership ids in the same places. */
  predicate SameItems(items: seq<Membership>, items': seq<Membership>) {
    |items| == |items'| && forall i :: 0 <= i < |items| ==> items[i].id == items'[i].id
  }

  predicate SameSteps(steps: seq<Step>, steps': seq<Step>) {
    |steps| == |steps'| && forall t :: 0 <= t < |steps| ==> SameItems(steps[t].workItems, steps'[t].workItems)
  }

  predicate SameShape(plan: Plan, next: Plan) {
    |plan.stages| == |next.stages| && forall g :: 0 <= g < |plan.stages| ==> SameSteps(plan.stages[g].steps, next.stages[g].steps)
  }

  lemma SameShapeSamePlace(plan: Plan, next: Plan, id: string)
    requires SameShape(plan, next) && PlanHasMember(plan, id)
    ensures PlanHasMember(next, id)
    ensures
      var g := StageWithMember(plan.stages, id);
      var t := StepWithMember(plan.stages[g].steps, id);
      && StageWithMember(next.stages, id) == g
      && StepWithMember(next.stages[g].steps, id) == t
      && MemberAt(next.stages[g].steps[t].workItems, id) == MemberAt(plan.stages[g].steps[t].workItems, id)
  {
    forall g | 0 <= g < |plan.stages|
      ensures StepWithMember(plan.stages[g].steps, id) == StepWithMember(next.stages[g].steps, id)
    {
      SameStepsSamePlace(plan.stages[g].steps, next.stages[g].steps, id);
    }
    var g := StageWithMember(plan.stages, id);
    assert StageHasMember(next.stages[g], id);
    var t := StepWithMember(plan.stages[g].steps, id);
    SameItemsSamePlace(plan.stages[g].steps[t].workItems, next.stages[g].steps[t].workItems, id);
  }

  lemma SameItemsSamePlace(items: seq<Membership>, items': seq<Membership>, id: string)
    requires SameItems(items, items')
    ensures MemberAt(items, id) == MemberAt(items', id)
  {
  }

  lemma SameStepsSamePlace(steps: seq<Step>, steps': seq<Step>, id: string)
    requires SameSteps(steps, steps')
    ensures StepWithMember(steps, id) == StepWithMember(steps', id)
  {
    forall t | 0 <= t < |steps|
      ensures HasMember(steps[t].workItems, id) == HasMember(steps'[t].workItems, id)
    {
      SameItemsSamePlace(steps[t].workItems, steps'[t].workItems, id);
    }
  }

  lemma PruneKeepsShape(plan: Plan)
    ensures SameShape(plan, PruneIfTerminal(plan))
  {
  }

  lemma MarkFailedKeepsShape(plan: Plan, stageIndex: int, stepIndex: int, id: string, reason: string)
    ensures SameShape(plan, MarkFailed(plan, stageIndex, stepIndex, id, reason))
  {
  }

  lemma ShapeTransitive(a: Plan, b: Plan, c: Plan)
    requires SameShape(a, b) && SameShape(b, c)
    ensures SameShape(a, c)
  {
    forall g | 0 <= g < |a.stages|
      ensures SameSteps(a.stages[g].steps, c.stages[g].steps)
    {
      assert SameSteps(a.stages[g].steps, b.stages[g].steps) && SameSteps(b.stages[g].steps, c.stages[g].steps);
      forall t | 0 <= t < |a.stages[g].steps|
        ensures SameItems(a.stages[g].steps[t].workItems, c.stages[g].steps[t].workItems)
      {
        assert SameItems(a.stages[g].steps[t].workItems, b.stages[g].steps[t].workItems);
        assert SameItems(b.stages[g].steps[t].workItems, c.stages[g].steps[t].workItems);
      }
    }
  }

  lemma ReportKeepsShape(plan: Plan, id: string, terminal: MemberState, reason: string)
    requires IsTerminal(terminal)
    ensures SameShape(plan, TerminalReport(plan, id, terminal, reason).0)
  {
    if TerminalReport(plan, id, terminal, reason).1 {
      var g := StageWithMember(plan.stages, id);
      var t := StepWithMember(plan.stages[g].steps, id);
      var step := plan.stages[g].steps[t];
      if terminal == MemberState.Failed {
        MarkFailedKeepsShape(plan, plan.stages[g].stageIndex, step.stepIndex, id, reason);
        PrunedKeepsShape(plan, MarkFailed(plan, plan.stages[g].stageIndex, step.stepIndex, id, reason));
      } else {
        var m := MemberAt(step.workItems, id);
        var items := step.workItems[m := step.workItems[m].(state := terminal)];
        var updated := step.(workItems := items, state := UpdatedStepState(items, step.state));
        WithStepKeepsShape(plan, g, t, updated);
        PrunedKeepsShape(plan, WithStep(plan, g, t, updated));
      }
    }
  }

  lemma WithStepKeepsShape(plan: Plan, g: nat, t: nat, step: Step)
    requires g < |plan.stages| && t < |plan.stages[g].steps| && SameItems(plan.stages[g].steps[t].workItems, step.workItems)
    ensures SameShape(plan, WithStep(plan, g, t, step))
  {
  }

  lemma PrunedKeepsShape(plan: Plan, middle: Plan)
    requires SameShape(plan, middle)
    ensures SameShape(plan, PruneIfTerminal(middle))
  {
    PruneKeepsShape(middle);
    ShapeTransitive(plan, middle, PruneIfTerminal(middle));
  }

  /** Where a changing report leaves its membership. */
  lemma ReportSetsState(plan: Plan, id: string, terminal: MemberState, reason: string)
    requires WellFormed(plan) && IsTerminal(terminal) && TerminalReport(plan, id, terminal, reason).1
    ensures PlanHasMember(plan, id) && SameShape(plan, TerminalReport(plan, id, terminal, reason).0)
    ensures
      var next := TerminalReport(plan, id, terminal, reason).0;
      var g := StageWithMember(plan.stages, id);
      var t := StepWithMember(plan.stages[g].steps, id);
      next.stages[g].steps[t].workItems[MemberAt(plan.stages[g].steps[t].workItems, id)].state == terminal
  {
    ReportKeepsShape(plan, id, terminal, reason);
    var g := StageWithMember(plan.stages, id);
    var t := StepWithMember(plan.stages[g].steps, id);
    var step := plan.stages[g].steps[t];
    var m := MemberAt(step.workItems, id);
    if terminal == MemberState.Failed {
      assert StageAt(plan.stages, plan.stages[g].stageIndex) == g;
      assert StepAt(plan.stages[g].steps, step.stepIndex) == t by { assert UniqueSteps(plan.stages[g]); }
      FailureSetsState(plan, g, t, m, reason);
      PruneKeepsState(MarkFailed(plan, plan.stages[g].stageIndex, step.stepIndex, id, reason), g, t, m);
    } else {
      var items := step.workItems[m := step.workItems[m].(state := terminal)];
      PruneKeepsState(WithStep(plan, g, t, step.(workItems := items, state := UpdatedStepState(items, step.state))), g, t, m);
    }
  }

  lemma PruneKeepsState(plan: Plan, g: nat, t: nat, m: nat)
    requires g < |plan.stages| && t < |plan.stages[g].steps| && m < |plan.stages[g].steps[t].workItems|
    ensures
      var next := PruneIfTerminal(plan);
      && SameShape(plan, next) && next.stages[g].steps[t].workItems[m].state == plan.stages[g].steps[t].workItems[m].state
  {
    PruneKeepsShape(plan);
  }

  lemma FailureSetsState(plan: Plan, g: nat, t: nat, m: nat, reason: string)
    requires WellFormed(plan) && g < |plan.stages| && t < |plan.stages[g].steps| && m < |plan.stages[g].steps[t].workItems|
    requires StageAt(plan.stages, plan.stages[g].stageIndex) == g && StepAt(plan.stages[g].steps, plan.stages[g].steps[t].stepIndex) == t
    requires MemberAt(plan.stages[g].steps[t].workItems, plan.stages[g].steps[t].workItems[m].id) == m
    ensures
      var step := plan.stages[g].steps[t];
      var next := MarkFailed(plan, plan.stages[g].stageIndex, step.stepIndex, step.workItems[m].id, reason);
      && SameShape(plan, next) && next.stages[g].steps[t].workItems[m].state == MemberState.Failed
  {
    var step := plan.stages[g].steps[t];
    MarkFailedKeepsShape(plan, plan.stages[g].stageIndex, step.stepIndex, step.workItems[m].id, reason);
    assert NonNegativeSteps(plan.stages[g]) && UniqueMembers(step);
  }

  /** Reporting the same outcome again changes nothing and says so. */
  lemma RepeatedReportChangesNothing(plan: Plan, id: string, terminal: MemberState, reason: string, again: string)
    requires WellFormed(plan) && IsTerminal(terminal)
    ensures
      var next := TerminalReport(plan, id, terminal, reason).0;
      TerminalReport(next, id, terminal, again) == (next, false)
  {
    if TerminalReport(plan, id, terminal, reason).1 {
      ReportSetsState(plan, id, terminal, reason);
      SameShapeSamePlace(plan, TerminalReport(plan, id, terminal, reason).0, id);
    }
  }
}

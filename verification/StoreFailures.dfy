/** What a failure leaves in the store: the reason everybody sees from then on, the failed membership,
    and the step outputs without their texts. */
module StoreFailures {
  import opened Wrappers
  import opened PlanModel
  import opened PlanLaws
  import opened PlanEffects
  import opened DependencyStore
  import opened StoreLaws
  import opened StoreView
  import opened StoreEffects
  import opened StepFacts
  import RebuiltPlan
  import Strings

  // ---------------------------------------------------------------------------------------
  // Outputs

  /** Both plans have the same steps, and the second one their outputs without texts. */
  predicate OutputsCut(plan: Plan, next: Plan) {
    && |next.stages| == |plan.stages|
    && (forall k :: 0 <= k < |plan.stages| ==> |next.stages[k].steps| == |plan.stages[k].steps|)
    && (forall k, u :: 0 <= k < |plan.stages| && 0 <= u < |plan.stages[k].steps| ==>
          && next.stages[k].steps[u].stepIndex == plan.stages[k].steps[u].stepIndex
          && Cut(plan.stages[k].steps[u].output, next.stages[k].steps[u].output, WorkflowState.Failed))
  }

  lemma FailureCuts(plan: Plan, stageIndex: int, stepIndex: int, id: string, reason: string)
    ensures OutputsCut(plan, PruneIfTerminal(MarkFailed(plan, stageIndex, stepIndex, id, reason)))
  {
    var failed := MarkFailed(plan, stageIndex, stepIndex, id, reason);
    MarkKeepsOutputs(plan, stageIndex, stepIndex, id, reason);
    PruneCuts(failed);
  }

  predicate SameOutputs(plan: Plan, next: Plan) {
    && |next.stages| == |plan.stages|
    && (forall k :: 0 <= k < |plan.stages| ==> SameStepOutputs(plan.stages[k].steps, next.stages[k].steps))
  }

  predicate SameStepOutputs(steps: seq<Step>, next: seq<Step>) {
    && |next| == |steps|
    && (forall u :: 0 <= u < |steps| ==> next[u].stepIndex == steps[u].stepIndex && next[u].output == steps[u].output)
  }

  lemma MarkKeepsOutputs(plan: Plan, stageIndex: int, stepIndex: int, id: string, reason: string)
    ensures SameOutputs(plan, MarkFailed(plan, stageIndex, stepIndex, id, reason))
  {
    var g := StageAt(plan.stages, stageIndex);
    if g < |plan.stages| {
      FailKeepsOutputs(plan.stages[g], stepIndex, id, ReasonOrDefault(reason));
    }
  }

  lemma FailKeepsOutputs(stage: Stage, stepIndex: int, id: string, reason: string)
    ensures SameStepOutputs(stage.steps, FailStage(stage, stepIndex, id, reason).steps)
  {
  }

  lemma PruneCuts(plan: Plan)
    requires plan.state == WorkflowState.Failed
    ensures OutputsCut(plan, PruneIfTerminal(plan))
  {
  }

  predicate Rewrites(step: Step, index: int) {
    step.stepIndex == index && step.output.pruned && step.output.sha256 != ""
  }

  lemma {:induction false} StepFactsExact(steps: seq<Step>, index: int)
    ensures index in PrunedFactsOfSteps(steps) <==> exists u :: 0 <= u < |steps| && Rewrites(steps[u], index)
    ensures index in PrunedFactsOfSteps(steps) ==>
              exists u :: 0 <= u < |steps| && Rewrites(steps[u], index) && PrunedFactsOfSteps(steps)[index] == steps[u].output
  {
    if steps != [] {
      var last := |steps| - 1;
      StepFactsExact(steps[..last], index);
      assert Rewrites(steps[last], index) ==> PrunedFactsOfSteps(steps)[index] == steps[last].output;
      assert forall u :: 0 <= u < last ==> steps[..last][u] == steps[u];
    }
  }

  predicate RewritesAt(stages: seq<Stage>, k: int, u: int, index: int) {
    0 <= k < |stages| && 0 <= u < |stages[k].steps| && Rewrites(stages[k].steps[u], index)
  }

  lemma {:induction false} FactsRewritten(stages: seq<Stage>, index: int) returns (k: int, u: int)
    requires index in PrunedFacts(stages)
    ensures RewritesAt(stages, k, u, index) && PrunedFacts(stages)[index] == stages[k].steps[u].output
  {
    var last := |stages| - 1;
    StepFactsExact(stages[last].steps, index);
    if index in PrunedFactsOfSteps(stages[last].steps) {
      k := last;
      u :| 0 <= u < |stages[k].steps| && Rewrites(stages[k].steps[u], index) && PrunedFactsOfSteps(stages[k].steps)[index] == stages[k].steps[u].output;
    } else {
      k, u := FactsRewritten(stages[..last], index);
    }
  }

  lemma {:induction false} RewrittenFacts(stages: seq<Stage>, index: int, k: int, u: int)
    requires RewritesAt(stages, k, u, index)
    ensures index in PrunedFacts(stages)
  {
    var last := |stages| - 1;
    if k == last {
      StepFactsExact(stages[last].steps, index);
    } else {
      RewrittenFacts(stages[..last], index, k, u);
    }
  }

  /** The step of the rebuilt plan at this place has the output recorded for its index. */
  lemma OutputAt(s: Store, k: nat, u: nat)
    requires s.saved.None? && k < |Rebuild(s).stages| && u < |Rebuild(s).stages[k].steps|
    ensures
      var step := Rebuild(s).stages[k].steps[u];
      step.output == if step.stepIndex in s.facts then s.facts[step.stepIndex] else Output("", "", 0, false)
  {
    var r := StageStepAt(s, StageIndexes(s.steps)[k], u);
  }

  /** The outputs recorded for steps lose their texts and nothing else, and no output comes or goes. */
  predicate FactsCut(s: Store, facts: map<int, Output>) {
    && facts.Keys == s.facts.Keys
    && (forall k :: k in s.facts ==> facts[k] == s.facts[k] || Cut(s.facts[k], facts[k], WorkflowState.Failed))
    && (forall r :: r in s.steps && r.stepIndex in s.facts && s.facts[r.stepIndex].sha256 != "" ==>
          Cut(s.facts[r.stepIndex], facts[r.stepIndex], WorkflowState.Failed))
  }

  lemma RewriteOf(s: Store, plan: Plan, index: int)
    requires s.saved.None? && OutputsCut(Rebuild(s), plan) && index in PrunedFacts(plan.stages)
    ensures index in s.facts && Cut(s.facts[index], PrunedFacts(plan.stages)[index], WorkflowState.Failed)
  {
    var k, u := FactsRewritten(plan.stages, index);
    OutputAt(s, k, u);
    assert Cut(Rebuild(s).stages[k].steps[u].output, plan.stages[k].steps[u].output, WorkflowState.Failed);
  }

  lemma RewriteOfStep(s: Store, plan: Plan, r: StepRecord)
    requires s.saved.None? && OutputsCut(Rebuild(s), plan) && r in s.steps && r.stepIndex in s.facts && s.facts[r.stepIndex].sha256 != ""
    ensures r.stepIndex in PrunedFacts(plan.stages) || Cut(s.facts[r.stepIndex], s.facts[r.stepIndex], WorkflowState.Failed)
  {
    if s.facts[r.stepIndex].json != "" {
      assert StageKnown(s, r.stageIndex);
      StageFound(s, r.stageIndex);
      var g := StageAt(Rebuild(s).stages, r.stageIndex);
      var t := RecordAt(s, r);
      assert Cut(Rebuild(s).stages[g].steps[t].output, plan.stages[g].steps[t].output, WorkflowState.Failed);
      RewrittenFacts(plan.stages, r.stepIndex, g, t);
    }
  }

  lemma UpsertCuts(s: Store, plan: Plan)
    requires s.saved.None? && OutputsCut(Rebuild(s), plan) && plan.state == WorkflowState.Failed
    ensures FactsCut(s, UpsertPruned(s, plan).facts)
  {
    var facts := UpsertPruned(s, plan).facts;
    forall k | k in facts
      ensures k in s.facts && (facts[k] == s.facts[k] || Cut(s.facts[k], facts[k], WorkflowState.Failed))
    {
      if k in PrunedFacts(plan.stages) {
        RewriteOf(s, plan, k);
      }
    }
    assert facts.Keys == s.facts.Keys;
    forall r | r in s.steps && r.stepIndex in s.facts && s.facts[r.stepIndex].sha256 != ""
      ensures Cut(s.facts[r.stepIndex], facts[r.stepIndex], WorkflowState.Failed)
    {
      RewriteOfStep(s, plan, r);
      if r.stepIndex in PrunedFacts(plan.stages) {
        RewriteOf(s, plan, r.stepIndex);
      }
    }
  }

  // ---------------------------------------------------------------------------------------
  // What everybody sees

  /** The run has failed for this reason; nothing else in the store changed but the texts of outputs. */
  ghost predicate FailedFor(s: Store, s': Store, reason: string) {
    && s'.saved.Some? && s' == s.(facts := s'.facts, saved := s'.saved) && FactsCut(s, s'.facts)
    && Rebuild(s').state == WorkflowState.Failed && Blames("", reason, Rebuild(s').failureReason)
    && Rebuild(s').failureReason == SavedReason(s')
  }

  lemma FailureStored(s: Store, stageIndex: int, stepIndex: int, id: string, reason: string)
    requires Healthy(s) && s.steps != []
    ensures
      var plan := PruneIfTerminal(MarkFailed(Rebuild(s), stageIndex, stepIndex, id, reason));
      FailedFor(s, Save(UpsertPruned(s, plan), plan), reason)
  {
    var plan := PruneIfTerminal(MarkFailed(Rebuild(s), stageIndex, stepIndex, id, reason));
    NoReasonYet(s);
    FailureCuts(Rebuild(s), stageIndex, stepIndex, id, reason);
    UpsertCuts(s, plan);
    SeenAfter(s, UpsertPruned(s, plan).facts, plan, reason);
  }

  lemma NoReasonYet(s: Store)
    requires Healthy(s) && s.steps != []
    ensures Rebuild(s).failureReason == ""
  {
    RebuiltPlan.PlanShown(s);
  }

  lemma SeenAfter(s: Store, facts: map<int, Output>, plan: Plan, reason: string)
    requires FactsCut(s, facts) && plan.state == WorkflowState.Failed && Blames("", reason, plan.failureReason)
    ensures FailedFor(s, s.(facts := facts, saved := Some(plan)), reason)
  {
    var s' := s.(facts := facts, saved := Some(plan));
    NotBlank(reason);
    RebuiltFailedIff(s');
    RebuiltReason(s');
  }

  lemma NotBlank(reason: string)
    ensures !Strings.IsBlank(reason) ==> reason != ""
  {
  }

  /** A failed activation is seen as the failure of the run, with its reason. */
  lemma ActivationFailureSeen(s: Store, stageIndex: int, reason: string)
    requires Healthy(s) && s.steps != []
    ensures FailedFor(s, FailStageActivation(s, stageIndex, reason), reason)
  {
    FailureStored(s, stageIndex, -1, "", reason);
  }

  /** The failure is shown at the item itself. */
  predicate ItemFailedFor(s: Store, m: MemberRecord, hasFact: bool, reason: string) {
    var x := RebuiltMembership(s, m, hasFact);
    x.id == m.id && x.index == m.index && x.state == MemberState.Failed && Blames("", reason, x.failureReason)
  }

  /** A failure report, for instance of a refused output, of a recorded item whose step has no output
      fails the run and shows its reason at the run and at the item. */
  lemma FailureSeen(s: Store, r: StepRecord, m: MemberRecord, reason: string)
    requires Healthy(s) && DistinctStepRecords(s) && UniqueIds(s) && r in s.steps && m in s.members && Matches(m, r)
    requires r.stepIndex !in s.facts && r.stepIndex >= 0 && m.id != ""
    ensures FailedFor(s, RecordTerminal(s, m.id, MemberState.Failed, reason), reason)
    ensures m.id in s.terminal ==> ItemFailedFor(RecordTerminal(s, m.id, MemberState.Failed, reason), m, false, reason)
  {
    var s' := RecordTerminal(s, m.id, MemberState.Failed, reason);
    var g, t := Placed(s, r, m);
    ReportFails(s, r, m, reason, g, t);
    FailureStored(s, r.stageIndex, r.stepIndex, m.id, reason);
    if m.id in s.terminal {
      SavedItem(s, r, m, reason, g, t);
      NoRecordedFailure(s, r, m);
      ItemSeen(s', m, reason);
    }
  }

  lemma ReportFails(s: Store, r: StepRecord, m: MemberRecord, reason: string, g: nat, t: nat)
    requires Healthy(s) && r in s.steps && m in s.members && Matches(m, r) && r.stepIndex !in s.facts
    requires PlanHasMember(Rebuild(s), m.id) && g == StageWithMember(Rebuild(s).stages, m.id) && t == StepWithMember(Rebuild(s).stages[g].steps, m.id)
    requires Rebuild(s).stages[g].steps[t] == RebuiltStep(s, r) && Rebuild(s).stages[g].stageIndex == r.stageIndex
    ensures RecordTerminal(s, m.id, MemberState.Failed, reason) == Save(UpsertPruned(s, Failure(s, r, m, reason)), Failure(s, r, m, reason))
    ensures RecordTerminal(s, m.id, MemberState.Failed, reason).saved == Some(Failure(s, r, m, reason))
  {
    LastOutputNotIgnored(s, r, m);
  }

  lemma ItemSeen(s: Store, m: MemberRecord, reason: string)
    requires m.id in s.terminal && !s.terminal[m.id].failed && s.saved.Some?
    requires
      var x := FindMember(s.saved.value.stages, m.id);
      x.Some? && x.value.state == MemberState.Failed && Blames("", reason, x.value.failureReason)
    ensures ItemFailedFor(s, m, false, reason)
  {
  }

  function Failure(s: Store, r: StepRecord, m: MemberRecord, reason: string): Plan {
    PruneIfTerminal(MarkFailed(Rebuild(s), r.stageIndex, r.stepIndex, m.id, reason))
  }

  lemma SavedItem(s: Store, r: StepRecord, m: MemberRecord, reason: string, g: nat, t: nat)
    requires Healthy(s) && DistinctStepRecords(s) && UniqueIds(s) && r in s.steps && m in s.members && Matches(m, r)
    requires r.stepIndex >= 0 && m.id != ""
    requires PlanHasMember(Rebuild(s), m.id) && g == StageWithMember(Rebuild(s).stages, m.id) && t == StepWithMember(Rebuild(s).stages[g].steps, m.id)
    requires Rebuild(s).stages[g].steps[t] == RebuiltStep(s, r) && Rebuild(s).stages[g].stageIndex == r.stageIndex
    requires HasMember(RebuiltMembers(s, r), m.id)
    ensures
      var x := FindMember(Failure(s, r, m, reason).stages, m.id);
      x.Some? && x.value.state == MemberState.Failed && Blames("", reason, x.value.failureReason)
  {
    var plan, next := Rebuild(s), Failure(s, r, m, reason);
    var i := MemberAt(RebuiltMembers(s, r), m.id);
    FirstStage(s, g);
    FirstStep(s, g, t);
    MarkFailedKeepsShape(plan, r.stageIndex, r.stepIndex, m.id, reason);
    PrunedKeepsShape(plan, MarkFailed(plan, r.stageIndex, r.stepIndex, m.id, reason));
    SameShapeSamePlace(plan, next, m.id);
    MarkFailedEffect(plan, r.stageIndex, r.stepIndex, m.id, reason, g, t, i);
    PruneEffect(MarkFailed(plan, r.stageIndex, r.stepIndex, m.id, reason), g, t, i);
    var k := RebuiltPlan.ShownIsRecorded(s, r, i);
    NoRecordedFailure(s, r, k);
  }

  lemma FirstStage(s: Store, g: nat)
    requires g < |Rebuild(s).stages|
    ensures StageAt(Rebuild(s).stages, Rebuild(s).stages[g].stageIndex) == g
  {
    var k := StageAt(Rebuild(s).stages, Rebuild(s).stages[g].stageIndex);
    if k != g {
      IndexesDiffer(s.steps, k, g);
      assert false;
    }
  }

  lemma FirstStep(s: Store, g: nat, t: nat)
    requires DistinctStepRecords(s) && g < |Rebuild(s).stages| && t < |Rebuild(s).stages[g].steps|
    ensures StepAt(Rebuild(s).stages[g].steps, Rebuild(s).stages[g].steps[t].stepIndex) == t
  {
    var steps := Rebuild(s).stages[g].steps;
    var u := StepAt(steps, steps[t].stepIndex);
    if u != t {
      StepIndexesDiffer(s, s.steps, StageIndexes(s.steps)[g], u, t);
      assert false;
    }
  }
}

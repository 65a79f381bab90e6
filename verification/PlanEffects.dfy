/** What the mutators of a plan change and what they leave, place by place. */
module PlanEffects {
  import opened PlanModel
  import Strings

  /** There is a membership at this place. */
  predicate Place(plan: Plan, k: nat, u: nat, i: nat) {
    k < |plan.stages| && u < |plan.stages[k].steps| && i < |plan.stages[k].steps[u].workItems|
  }

  /** An output once the plan is in this state: as it was while running, and else without its text. */
  predicate Cut(before: Output, after: Output, state: WorkflowState) {
    if state == WorkflowState.Running || before.json == "" then after == before
    else after == Output("", before.sha256, |before.json|, true)
  }

  predicate SameNames(plan: Plan, next: Plan, k: nat, u: nat, i: nat)
    requires Place(plan, k, u, i) && Place(next, k, u, i)
  {
    var (a, b) := (plan.stages[k], next.stages[k]);
    && next.runId == plan.runId && next.workflowId == plan.workflowId
    && b.stageIndex == a.stageIndex && b.parallelWith == a.parallelWith
    && b.steps[u].stageIndex == a.steps[u].stageIndex && b.steps[u].stepIndex == a.steps[u].stepIndex && b.steps[u].stepId == a.steps[u].stepId
    && b.steps[u].workItems[i].id == a.steps[u].workItems[i].id && b.steps[u].workItems[i].index == a.steps[u].workItems[i].index
  }

  // ---------------------------------------------------------------------------------------
  // Pruning

  lemma PruneEffect(plan: Plan, k: nat, u: nat, i: nat)
    requires Place(plan, k, u, i)
    ensures Place(PruneIfTerminal(plan), k, u, i)
    ensures
      var next := PruneIfTerminal(plan);
      var (a, b) := (plan.stages[k], next.stages[k]);
      && SameNames(plan, next, k, u, i) && next.state == plan.state && next.failureReason == plan.failureReason
      && b.state == a.state && b.failureReason == a.failureReason
      && b.steps[u].state == a.steps[u].state && b.steps[u].failureReason == a.steps[u].failureReason
      && Cut(a.steps[u].output, b.steps[u].output, next.state)
      && b.steps[u].workItems[i].state == a.steps[u].workItems[i].state
      && b.steps[u].workItems[i].failureReason == a.steps[u].workItems[i].failureReason
      && Cut(a.steps[u].workItems[i].output, b.steps[u].workItems[i].output, next.state)
  {
  }

  // ---------------------------------------------------------------------------------------
  // A report of success

  lemma WithStepEffect(plan: Plan, g: nat, t: nat, step: Step, k: nat, u: nat, i: nat)
    requires Place(plan, k, u, i) && g < |plan.stages| && t < |plan.stages[g].steps|
    requires |step.workItems| == |plan.stages[g].steps[t].workItems|
    ensures Place(WithStep(plan, g, t, step), k, u, i)
    ensures
      var next := WithStep(plan, g, t, step);
      && next.runId == plan.runId && next.workflowId == plan.workflowId && next.failureReason == plan.failureReason
      && next.stages[k] == (if k == g then plan.stages[k].(state := next.stages[k].state, steps := plan.stages[k].steps[t := step]) else plan.stages[k])
  {
  }

  /** The place of a report: the first membership with this id. */
  predicate IsAt(plan: Plan, id: string, k: nat, u: nat, i: nat) {
    && PlanHasMember(plan, id) && k == StageWithMember(plan.stages, id)
    && u == StepWithMember(plan.stages[k].steps, id) && i == MemberAt(plan.stages[k].steps[u].workItems, id)
  }

  /** A report of success that changes something sets the state of its own membership; every other
      membership, step and stage keeps its state and its reason, and so do the reasons above it. */
  lemma SuccessEffect(plan: Plan, id: string, terminal: MemberState, reason: string, k: nat, u: nat, i: nat)
    requires (terminal == MemberState.Completed || terminal == MemberState.Skipped) && TerminalReport(plan, id, terminal, reason).1
    requires Place(plan, k, u, i)
    ensures Place(TerminalReport(plan, id, terminal, reason).0, k, u, i)
    ensures
      var next := TerminalReport(plan, id, terminal, reason).0;
      var (a, b) := (plan.stages[k], next.stages[k]);
      && SameNames(plan, next, k, u, i) && next.failureReason == plan.failureReason
      && b.failureReason == a.failureReason && b.steps[u].failureReason == a.steps[u].failureReason
      && (k != StageWithMember(plan.stages, id) ==> b.state == a.state)
      && (k != StageWithMember(plan.stages, id) || u != StepWithMember(a.steps, id) ==> b.steps[u].state == a.steps[u].state)
      && b.steps[u].workItems[i].state == (if IsAt(plan, id, k, u, i) then terminal else a.steps[u].workItems[i].state)
      && b.steps[u].workItems[i].failureReason == a.steps[u].workItems[i].failureReason
      && Cut(a.steps[u].output, b.steps[u].output, next.state)
      && Cut(a.steps[u].workItems[i].output, b.steps[u].workItems[i].output, next.state)
  {
    var g := StageWithMember(plan.stages, id);
    var t := StepWithMember(plan.stages[g].steps, id);
    var step := plan.stages[g].steps[t];
    var m := MemberAt(step.workItems, id);
    var items := step.workItems[m := step.workItems[m].(state := terminal)];
    var step' := step.(workItems := items, state := UpdatedStepState(items, step.state));
    WithStepEffect(plan, g, t, step', k, u, i);
    PruneEffect(WithStep(plan, g, t, step'), k, u, i);
  }

  // ---------------------------------------------------------------------------------------
  // Failures

  /** The reason a failure leaves: the first one given stays, and a blank one has a default. */
  predicate Blames(before: string, given: string, after: string) {
    if before != "" then after == before
    else after == if Strings.IsBlank(given) then "dependency workflow failed" else given
  }

  lemma FailStageEffect(a: Stage, stepIndex: int, id: string, given: string, u: nat, i: nat)
    requires u < |a.steps| && i < |a.steps[u].workItems|
    ensures
      var b := FailStage(a, stepIndex, id, ReasonOrDefault(given));
      u < |b.steps| && |b.steps[u].workItems| == |a.steps[u].workItems| && StageFailed(a, b, stepIndex, id, given, u, i)
  {
  }

  /** A stage and the same stage failed, at one place: the named step and membership are failed if there
      is such a step, and else all steps and all unfinished memberships. */
  predicate StageFailed(a: Stage, b: Stage, stepIndex: int, id: string, given: string, u: nat, i: nat)
    requires u < |a.steps| && u < |b.steps| && i < |a.steps[u].workItems| && i < |b.steps[u].workItems|
  {
    var t := StepAt(a.steps, stepIndex);
    var whole := stepIndex < 0 || t == |a.steps|;
    var (x, y) := (a.steps[u].workItems[i], b.steps[u].workItems[i]);
    && b.stageIndex == a.stageIndex && b.parallelWith == a.parallelWith
    && b.state == Progress.Failed && Blames(a.failureReason, given, b.failureReason)
    && (!whole && u != t ==> b.steps[u] == a.steps[u])
    && (whole || u == t ==> StepFailed(a.steps[u], b.steps[u], given))
    && (whole || u == t ==>
          if (if whole || id == "" then !Succeeded(x) else x.id == id) then
            y == x.(state := MemberState.Failed, failureReason := y.failureReason) && Blames(x.failureReason, given, y.failureReason)
          else y == x)
  }

  predicate StepFailed(a: Step, b: Step, given: string) {
    && b.state == Progress.Failed && Blames(a.failureReason, given, b.failureReason) && b.output == a.output
    && b.stageIndex == a.stageIndex && b.stepIndex == a.stepIndex && b.stepId == a.stepId
  }

  lemma MarkFailedEffect(plan: Plan, stageIndex: int, stepIndex: int, id: string, reason: string, k: nat, u: nat, i: nat)
    requires Place(plan, k, u, i)
    ensures Place(MarkFailed(plan, stageIndex, stepIndex, id, reason), k, u, i)
    ensures
      var next := MarkFailed(plan, stageIndex, stepIndex, id, reason);
      && SameNames(plan, next, k, u, i) && next.state == WorkflowState.Failed && Blames(plan.failureReason, reason, next.failureReason)
      && (k != StageAt(plan.stages, stageIndex) ==> next.stages[k] == plan.stages[k])
      && (k == StageAt(plan.stages, stageIndex) ==> StageFailed(plan.stages[k], next.stages[k], stepIndex, id, reason, u, i))
  {
    FailStageEffect(plan.stages[k], stepIndex, id, reason, u, i);
  }

  /** A failure report that changes something fails its own membership, step, stage and plan with the
      given reason where there was none, and leaves every other state and reason. */
  lemma FailureEffect(plan: Plan, id: string, reason: string, k: nat, u: nat, i: nat)
    requires WellFormed(plan) && TerminalReport(plan, id, MemberState.Failed, reason).1 && Place(plan, k, u, i)
    ensures Place(TerminalReport(plan, id, MemberState.Failed, reason).0, k, u, i)
    ensures
      var next := TerminalReport(plan, id, MemberState.Failed, reason).0;
      var (a, b) := (plan.stages[k], next.stages[k]);
      var (g, t) := (StageWithMember(plan.stages, id), StepWithMember(a.steps, id));
      && SameNames(plan, next, k, u, i) && next.state == WorkflowState.Failed && Blames(plan.failureReason, reason, next.failureReason)
      && (k == g ==> b.state == Progress.Failed && Blames(a.failureReason, reason, b.failureReason))
      && (k != g ==> b.state == a.state && b.failureReason == a.failureReason)
      && (k == g && u == t ==> b.steps[u].state == Progress.Failed && Blames(a.steps[u].failureReason, reason, b.steps[u].failureReason))
      && (k != g || u != t ==> b.steps[u].state == a.steps[u].state && b.steps[u].failureReason == a.steps[u].failureReason)
      && FailedItem(a.steps[u].workItems[i], b.steps[u].workItems[i], IsAt(plan, id, k, u, i), reason)
      && Cut(a.steps[u].output, b.steps[u].output, next.state)
  {
    var g := StageWithMember(plan.stages, id);
    var t := StepWithMember(plan.stages[g].steps, id);
    var step := plan.stages[g].steps[t];
    var m := MemberAt(step.workItems, id);
    assert UniqueSteps(plan.stages[g]) && NonNegativeSteps(plan.stages[g]) && UniqueMembers(step);
    assert StageAt(plan.stages, plan.stages[g].stageIndex) == g;
    assert StepAt(plan.stages[g].steps, step.stepIndex) == t;
    var failed := MarkFailed(plan, plan.stages[g].stageIndex, step.stepIndex, id, reason);
    assert step.workItems[m].id == id;
    MarkFailedEffect(plan, plan.stages[g].stageIndex, step.stepIndex, id, reason, k, u, i);
    PruneEffect(failed, k, u, i);
  }

  /** A membership after a failure, which is its own or that of another one. */
  predicate FailedItem(x: Membership, y: Membership, own: bool, reason: string) {
    && y.state == (if own then MemberState.Failed else x.state)
    && (if own then Blames(x.failureReason, reason, y.failureReason) else y.failureReason == x.failureReason)
    && Cut(x.output, y.output, WorkflowState.Failed)
  }

  /** A failed activation fails the plan, its stage, all steps of it and all their unfinished
      memberships, and leaves the other stages. */
  lemma ActivationFailureEffect(plan: Plan, stageIndex: int, reason: string, k: nat, u: nat, i: nat)
    requires Place(plan, k, u, i)
    ensures Place(FailActivation(plan, stageIndex, reason), k, u, i)
    ensures
      var next := FailActivation(plan, stageIndex, reason);
      var (a, b) := (plan.stages[k], next.stages[k]);
      var own := k == StageAt(plan.stages, stageIndex);
      && SameNames(plan, next, k, u, i) && next.state == WorkflowState.Failed && Blames(plan.failureReason, reason, next.failureReason)
      && (own ==> b.state == Progress.Failed && Blames(a.failureReason, reason, b.failureReason))
      && (own ==> b.steps[u].state == Progress.Failed && Blames(a.steps[u].failureReason, reason, b.steps[u].failureReason))
      && (!own ==> b.state == a.state && b.failureReason == a.failureReason)
      && (!own ==> b.steps[u].state == a.steps[u].state && b.steps[u].failureReason == a.steps[u].failureReason)
      && FailedItem(a.steps[u].workItems[i], b.steps[u].workItems[i], own && !Succeeded(a.steps[u].workItems[i]), reason)
      && Cut(a.steps[u].output, b.steps[u].output, next.state)
  {
    MarkFailedEffect(plan, stageIndex, -1, "", reason, k, u, i);
    PruneEffect(MarkFailed(plan, stageIndex, -1, "", reason), k, u, i);
  }

  // ---------------------------------------------------------------------------------------
  // New memberships

  predicate ByIndex(items: seq<Membership>) {
    forall i, j :: 0 <= i < j < |items| ==> items[i].index < items[j].index
  }

  lemma {:induction false} InsertAdds(items: seq<Membership>, x: Membership)
    ensures multiset(InsertSorted(items, x)) == multiset(items) + multiset{x}
  {
    if items != [] && items[0].index <= x.index {
      InsertAdds(items[1..], x);
      assert items == [items[0]] + items[1..];
    }
  }

  lemma {:induction false} InsertAbove(items: seq<Membership>, x: Membership, low: int)
    requires x.index > low && (forall i :: 0 <= i < |items| ==> items[i].index > low)
    ensures forall j :: 0 <= j < |InsertSorted(items, x)| ==> InsertSorted(items, x)[j].index > low
  {
    if items != [] && items[0].index <= x.index {
      InsertAbove(items[1..], x, low);
    }
  }

  lemma {:induction false} InsertInOrder(items: seq<Membership>, x: Membership)
    requires ByIndex(items) && (forall i :: 0 <= i < |items| ==> items[i].index != x.index)
    ensures ByIndex(InsertSorted(items, x))
  {
    if items != [] && items[0].index <= x.index {
      InsertInOrder(items[1..], x);
      InsertAbove(items[1..], x, items[0].index);
    }
  }

  /** A membership is accepted exactly when its step is known and has neither its id nor its index; it
      is then queued without an output, in its place by index, and nothing else changes. */
  lemma MembershipExact(plan: Plan, g: nat, t: nat, id: string, index: int)
    requires g < |plan.stages| && StageAt(plan.stages, plan.stages[g].stageIndex) == g
    requires t < |plan.stages[g].steps| && StepAt(plan.stages[g].steps, plan.stages[g].steps[t].stepIndex) == t
    requires ByIndex(plan.stages[g].steps[t].workItems)
    ensures
      var (stage, step) := (plan.stages[g], plan.stages[g].steps[t]);
      var r := AddMembership(plan, stage.stageIndex, step.stepIndex, id, index);
      && (r.None? <==> exists i :: 0 <= i < |step.workItems| && (step.workItems[i].id == id || step.workItems[i].index == index))
      && (r.Some? ==>
            && |r.value.stages| == |plan.stages| && |r.value.stages[g].steps| == |stage.steps|
            && var items := r.value.stages[g].steps[t].workItems;
               && ByIndex(items)
               && multiset(items) == multiset(step.workItems) + multiset{Membership(id, index, Queued, "", Output("", "", 0, false))}
               && r.value == plan.(stages := plan.stages[g := stage.(steps := stage.steps[t := step.(workItems := items)])]))
  {
    var step := plan.stages[g].steps[t];
    if AddMembership(plan, plan.stages[g].stageIndex, step.stepIndex, id, index).Some? {
      InsertAdds(step.workItems, Membership(id, index, Queued, "", NO_OUTPUT));
      InsertInOrder(step.workItems, Membership(id, index, Queued, "", NO_OUTPUT));
    }
  }
}

/** The dependency plan as the controller holds it while handling a report: an object whose fields
    are changed in place, scanned by loops over flags and counters. Every method is tied to the
    function of `PlanModel` that says what it does to the whole plan. */
module PlanObject {
  import opened Wrappers
  import opened PlanModel

  // ---------------------------------------------------------------------------------------
  // State scans

  method UpdateStepState(items: seq<Membership>, current: Progress) returns (r: Progress)
    ensures r == UpdatedStepState(items, current)
  {
    var completed, hasTerminal := 0, false;
    for i := 0 to |items|
      invariant !AnyMember(items[..i], MemberState.Failed)
      invariant 0 <= completed <= i
      invariant completed == i <==> AllSucceeded(items[..i])
      invariant hasTerminal <==> AnySucceeded(items[..i])
    {
      assert items[..i + 1] == items[..i] + [items[i]];
      if items[i].state == MemberState.Failed {
        assert AnyMember(items, MemberState.Failed);
        return Progress.Failed;
      }
      if Succeeded(items[i]) {
        assert Succeeded(items[..i + 1][i]);
        completed, hasTerminal := completed + 1, true;
      }
    }
    assert items[..|items|] == items;
    r := if |items| == completed then Progress.Completed else if hasTerminal then Active else current;
  }

  method DeriveStepState(items: seq<Membership>, hasFact: bool) returns (r: Progress)
    ensures r == DerivedStepState(items, hasFact)
  {
    var hasQueued, hasRunning, hasCompleted, allSuccess := false, false, false, items != [];
    for i := 0 to |items|
      invariant !AnyMember(items[..i], MemberState.Failed)
      invariant hasQueued <==> AnyMember(items[..i], Queued)
      invariant hasRunning <==> AnyMember(items[..i], MemberState.Running)
      invariant hasCompleted <==> AnySucceeded(items[..i])
      invariant allSuccess <==> items != [] && AllSucceeded(items[..i])
    {
      assert items[..i + 1] == items[..i] + [items[i]];
      match items[i].state {
        case Failed =>
          assert AnyMember(items, MemberState.Failed);
          return Progress.Failed;
        case Running =>
          assert items[..i + 1][i].state == MemberState.Running;
          hasRunning, allSuccess := true, false;
        case Queued =>
          assert items[..i + 1][i].state == Queued;
          hasQueued, allSuccess := true, false;
        case Completed =>
          assert Succeeded(items[..i + 1][i]);
          hasCompleted := true;
        case Skipped =>
          assert Succeeded(items[..i + 1][i]);
          hasCompleted := true;
      }
    }
    assert items[..|items|] == items;
    r := if hasFact || allSuccess then Progress.Completed
         else if hasRunning || hasCompleted then Active
         else if hasQueued then Ready
         else Blocked;
  }

  method UpdateStageState(steps: seq<Step>, current: Progress) returns (r: Progress)
    ensures r == UpdatedStageState(steps, current)
  {
    var allCompleted := true;
    for i := 0 to |steps|
      invariant forall k :: 0 <= k < i ==> steps[k].state != Progress.Failed
      invariant allCompleted <==> forall k :: 0 <= k < i ==> steps[k].state == Progress.Completed
    {
      if steps[i].state == Progress.Failed {
        assert AnyStep(steps, Progress.Failed);
        return Progress.Failed;
      }
      allCompleted := allCompleted && steps[i].state == Progress.Completed;
    }
    assert !AnyStep(steps, Progress.Failed);
    if allCompleted {
      return Progress.Completed;
    }
    if current == Progress.Failed {
      return current;
    }
    for i := 0 to |steps|
      invariant forall k :: 0 <= k < i ==> steps[k].state != Active && steps[k].state != Progress.Completed
    {
      if steps[i].state == Active || steps[i].state == Progress.Completed {
        assert AnyStep(steps, steps[i].state);
        return Active;
      }
    }
    r := current;
  }

  method DeriveStageState(steps: seq<Step>, isEarliest: bool) returns (r: Progress)
    ensures r == DerivedStageState(steps, isEarliest)
  {
    if steps == [] {
      return if isEarliest then Ready else Blocked;
    }
    var allCompleted, hasReady, hasBegun := true, false, false;
    for i := 0 to |steps|
      invariant forall k :: 0 <= k < i ==> steps[k].state != Progress.Failed
      invariant allCompleted <==> forall k :: 0 <= k < i ==> steps[k].state == Progress.Completed
      invariant hasReady <==> exists k :: 0 <= k < i && steps[k].state == Ready
      invariant hasBegun <==> exists k :: 0 <= k < i && (steps[k].state == Active || steps[k].state == Progress.Completed)
    {
      match steps[i].state {
        case Failed =>
          assert AnyStep(steps, Progress.Failed);
          return Progress.Failed;
        case Completed => hasBegun := true;
        case Active => allCompleted, hasBegun := false, true;
        case Ready => allCompleted, hasReady := false, true;
        case Blocked => allCompleted := false;
      }
    }
    assert !AnyStep(steps, Progress.Failed);
    assert hasReady <==> AnyStep(steps, Ready);
    assert hasBegun <==> AnyStep(steps, Active) || AnyStep(steps, Progress.Completed);
    r := if allCompleted then Progress.Completed
         else if hasBegun then Active
         else if hasReady || isEarliest then Ready
         else Blocked;
  }

  method DeriveWorkflowState(stages: seq<Stage>) returns (r: WorkflowState)
    ensures r == DerivedWorkflowState(stages)
  {
    var allCompleted := stages != [];
    for i := 0 to |stages|
      invariant forall k :: 0 <= k < i ==> stages[k].state != Progress.Failed
      invariant allCompleted <==> stages != [] && forall k :: 0 <= k < i ==> stages[k].state == Progress.Completed
    {
      if stages[i].state == Progress.Failed {
        assert AnyStage(stages, Progress.Failed);
        return WorkflowState.Failed;
      }
      allCompleted := allCompleted && stages[i].state == Progress.Completed;
    }
    assert !AnyStage(stages, Progress.Failed);
    r := if allCompleted then WorkflowState.Completed else WorkflowState.Running;
  }

  // ---------------------------------------------------------------------------------------
  // Searches

  method FindStage(stages: seq<Stage>, stageIndex: int) returns (g: nat)
    ensures g == StageAt(stages, stageIndex)
  {
    g := 0;
    while g < |stages| && stages[g].stageIndex != stageIndex
      invariant g <= |stages|
      invariant forall k :: 0 <= k < g ==> stages[k].stageIndex != stageIndex
    {
      g := g + 1;
    }
  }

  method FindStep(steps: seq<Step>, stepIndex: int) returns (t: nat)
    ensures t == StepAt(steps, stepIndex)
  {
    t := 0;
    while t < |steps| && steps[t].stepIndex != stepIndex
      invariant t <= |steps|
      invariant forall k :: 0 <= k < t ==> steps[k].stepIndex != stepIndex
    {
      t := t + 1;
    }
  }

  method FindMember(items: seq<Membership>, id: string) returns (m: nat)
    ensures m == MemberAt(items, id)
  {
    m := 0;
    while m < |items| && items[m].id != id
      invariant m <= |items|
      invariant forall k :: 0 <= k < m ==> items[k].id != id
    {
      m := m + 1;
    }
  }

  /** The first place of a work item, in the order of the three nested loops. */
  method FindWorkItem(stages: seq<Stage>, id: string) returns (found: bool, g: nat, t: nat, m: nat)
    ensures found <==> StageWithMember(stages, id) < |stages|
    ensures found ==> g == StageWithMember(stages, id) && t == StepWithMember(stages[g].steps, id)
                      && m == MemberAt(stages[g].steps[t].workItems, id)
  {
    for i := 0 to |stages|
      invariant forall k :: 0 <= k < i ==> !StageHasMember(stages[k], id)
    {
      for j := 0 to |stages[i].steps|
        invariant forall k :: 0 <= k < j ==> !HasMember(stages[i].steps[k].workItems, id)
      {
        m := FindMember(stages[i].steps[j].workItems, id);
        if m < |stages[i].steps[j].workItems| {
          assert StepWithMember(stages[i].steps, id) == j;
          assert StageWithMember(stages, id) == i;
          return true, i, j, m;
        }
      }
      assert StepWithMember(stages[i].steps, id) == |stages[i].steps|;
    }
    assert StageWithMember(stages, id) == |stages|;
    found, g, t, m := false, 0, 0, 0;
  }

  method OutputsAreReady(items: seq<Membership>) returns (r: bool)
    ensures r == OutputsReady(items)
  {
    if items == [] {
      return false;
    }
    for i := 0 to |items|
      invariant forall k :: 0 <= k < i ==> Succeeded(items[k]) && items[k].output.json != ""
    {
      if !Succeeded(items[i]) || items[i].output.json == "" {
        return false;
      }
    }
    r := true;
  }

  // ---------------------------------------------------------------------------------------
  // The plan

  class DependencyPlan {
    const runId: string
    const workflowId: string
    var state: WorkflowState
    var failureReason: string
    var stages: seq<Stage>

    ghost function Contents(): Plan
      reads this
    {
      Plan(runId, workflowId, state, failureReason, stages)
    }

    constructor (plan: Plan)
      ensures Contents() == plan
    {
      runId, workflowId, state, failureReason, stages := plan.runId, plan.workflowId, plan.state, plan.failureReason, plan.stages;
    }

    method UpdateWorkflowState()
      modifies this`state
      ensures Contents() == old(Contents()).(state := UpdatedWorkflowState(old(stages)))
    {
      for i := 0 to |stages|
        invariant forall k :: 0 <= k < i ==> stages[k].state != Progress.Failed
        invariant state == old(state)
      {
        if stages[i].state == Progress.Failed {
          assert AnyStage(stages, Progress.Failed);
          state := WorkflowState.Failed;
          return;
        }
      }
      assert !AnyStage(stages, Progress.Failed);
      for i := 0 to |stages|
        invariant forall k :: 0 <= k < i ==> stages[k].state == Progress.Completed
        invariant state == old(state)
      {
        if stages[i].state != Progress.Completed {
          state := WorkflowState.Running;
          return;
        }
      }
      state := WorkflowState.Completed;
    }

    /** Writes a step back and recomputes what lies above it. */
    method PutStep(g: nat, t: nat, step: Step)
      requires g < |stages| && t < |stages[g].steps|
      modifies this`state, this`stages
      ensures Contents() == WithStep(old(Contents()), g, t, step)
    {
      var steps := stages[g].steps[t := step];
      var stageState := UpdateStageState(steps, stages[g].state);
      stages := stages[g := stages[g].(steps := steps, state := stageState)];
      if state == WorkflowState.Running {
        UpdateWorkflowState();
      }
    }

    method PruneOutputsIfTerminal()
      modifies this`stages
      ensures Contents() == PruneIfTerminal(old(Contents()))
    {
      if state == WorkflowState.Running {
        return;
      }
      for g := 0 to |stages|
        invariant |stages| == |old(stages)|
        invariant forall k :: 0 <= k < g ==> stages[k] == PruneStage(old(stages)[k])
        invariant forall k :: g <= k < |stages| ==> stages[k] == old(stages)[k]
      {
        var steps := PrunedSteps(stages[g].steps);
        assert steps == PruneStage(old(stages)[g]).steps;
        stages := stages[g := stages[g].(steps := steps)];
      }
      assert stages == PruneIfTerminal(old(Contents())).stages;
    }

    /** Fails the workflow and the named stage, and in it the named step and work item or, without
        such a step, everything that has not succeeded. */
    method MarkPlanFailed(stageIndex: int, stepIndex: int, id: string, given: string)
      modifies this
      ensures Contents() == MarkFailed(old(Contents()), stageIndex, stepIndex, id, given)
    {
      var reason := ReasonOrDefault(given);
      if failureReason == "" {
        failureReason := reason;
      }
      state := WorkflowState.Failed;
      var g := FindStage(stages, stageIndex);
      if g == |stages| {
        return;
      }
      var stage := stages[g].(state := Progress.Failed, failureReason := FirstReason(stages[g].failureReason, reason));
      var t := FindStep(stage.steps, stepIndex);
      if stepIndex >= 0 && t < |stage.steps| {
        var step := FailedStep(stage.steps[t], id, reason);
        stages := stages[g := stage.(steps := stage.steps[t := step])];
      } else {
        var steps := FailedSteps(stage.steps, reason);
        stages := stages[g := stage.(steps := steps)];
      }
    }

    /** A report that a work item completed, was skipped or failed. */
    method RecordTerminal(id: string, terminal: MemberState, reason: string) returns (updated: bool)
      requires IsTerminal(terminal)
      modifies this
      ensures (Contents(), updated) == TerminalReport(old(Contents()), id, terminal, reason)
    {
      var found, g, t, m := FindWorkItem(stages, id);
      if !found {
        return false;
      }
      var step := stages[g].steps[t];
      var current := step.workItems[m].state;
      if current == terminal {
        return false;
      }
      if IsTerminal(current) && (terminal != MemberState.Failed || step.output.sha256 != "") {
        return false;
      }
      if terminal == MemberState.Failed {
        MarkPlanFailed(stages[g].stageIndex, step.stepIndex, id, reason);
      } else {
        var items := step.workItems[m := step.workItems[m].(state := terminal)];
        var stepState := UpdateStepState(items, step.state);
        PutStep(g, t, step.(workItems := items, state := stepState));
      }
      PruneOutputsIfTerminal();
      updated := true;
    }

    /** A completed work item's canonical output; on a refusal the plan read for it is dropped. */
    method RecordOutput(id: string, json: string, sha256: string, aggregate: Step -> Option<Output>)
        returns (outcome: OutputOutcome)
      modifies this
      ensures outcome == OutputReport(old(Contents()), id, json, sha256, aggregate)
      ensures outcome.Recorded? ==> Contents() == outcome.plan
      ensures !outcome.Recorded? ==> Contents() == old(Contents())
    {
      var found, g, t, m := FindWorkItem(stages, id);
      if !found {
        return UnknownItem;
      }
      var step := stages[g].steps[t];
      var member := step.workItems[m];
      if member.state == MemberState.Failed {
        return Ignored;
      }
      if state != WorkflowState.Running && IsTerminal(member.state) && step.output.sha256 != "" {
        return Ignored;
      }
      var items := step.workItems[m := member.(state := MemberState.Completed, output := Output(json, sha256, |json|, false))];
      var stepState := UpdateStepState(items, step.state);
      var next := step.(workItems := items, state := stepState);
      var ready := OutputsAreReady(items);
      if ready {
        var output := aggregate(next);
        if output.None? {
          return AggregationFailed;
        }
        var kept := PrunedItems(items);
        next := next.(output := output.value, state := Progress.Completed, workItems := kept);
      }
      PutStep(g, t, next);
      PruneOutputsIfTerminal();
      var after := if state == WorkflowState.Running then next else PruneStep(next);
      outcome := Recorded(Plan(runId, workflowId, state, failureReason, stages), if ready then Some(after) else None);
    }

    /** Adds a queued membership in index order, unless the step has its id or index already. */
    method AddMember(stageIndex: int, stepIndex: int, id: string, index: int) returns (ok: bool)
      modifies this`stages
      ensures ok == AddMembership(old(Contents()), stageIndex, stepIndex, id, index).Some?
      ensures ok ==> Contents() == AddMembership(old(Contents()), stageIndex, stepIndex, id, index).value
      ensures !ok ==> Contents() == old(Contents())
    {
      var g := FindStage(stages, stageIndex);
      if g == |stages| {
        return false;
      }
      var t := FindStep(stages[g].steps, stepIndex);
      if t == |stages[g].steps| {
        return false;
      }
      var step := stages[g].steps[t];
      for i := 0 to |step.workItems|
        invariant forall k :: 0 <= k < i ==> step.workItems[k].id != id && step.workItems[k].index != index
        invariant stages == old(stages)
      {
        if step.workItems[i].id == id || step.workItems[i].index == index {
          return false;
        }
      }
      var items := InsertSorted(step.workItems, Membership(id, index, Queued, "", NO_OUTPUT));
      stages := stages[g := stages[g].(steps := stages[g].steps[t := step.(workItems := items)])];
      ok := true;
    }

    /** Completes the steps of a stage that compiled to no work item. */
    method CompleteEmptyFanout(stageIndex: int, compiled: set<int>, empty: Output) returns (all: bool)
      modifies this`state, this`stages
      ensures (Contents(), all) == EmptyFanout(old(Contents()), stageIndex, compiled, empty)
    {
      var g := FindStage(stages, stageIndex);
      if g == |stages| {
        return false;
      }
      var steps, updated := stages[g].steps, false;
      all := true;
      for t := 0 to |steps|
        invariant |steps| == |stages[g].steps|
        invariant forall k :: 0 <= k < t ==> steps[k] == CompleteEmpty(stages[g].steps[k], compiled, empty)
        invariant forall k :: t <= k < |steps| ==> steps[k] == stages[g].steps[k]
        invariant updated <==> exists k :: 0 <= k < t && IsEmptyFanout(stages[g].steps[k], compiled)
        invariant all <==> forall k :: 0 <= k < t ==> steps[k].state == Progress.Completed
      {
        if IsEmptyFanout(steps[t], compiled) {
          steps := steps[t := steps[t].(state := Progress.Completed, output := empty)];
          updated := true;
        }
        all := all && steps[t].state == Progress.Completed;
      }
      if !updated {
        return false;
      }
      assert steps == CompleteEmptySteps(stages[g].steps, compiled, empty);
      stages := stages[g := stages[g].(steps := steps, state := if all then Progress.Completed else stages[g].state)];
      if all {
        UpdateWorkflowState();
      }
    }
  }

  method PrunedItems(items: seq<Membership>) returns (r: seq<Membership>)
    ensures r == PruneMembers(items)
  {
    r := items;
    for i := 0 to |items|
      invariant |r| == |items|
      invariant forall k :: 0 <= k < i ==> r[k] == items[k].(output := PruneOutput(items[k].output))
      invariant forall k :: i <= k < |items| ==> r[k] == items[k]
    {
      r := r[i := r[i].(output := PruneOutput(r[i].output))];
    }
  }

  method PrunedSteps(steps: seq<Step>) returns (r: seq<Step>)
    ensures |r| == |steps| && forall k :: 0 <= k < |steps| ==> r[k] == PruneStep(steps[k])
  {
    r := steps;
    for t := 0 to |steps|
      invariant |r| == |steps|
      invariant forall k :: 0 <= k < t ==> r[k] == PruneStep(steps[k])
      invariant forall k :: t <= k < |steps| ==> r[k] == steps[k]
    {
      var items := PrunedItems(r[t].workItems);
      r := r[t := r[t].(workItems := items, output := PruneOutput(r[t].output))];
    }
  }

  method FailedStep(step: Step, id: string, reason: string) returns (r: Step)
    ensures r == FailStep(step, id, reason)
  {
    var items := step.workItems;
    for i := 0 to |items|
      invariant |items| == |step.workItems|
      invariant forall k :: 0 <= k < i ==> items[k] == FailMember(step.workItems[k], id, reason)
      invariant forall k :: i <= k < |items| ==> items[k] == step.workItems[k]
    {
      if (id == "" || items[i].id == id) && !(id == "" && Succeeded(items[i])) {
        items := items[i := items[i].(state := MemberState.Failed, failureReason := FirstReason(items[i].failureReason, reason))];
      }
    }
    assert items == FailMembers(step.workItems, id, reason);
    r := step.(state := Progress.Failed, failureReason := FirstReason(step.failureReason, reason), workItems := items);
  }

  method FailedSteps(steps: seq<Step>, reason: string) returns (r: seq<Step>)
    ensures r == FailSteps(steps, reason)
  {
    r := steps;
    for i := 0 to |steps|
      invariant |r| == |steps|
      invariant forall k :: 0 <= k < i ==> r[k] == FailStep(steps[k], "", reason)
      invariant forall k :: i <= k < |steps| ==> r[k] == steps[k]
    {
      var step := FailedStep(r[i], "", reason);
      r := r[i := step];
    }
  }
}

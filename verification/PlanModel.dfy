/** Workflow dependency plans: stages of steps of work-item memberships, what their states mean,
    and what each mutator does to a plan. */
module PlanModel {
  import opened Wrappers
  import Strings

  datatype MemberState = Queued | Running | Completed | Skipped | Failed

  /** The state of a step and of a stage. */
  datatype Progress = Blocked | Ready | Active | Completed | Failed

  datatype WorkflowState = Running | Completed | Failed

  /** An output slot; an empty digest means that there is no output. */
  datatype Output = Output(json: string, sha256: string, bytes: nat, pruned: bool)

  const NO_OUTPUT := Output("", "", 0, false)

  datatype Membership = Membership(id: string, index: int, state: MemberState, failureReason: string, output: Output)

  datatype Step = Step(
    stageIndex: int, stepIndex: int, stepId: string, state: Progress, failureReason: string, output: Output,
    workItems: seq<Membership>)

  datatype Stage = Stage(stageIndex: int, state: Progress, failureReason: string, parallelWith: string, steps: seq<Step>)

  datatype Plan = Plan(runId: string, workflowId: string, state: WorkflowState, failureReason: string, stages: seq<Stage>)

  // ---------------------------------------------------------------------------------------
  // States derived from what lies below

  predicate Succeeded(m: Membership) {
    m.state == MemberState.Completed || m.state == MemberState.Skipped
  }

  predicate IsTerminal(s: MemberState) {
    s == MemberState.Completed || s == MemberState.Skipped || s == MemberState.Failed
  }

  predicate AnyMember(items: seq<Membership>, state: MemberState) {
    exists i :: 0 <= i < |items| && items[i].state == state
  }

  predicate AnySucceeded(items: seq<Membership>) {
    exists i :: 0 <= i < |items| && Succeeded(items[i])
  }

  predicate AllSucceeded(items: seq<Membership>) {
    forall i :: 0 <= i < |items| ==> Succeeded(items[i])
  }

  /** The state a step has by its memberships and the presence of an output fact alone. */
  function DerivedStepState(items: seq<Membership>, hasFact: bool): Progress {
    if AnyMember(items, MemberState.Failed) then Progress.Failed
    else if hasFact || (items != [] && AllSucceeded(items)) then Progress.Completed
    else if AnyMember(items, MemberState.Running) || AnySucceeded(items) then Active
    else if AnyMember(items, Queued) then Ready
    else Blocked
  }

  /** The state an update gives a step, starting from its current one. */
  function UpdatedStepState(items: seq<Membership>, current: Progress): Progress {
    if AnyMember(items, MemberState.Failed) then Progress.Failed
    else if AllSucceeded(items) then Progress.Completed
    else if AnySucceeded(items) then Active
    else current
  }

  predicate AnyStep(steps: seq<Step>, state: Progress) {
    exists i :: 0 <= i < |steps| && steps[i].state == state
  }

  predicate AllSteps(steps: seq<Step>, state: Progress) {
    forall i :: 0 <= i < |steps| ==> steps[i].state == state
  }

  function DerivedStageState(steps: seq<Step>, isEarliest: bool): Progress {
    if steps == [] then (if isEarliest then Ready else Blocked)
    else if AnyStep(steps, Progress.Failed) then Progress.Failed
    else if AllSteps(steps, Progress.Completed) then Progress.Completed
    else if AnyStep(steps, Active) || AnyStep(steps, Progress.Completed) then Active
    else if AnyStep(steps, Ready) || isEarliest then Ready
    else Blocked
  }

  function UpdatedStageState(steps: seq<Step>, current: Progress): Progress {
    if AnyStep(steps, Progress.Failed) then Progress.Failed
    else if AllSteps(steps, Progress.Completed) then Progress.Completed
    else if current == Progress.Failed then current
    else if AnyStep(steps, Active) || AnyStep(steps, Progress.Completed) then Active
    else current
  }

  predicate AnyStage(stages: seq<Stage>, state: Progress) {
    exists i :: 0 <= i < |stages| && stages[i].state == state
  }

  predicate AllStages(stages: seq<Stage>, state: Progress) {
    forall i :: 0 <= i < |stages| ==> stages[i].state == state
  }

  function DerivedWorkflowState(stages: seq<Stage>): WorkflowState {
    if AnyStage(stages, Progress.Failed) then WorkflowState.Failed
    else if stages != [] && AllStages(stages, Progress.Completed) then WorkflowState.Completed
    else WorkflowState.Running
  }

  function UpdatedWorkflowState(stages: seq<Stage>): WorkflowState {
    if AnyStage(stages, Progress.Failed) then WorkflowState.Failed
    else if AllStages(stages, Progress.Completed) then WorkflowState.Completed
    else WorkflowState.Running
  }

  // ---------------------------------------------------------------------------------------
  // Finding things

  /** The position of the first stage with this index, or the number of stages. */
  function StageAt(stages: seq<Stage>, stageIndex: int): (i: nat)
    ensures i <= |stages|
    ensures i < |stages| ==> stages[i].stageIndex == stageIndex
    ensures forall k :: 0 <= k < i ==> stages[k].stageIndex != stageIndex
  {
    if stages == [] then 0
    else if stages[0].stageIndex == stageIndex then 0
    else StageAt(stages[1..], stageIndex) + 1
  }

  function StepAt(steps: seq<Step>, stepIndex: int): (i: nat)
    ensures i <= |steps|
    ensures i < |steps| ==> steps[i].stepIndex == stepIndex
    ensures forall k :: 0 <= k < i ==> steps[k].stepIndex != stepIndex
  {
    if steps == [] then 0
    else if steps[0].stepIndex == stepIndex then 0
    else StepAt(steps[1..], stepIndex) + 1
  }

  function MemberAt(items: seq<Membership>, id: string): (i: nat)
    ensures i <= |items|
    ensures i < |items| ==> items[i].id == id
    ensures forall k :: 0 <= k < i ==> items[k].id != id
  {
    if items == [] then 0
    else if items[0].id == id then 0
    else MemberAt(items[1..], id) + 1
  }

  predicate HasMember(items: seq<Membership>, id: string) {
    MemberAt(items, id) < |items|
  }

  function StepWithMember(steps: seq<Step>, id: string): (i: nat)
    ensures i <= |steps|
    ensures i < |steps| ==> HasMember(steps[i].workItems, id)
    ensures forall k :: 0 <= k < i ==> !HasMember(steps[k].workItems, id)
  {
    if steps == [] then 0
    else if HasMember(steps[0].workItems, id) then 0
    else StepWithMember(steps[1..], id) + 1
  }

  predicate StageHasMember(stage: Stage, id: string) {
    StepWithMember(stage.steps, id) < |stage.steps|
  }

  function StageWithMember(stages: seq<Stage>, id: string): (i: nat)
    ensures i <= |stages|
    ensures i < |stages| ==> StageHasMember(stages[i], id)
    ensures forall k :: 0 <= k < i ==> !StageHasMember(stages[k], id)
  {
    if stages == [] then 0
    else if StageHasMember(stages[0], id) then 0
    else StageWithMember(stages[1..], id) + 1
  }

  predicate PlanHasMember(plan: Plan, id: string) {
    StageWithMember(plan.stages, id) < |plan.stages|
  }

  // ---------------------------------------------------------------------------------------
  // Failing

  function FirstReason(current: string, reason: string): string {
    if current == "" then reason else current
  }

  /** Marks memberships failed: the named one, or every one that has not succeeded. */
  function FailMember(m: Membership, id: string, reason: string): Membership {
    if id != "" && m.id != id then m
    else if id == "" && Succeeded(m) then m
    else m.(state := MemberState.Failed, failureReason := FirstReason(m.failureReason, reason))
  }

  function FailMembers(items: seq<Membership>, id: string, reason: string): seq<Membership> {
    seq(|items|, i requires 0 <= i < |items| => FailMember(items[i], id, reason))
  }

  function FailStep(step: Step, id: string, reason: string): Step {
    step.(state := Progress.Failed, failureReason := FirstReason(step.failureReason, reason),
          workItems := FailMembers(step.workItems, id, reason))
  }

  function FailSteps(steps: seq<Step>, reason: string): seq<Step> {
    seq(|steps|, i requires 0 <= i < |steps| => FailStep(steps[i], "", reason))
  }

  /** Fails a stage: the named step and membership if that step exists, all its steps otherwise. */
  function FailStage(stage: Stage, stepIndex: int, id: string, reason: string): Stage {
    var at := StepAt(stage.steps, stepIndex);
    stage.(state := Progress.Failed, failureReason := FirstReason(stage.failureReason, reason),
           steps := if stepIndex >= 0 && at < |stage.steps| then stage.steps[at := FailStep(stage.steps[at], id, reason)]
                    else FailSteps(stage.steps, reason))
  }

  function ReasonOrDefault(reason: string): string {
    if Strings.IsBlank(reason) then "dependency workflow failed" else reason
  }

  function MarkFailed(plan: Plan, stageIndex: int, stepIndex: int, id: string, given: string): Plan {
    var reason := ReasonOrDefault(given);
    var at := StageAt(plan.stages, stageIndex);
    plan.(state := WorkflowState.Failed, failureReason := FirstReason(plan.failureReason, reason),
          stages := if at < |plan.stages| then plan.stages[at := FailStage(plan.stages[at], stepIndex, id, reason)]
                    else plan.stages)
  }

  // ---------------------------------------------------------------------------------------
  // Pruning outputs of a finished plan

  function PruneOutput(o: Output): Output {
    if o.json == "" then o else Output("", o.sha256, |o.json|, true)
  }

  function PruneMembers(items: seq<Membership>): seq<Membership> {
    seq(|items|, i requires 0 <= i < |items| => items[i].(output := PruneOutput(items[i].output)))
  }

  function PruneStep(step: Step): Step {
    step.(workItems := PruneMembers(step.workItems), output := PruneOutput(step.output))
  }

  function PruneStage(stage: Stage): Stage {
    stage.(steps := seq(|stage.steps|, i requires 0 <= i < |stage.steps| => PruneStep(stage.steps[i])))
  }

  function PruneIfTerminal(plan: Plan): Plan {
    if plan.state == WorkflowState.Running then plan
    else plan.(stages := seq(|plan.stages|, i requires 0 <= i < |plan.stages| => PruneStage(plan.stages[i])))
  }

  // ---------------------------------------------------------------------------------------
  // Mutators

  /** Replaces one step and recomputes its stage, and the workflow while it is running. */
  function WithStep(plan: Plan, g: nat, t: nat, step: Step): Plan
    requires g < |plan.stages| && t < |plan.stages[g].steps|
  {
    var steps := plan.stages[g].steps[t := step];
    var stage := plan.stages[g].(steps := steps, state := UpdatedStageState(steps, plan.stages[g].state));
    var stages := plan.stages[g := stage];
    plan.(stages := stages, state := if plan.state == WorkflowState.Running then UpdatedWorkflowState(stages) else plan.state)
  }

  /** A report that a work item completed, was skipped or failed; the flag says whether anything
      changed. */
  function TerminalReport(plan: Plan, id: string, terminal: MemberState, reason: string): (Plan, bool)
    requires IsTerminal(terminal)
  {
    if !PlanHasMember(plan, id) then (plan, false)
    else
      var g := StageWithMember(plan.stages, id);
      var t := StepWithMember(plan.stages[g].steps, id);
      var step := plan.stages[g].steps[t];
      var m := MemberAt(step.workItems, id);
      var state := step.workItems[m].state;
      if state == terminal then (plan, false)
      else if IsTerminal(state) && (terminal != MemberState.Failed || step.output.sha256 != "") then (plan, false)
      else if terminal == MemberState.Failed then
        (PruneIfTerminal(MarkFailed(plan, plan.stages[g].stageIndex, step.stepIndex, id, reason)), true)
      else
        var items := step.workItems[m := step.workItems[m].(state := terminal)];
        (PruneIfTerminal(WithStep(plan, g, t, step.(workItems := items, state := UpdatedStepState(items, step.state)))), true)
  }

  predicate OutputsReady(items: seq<Membership>) {
    items != [] && forall i :: 0 <= i < |items| ==> Succeeded(items[i]) && items[i].output.json != ""
  }

  datatype OutputOutcome =
    | Ignored
    | UnknownItem
    | AggregationFailed
    | Recorded(plan: Plan, step: Option<Step>)   // the step, if its output became known

  /** A completed work item's canonical output; `aggregate` is the step aggregation, which may
      refuse. */
  function OutputReport(plan: Plan, id: string, json: string, sha256: string, aggregate: Step -> Option<Output>): OutputOutcome {
    if !PlanHasMember(plan, id) then UnknownItem
    else
      var g := StageWithMember(plan.stages, id);
      var t := StepWithMember(plan.stages[g].steps, id);
      var step := plan.stages[g].steps[t];
      var m := MemberAt(step.workItems, id);
      var member := step.workItems[m];
      if member.state == MemberState.Failed then Ignored
      else if plan.state != WorkflowState.Running && IsTerminal(member.state) && step.output.sha256 != "" then Ignored
      else
        var items := step.workItems[m := member.(state := MemberState.Completed, output := Output(json, sha256, |json|, false))];
        var updated := step.(workItems := items, state := UpdatedStepState(items, step.state));
        if !OutputsReady(items) then Recorded(PruneIfTerminal(WithStep(plan, g, t, updated)), None)
        else
          match aggregate(updated)
          case None => AggregationFailed
          case Some(output) =>
            var finished := updated.(output := output, state := Progress.Completed, workItems := PruneMembers(items));
            var next := PruneIfTerminal(WithStep(plan, g, t, finished));
            Recorded(next, Some(if next.state == WorkflowState.Running then finished else PruneStep(finished)))
  }

  function InsertSorted(items: seq<Membership>, m: Membership): seq<Membership> {
    if items == [] then [m]
    else if items[0].index <= m.index then [items[0]] + InsertSorted(items[1..], m)
    else [m] + items
  }

  /** Adds a queued membership to a step; a repeated id or index in that step is refused. */
  function AddMembership(plan: Plan, stageIndex: int, stepIndex: int, id: string, index: int): Option<Plan> {
    var g := StageAt(plan.stages, stageIndex);
    if g >= |plan.stages| then None
    else
      var t := StepAt(plan.stages[g].steps, stepIndex);
      if t >= |plan.stages[g].steps| then None
      else
        var step := plan.stages[g].steps[t];
        if exists i :: 0 <= i < |step.workItems| && (step.workItems[i].id == id || step.workItems[i].index == index) then None
        else
          var items := InsertSorted(step.workItems, Membership(id, index, Queued, "", NO_OUTPUT));
          Some(plan.(stages := plan.stages[g := plan.stages[g].(steps := plan.stages[g].steps[t := step.(workItems := items)])]))
  }

  predicate IsEmptyFanout(step: Step, compiled: set<int>) {
    step.stepIndex !in compiled && step.workItems == [] && step.state != Progress.Completed && step.state != Progress.Failed
  }

  function CompleteEmpty(step: Step, compiled: set<int>, empty: Output): Step {
    if IsEmptyFanout(step, compiled) then step.(state := Progress.Completed, output := empty) else step
  }

  function CompleteEmptySteps(steps: seq<Step>, compiled: set<int>, empty: Output): seq<Step> {
    seq(|steps|, i requires 0 <= i < |steps| => CompleteEmpty(steps[i], compiled, empty))
  }

  /** Completes the steps of a compiled stage that compiled to no work item; the flag says whether
      that completed the whole stage. */
  function EmptyFanout(plan: Plan, stageIndex: int, compiled: set<int>, empty: Output): (Plan, bool) {
    var g := StageAt(plan.stages, stageIndex);
    if g >= |plan.stages| then (plan, false)
    else if forall i :: 0 <= i < |plan.stages[g].steps| ==> !IsEmptyFanout(plan.stages[g].steps[i], compiled) then (plan, false)
    else
      var steps := CompleteEmptySteps(plan.stages[g].steps, compiled, empty);
      var all := AllSteps(steps, Progress.Completed);
      var stage := plan.stages[g].(steps := steps, state := if all then Progress.Completed else plan.stages[g].state);
      var stages := plan.stages[g := stage];
      (plan.(stages := stages, state := if all then UpdatedWorkflowState(stages) else plan.state), all)
  }

  function MarkStageReady(plan: Plan, stageIndex: int): Plan {
    var g := StageAt(plan.stages, stageIndex);
    if plan.state != WorkflowState.Running || g >= |plan.stages| || plan.stages[g].state != Blocked then plan
    else
      var steps := plan.stages[g].steps;
      var readied := seq(|steps|, i requires 0 <= i < |steps| => if steps[i].state == Blocked then steps[i].(state := Ready) else steps[i]);
      plan.(stages := plan.stages[g := plan.stages[g].(state := Ready, steps := readied)])
  }

  function FailActivation(plan: Plan, stageIndex: int, reason: string): Plan {
    PruneIfTerminal(MarkFailed(plan, stageIndex, -1, "", reason))
  }

  // ---------------------------------------------------------------------------------------
  // Well-formed plans

  predicate UniqueStages(plan: Plan) {
    forall i, j :: 0 <= i < j < |plan.stages| ==> plan.stages[i].stageIndex != plan.stages[j].stageIndex
  }

  predicate UniqueSteps(stage: Stage) {
    forall i, j :: 0 <= i < j < |stage.steps| ==> stage.steps[i].stepIndex != stage.steps[j].stepIndex
  }

  predicate NonNegativeSteps(stage: Stage) {
    forall i :: 0 <= i < |stage.steps| ==> stage.steps[i].stepIndex >= 0
  }

  predicate UniqueMembers(step: Step) {
    && (forall i :: 0 <= i < |step.workItems| ==> step.workItems[i].id != "")
    && (forall i, j :: 0 <= i < j < |step.workItems| ==> step.workItems[i].id != step.workItems[j].id)
  }

  /** What plan validation guarantees and the mutators rely on to find their targets. */
  predicate WellFormed(plan: Plan) {
    && UniqueStages(plan)
    && (forall g :: 0 <= g < |plan.stages| ==> UniqueSteps(plan.stages[g]) && NonNegativeSteps(plan.stages[g]))
    && (forall g, t :: 0 <= g < |plan.stages| && 0 <= t < |plan.stages[g].steps| ==> UniqueMembers(plan.stages[g].steps[t]))
  }
}

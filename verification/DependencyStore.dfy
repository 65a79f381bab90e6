/** The persisted facts behind a dependency plan and the plan rebuilt from them on every read.

    The store keeps step and membership records, the queue, running and terminal attempts, step
    output facts, and the last plan that was saved; a plan is saved only when it has failed.
    Everything else is derived again on each read, with the saved plan as a fallback. */
module DependencyStore {
  import opened Wrappers
  import opened PlanModel

  datatype StepRecord = StepRecord(stageIndex: int, stepIndex: int, stepId: string, parallelWith: string)

  datatype MemberRecord = MemberRecord(stageIndex: int, stepIndex: int, id: string, index: int)

  /** The one terminal attempt of a work item. */
  datatype Terminal = Terminal(failed: bool, skipped: bool, outputJson: string, outputSha256: string, error: string)

  datatype Store = Store(
    runId: string,
    workflowId: string,
    steps: seq<StepRecord>,
    members: seq<MemberRecord>,
    queued: set<string>,
    running: set<string>,
    terminal: map<string, Terminal>,
    facts: map<int, Output>,
    saved: Option<Plan>)

  // ---------------------------------------------------------------------------------------
  // Rebuilding

  function FindStep(stages: seq<Stage>, stepIndex: int): Option<Step> {
    if stages == [] then None
    else
      var t := StepAt(stages[0].steps, stepIndex);
      if t < |stages[0].steps| then Some(stages[0].steps[t]) else FindStep(stages[1..], stepIndex)
  }

  function FindMember(stages: seq<Stage>, id: string): Option<Membership> {
    var g := StageWithMember(stages, id);
    if g >= |stages| then None
    else
      var t := StepWithMember(stages[g].steps, id);
      Some(stages[g].steps[t].workItems[MemberAt(stages[g].steps[t].workItems, id)])
  }

  function SavedStep(s: Store, stepIndex: int): Option<Step> {
    if s.saved.Some? then FindStep(s.saved.value.stages, stepIndex) else None
  }

  function SavedMember(s: Store, id: string): Option<Membership> {
    if s.saved.Some? then FindMember(s.saved.value.stages, id) else None
  }

  function DerivedMembership(s: Store, r: MemberRecord): Membership {
    var base := Membership(r.id, r.index, Queued, "", NO_OUTPUT);
    var saved := SavedMember(s, r.id);
    if r.id in s.terminal then
      var t := s.terminal[r.id];
      if saved.Some? && saved.value.state == MemberState.Failed && !t.failed then saved.value.(id := r.id, index := r.index)
      else if t.failed then base.(state := MemberState.Failed, failureReason := t.error)
      else base.(state := if t.skipped then MemberState.Skipped else MemberState.Completed,
                 output := Output(t.outputJson, t.outputSha256, |t.outputJson|, false))
    else if r.id in s.running then base.(state := MemberState.Running)
    else if r.id in s.queued then base
    else if saved.Some? then saved.value.(id := r.id, index := r.index)
    else base
  }

  /** With a step fact present, outputs of succeeded memberships are pruned. */
  function RebuiltMembership(s: Store, r: MemberRecord, hasFact: bool): Membership {
    var m := DerivedMembership(s, r);
    if hasFact && Succeeded(m) then m.(output := PruneOutput(m.output)) else m
  }

  function MembersOf(members: seq<MemberRecord>, stageIndex: int, stepIndex: int): seq<MemberRecord> {
    if members == [] then []
    else
      (if members[0].stageIndex == stageIndex && members[0].stepIndex == stepIndex then [members[0]] else [])
      + MembersOf(members[1..], stageIndex, stepIndex)
  }

  function RebuiltMembers(s: Store, r: StepRecord): seq<Membership> {
    var records := MembersOf(s.members, r.stageIndex, r.stepIndex);
    seq(|records|, i requires 0 <= i < |records| => RebuiltMembership(s, records[i], r.stepIndex in s.facts))
  }

  predicate NoTerminalEvidence(items: seq<Membership>, hasFact: bool) {
    !hasFact && forall i :: 0 <= i < |items| ==> !IsTerminal(items[i].state)
  }

  function RebuiltStep(s: Store, r: StepRecord): Step {
    var saved := SavedStep(s, r.stepIndex);
    var hasFact := r.stepIndex in s.facts;
    var items := RebuiltMembers(s, r);
    var fallback := saved.Some? && (NoTerminalEvidence(items, hasFact) || (saved.value.state == Progress.Failed && !hasFact));
    Step(r.stageIndex, r.stepIndex, r.stepId,
         if fallback then saved.value.state else DerivedStepState(items, hasFact),
         if saved.Some? then saved.value.failureReason else "",
         if hasFact then s.facts[r.stepIndex] else if saved.Some? then saved.value.output else NO_OUTPUT,
         items)
  }

  function StepsOfStage(s: Store, records: seq<StepRecord>, stageIndex: int): seq<Step> {
    if records == [] then []
    else (if records[0].stageIndex == stageIndex then [RebuiltStep(s, records[0])] else [])
         + StepsOfStage(s, records[1..], stageIndex)
  }

  /** The stage indexes in order of first appearance. */
  function StageIndexes(records: seq<StepRecord>): seq<int> {
    if records == [] then []
    else
      var front := StageIndexes(records[..|records| - 1]);
      var last := records[|records| - 1].stageIndex;
      if last in front then front else front + [last]
  }

  function ParallelWith(records: seq<StepRecord>, stageIndex: int): string {
    if records == [] then ""
    else if records[0].stageIndex == stageIndex then records[0].parallelWith
    else ParallelWith(records[1..], stageIndex)
  }

  predicate IsEarliest(records: seq<StepRecord>, stageIndex: int) {
    forall i :: 0 <= i < |records| ==> stageIndex <= records[i].stageIndex
  }

  /** The saved reason, or else the first reason found on a failed step. */
  function ReasonFromSteps(s: Store, records: seq<StepRecord>, reason: string): string {
    if records == [] then reason
    else
      var step := RebuiltStep(s, records[0]);
      ReasonFromSteps(s, records[1..], if step.state == Progress.Failed then FirstReason(reason, step.failureReason) else reason)
  }

  function SavedReason(s: Store): string {
    if s.saved.Some? then s.saved.value.failureReason else ""
  }

  function RebuiltStage(s: Store, stageIndex: int): Stage {
    var steps := StepsOfStage(s, s.steps, stageIndex);
    var state := DerivedStageState(steps, IsEarliest(s.steps, stageIndex));
    Stage(stageIndex, state,
          if state == Progress.Failed then ReasonFromSteps(s, s.steps, SavedReason(s)) else "",
          ParallelWith(s.steps, stageIndex), steps)
  }

  function Rebuild(s: Store): Plan {
    var indexes := StageIndexes(s.steps);
    var stages := seq(|indexes|, i requires 0 <= i < |indexes| => RebuiltStage(s, indexes[i]));
    var derived := DerivedWorkflowState(stages);
    var reason := ReasonFromSteps(s, s.steps, SavedReason(s));
    if s.saved.Some? && s.saved.value.state == WorkflowState.Failed && derived != WorkflowState.Failed then
      Plan(s.runId, s.workflowId, WorkflowState.Failed, SavedReason(s), stages)
    else
      Plan(s.runId, s.workflowId, derived, reason, stages)
  }

  // ---------------------------------------------------------------------------------------
  // Operations on the store

  function Save(s: Store, plan: Plan): Store {
    if plan.state == WorkflowState.Failed then s.(saved := Some(plan)) else s
  }

  function PrunedFactsOfSteps(steps: seq<Step>): map<int, Output> {
    if steps == [] then map[]
    else
      PrunedFactsOfSteps(steps[..|steps| - 1]) +
      var step := steps[|steps| - 1];
      if step.output.pruned && step.output.sha256 != "" then map[step.stepIndex := step.output] else map[]
  }

  function PrunedFacts(stages: seq<Stage>): map<int, Output> {
    if stages == [] then map[] else PrunedFacts(stages[..|stages| - 1]) + PrunedFactsOfSteps(stages[|stages| - 1].steps)
  }

  /** A finished plan rewrites the facts of its pruned steps. */
  function UpsertPruned(s: Store, plan: Plan): Store {
    if plan.state == WorkflowState.Running then s else s.(facts := s.facts + PrunedFacts(plan.stages))
  }

  /** A recording operation touches only records, facts and the saved plan. */
  predicate Frame(s: Store, s': Store) {
    && s'.steps == s.steps && s'.queued == s.queued && s'.running == s.running && s'.terminal == s.terminal
    && s'.runId == s.runId && s'.workflowId == s.workflowId
  }

  function RecordTerminal(s: Store, id: string, terminal: MemberState, reason: string): (s': Store)
    requires IsTerminal(terminal)
    ensures Frame(s, s') && s'.members == s.members
  {
    var (plan, updated) := TerminalReport(Rebuild(s), id, terminal, reason);
    if updated then Save(UpsertPruned(s, plan), plan) else s
  }

  /** The flag says whether the report was accepted. */
  function RecordOutput(s: Store, id: string, json: string, sha256: string, aggregate: Step -> Option<Output>): (r: (Store, bool))
    ensures Frame(s, r.0) && r.0.members == s.members
  {
    match OutputReport(Rebuild(s), id, json, sha256, aggregate)
    case Ignored => (s, true)
    case UnknownItem => (s, false)
    case AggregationFailed => (s, false)
    case Recorded(plan, step) =>
      (Save(if step.Some? then s.(facts := s.facts[step.value.stepIndex := step.value.output]) else s, plan), true)
  }

  function RecordMember(s: Store, r: MemberRecord): (s': Store)
    ensures Frame(s, s') && s'.facts == s.facts
  {
    match AddMembership(Rebuild(s), r.stageIndex, r.stepIndex, r.id, r.index)
    case None => s
    case Some(plan) => Save(s.(members := s.members + [r]), plan)
  }

  function FailStageActivation(s: Store, stageIndex: int, reason: string): (s': Store)
    ensures Frame(s, s') && s'.members == s.members
  {
    var plan := PlanModel.FailActivation(Rebuild(s), stageIndex, reason);
    Save(UpsertPruned(s, plan), plan)
  }

  function EmptyFactsOf(steps: seq<Step>, compiled: set<int>, empty: Output): map<int, Output> {
    if steps == [] then map[]
    else EmptyFactsOf(steps[..|steps| - 1], compiled, empty) +
         if IsEmptyFanout(steps[|steps| - 1], compiled) then map[steps[|steps| - 1].stepIndex := empty] else map[]
  }

  /** The flag says whether the stage is complete because of it. */
  function RecordEmptySteps(s: Store, stageIndex: int, compiled: set<int>, empty: Output): (r: (Store, bool))
    ensures Frame(s, r.0) && r.0.members == s.members
  {
    var before := Rebuild(s);
    var (plan, all) := EmptyFanout(before, stageIndex, compiled, empty);
    var g := StageAt(before.stages, stageIndex);
    if g >= |before.stages| then (s, false)
    else
      var steps := before.stages[g].steps;
      if forall t :: 0 <= t < |steps| ==> !IsEmptyFanout(steps[t], compiled) then (s, false)
      else (Save(s.(facts := s.facts + EmptyFactsOf(steps, compiled, empty)), plan), all)
  }

  /** Everything that can happen to the store of one run once its step records exist. */
  datatype Event =
    | Enqueues(ids: set<string>)
    | Claims(id: string)
    | Requeues(id: string)
    | Finishes(id: string, attempt: Terminal)
    | AddsMember(record: MemberRecord)
    | Reports(id: string, terminal: MemberState, reason: string)
    | Outputs(id: string, json: string, sha256: string, aggregate: Step -> Option<Output>)
    | Empties(stageIndex: int, compiled: set<int>, empty: Output)
    | FailsActivation(stageIndex: int, reason: string)

  function Step1(s: Store, e: Event): Store {
    match e
    case Enqueues(ids) => s.(queued := s.queued + ids)
    case Claims(id) => if id in s.queued then s.(queued := s.queued - {id}, running := s.running + {id}) else s
    case Requeues(id) => if id in s.running then s.(running := s.running - {id}, queued := s.queued + {id}) else s
    case Finishes(id, attempt) =>
      if id in s.running && id !in s.terminal then s.(running := s.running - {id}, terminal := s.terminal[id := attempt]) else s
    case AddsMember(r) => RecordMember(s, r)
    case Reports(id, terminal, reason) => if IsTerminal(terminal) then RecordTerminal(s, id, terminal, reason) else s
    case Outputs(id, json, sha256, aggregate) => RecordOutput(s, id, json, sha256, aggregate).0
    case Empties(g, compiled, empty) => RecordEmptySteps(s, g, compiled, empty).0
    case FailsActivation(g, reason) => FailStageActivation(s, g, reason)
  }

  function Run(s: Store, events: seq<Event>): Store
    decreases |events|
  {
    if events == [] then s else Run(Step1(s, events[0]), events[1..])
  }
}

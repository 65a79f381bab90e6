/** What each recording operation does to a store with no failure: a report only ever adds facts,
    a membership record is appended, and empty fan-outs gain exactly their facts. */
module StoreEffects {
  import opened Wrappers
  import opened PlanModel
  import PlanLaws
  import opened DependencyStore
  import opened StoreLaws
  import opened StoreView

  /** Plan creation refuses repeated step indexes. */
  predicate UniqueStepRecords(s: Store) {
    forall r, q :: r in s.steps && q in s.steps && r.stepIndex == q.stepIndex ==> r == q
  }

  /** A work item is recorded as a membership of one step only. */
  predicate UniqueIds(s: Store) {
    forall m, k :: m in s.members && k in s.members && m.id == k.id ==> m == k
  }

  // ---------------------------------------------------------------------------------------
  // No failure anywhere in the plan of a healthy store

  predicate QuietStep(step: Step) {
    step.state != Progress.Failed && !AnyMember(step.workItems, MemberState.Failed)
  }

  predicate QuietStage(stage: Stage) {
    && stage.state != Progress.Failed
    && forall t :: 0 <= t < |stage.steps| ==> QuietStep(stage.steps[t])
  }

  predicate Quiet(plan: Plan) {
    && plan.state != WorkflowState.Failed
    && forall g :: 0 <= g < |plan.stages| ==> QuietStage(plan.stages[g])
  }

  lemma HealthyStageQuiet(s: Store, i: int)
    requires Healthy(s) && StageKnown(s, i)
    ensures QuietStage(RebuiltStage(s, i))
  {
    StageStates(s, i);
    var steps := StepsOfStage(s, s.steps, i);
    forall t | 0 <= t < |steps|
      ensures QuietStep(steps[t])
    {
      var r := StageStepAt(s, i, t);
      StepStates(s, r);
      ItemsSucceeded(s, r);
    }
  }

  lemma HealthyQuiet(s: Store)
    requires Healthy(s)
    ensures Quiet(Rebuild(s))
  {
    HealthyPlanState(s);
    var stages := Rebuild(s).stages;
    var indexes := StageIndexes(s.steps);
    forall g | 0 <= g < |stages|
      ensures QuietStage(stages[g])
    {
      assert stages[g] == RebuiltStage(s, indexes[g]);
      StageIndexKnown(s.steps, indexes[g]);
      HealthyStageQuiet(s, indexes[g]);
    }
  }

  lemma QuietWithStep(plan: Plan, g: nat, t: nat, step: Step)
    requires Quiet(plan) && g < |plan.stages| && t < |plan.stages[g].steps| && step.state != Progress.Failed
    ensures WithStep(plan, g, t, step).state != WorkflowState.Failed
  {
    assert QuietStage(plan.stages[g]);
    var steps := plan.stages[g].steps[t := step];
    assert forall k :: 0 <= k < |plan.stages[g].steps| ==> QuietStep(plan.stages[g].steps[k]);
    PlanLaws.SubstStepKeeps(plan.stages[g].steps, t, step, Progress.Failed);
    var stage := plan.stages[g].(steps := steps, state := UpdatedStageState(steps, plan.stages[g].state));
    PlanLaws.SubstStageKeeps(plan.stages, g, stage, Progress.Failed);
    assert !AnyStage(plan.stages, Progress.Failed);
  }

  // ---------------------------------------------------------------------------------------
  // Where a recorded work item is found

  lemma ItemPresent(items: seq<Membership>, i: nat)
    requires i < |items|
    ensures HasMember(items, items[i].id)
  {
  }

  /** The step found for a recorded id is the rebuilt step of its record. */
  lemma Located(s: Store, r: StepRecord, m: MemberRecord)
    requires Healthy(s) && UniqueStepRecords(s) && UniqueIds(s) && r in s.steps && m in s.members && Matches(m, r)
    ensures
      var plan := Rebuild(s);
      && PlanHasMember(plan, m.id)
      && var g := StageWithMember(plan.stages, m.id);
         var t := StepWithMember(plan.stages[g].steps, m.id);
         && plan.stages[g].steps[t] == RebuiltStep(s, r)
         && MemberAt(RebuiltMembers(s, r), m.id) < |RebuiltMembers(s, r)|
  {
    var plan := Rebuild(s);
    StageFound(s, r.stageIndex);
    var g0 := StageAt(plan.stages, r.stageIndex);
    var t0 := RecordAt(s, r);
    var i := MemberHasItem(s, r, m);
    RebuiltItems(s, r, i);
    ItemPresent(RebuiltMembers(s, r), i);
    assert HasMember(plan.stages[g0].steps[t0].workItems, m.id);
    assert StageHasMember(plan.stages[g0], m.id);
    var g := StageWithMember(plan.stages, m.id);
    FoundStep(s, r, m, g);
  }

  lemma FoundStep(s: Store, r: StepRecord, m: MemberRecord, g: nat)
    requires Healthy(s) && UniqueStepRecords(s) && UniqueIds(s) && r in s.steps && m in s.members && Matches(m, r)
    requires g < |Rebuild(s).stages| && StageHasMember(Rebuild(s).stages[g], m.id)
    ensures Rebuild(s).stages[g].steps[StepWithMember(Rebuild(s).stages[g].steps, m.id)] == RebuiltStep(s, r)
  {
    var index := StageIndexes(s.steps)[g];
    var steps := Rebuild(s).stages[g].steps;
    assert steps == StepsOfStage(s, s.steps, index);
    var t := StepWithMember(steps, m.id);
    var q := StageStepAt(s, index, t);
    var i := MemberAt(steps[t].workItems, m.id);
    RebuiltItems(s, q, i);
  }

  // ---------------------------------------------------------------------------------------
  // Recording a membership

  predicate NoClash(s: Store, x: MemberRecord) {
    forall m :: m in s.members && m.stageIndex == x.stageIndex && m.stepIndex == x.stepIndex ==> m.id != x.id && m.index != x.index
  }

  lemma StepFound(s: Store, r: StepRecord)
    requires UniqueStepRecords(s) && r in s.steps
    ensures
      var steps := StepsOfStage(s, s.steps, r.stageIndex);
      var t := StepAt(steps, r.stepIndex);
      t < |steps| && steps[t] == RebuiltStep(s, r)
  {
    var steps := StepsOfStage(s, s.steps, r.stageIndex);
    var u := RecordAt(s, r);
    var t := StepAt(steps, r.stepIndex);
    var q := StageStepAt(s, r.stageIndex, t);
  }

  lemma NoClashFound(s: Store, r: StepRecord, x: MemberRecord)
    requires Healthy(s) && r in s.steps && Matches(x, r) && NoClash(s, x)
    ensures
      var items := RebuiltMembers(s, r);
      !(exists i :: 0 <= i < |items| && (items[i].id == x.id || items[i].index == x.index))
  {
    var items := RebuiltMembers(s, r);
    forall i | 0 <= i < |items|
      ensures items[i].id != x.id && items[i].index != x.index
    {
      RebuiltItems(s, r, i);
    }
  }

  /** A membership that repeats no id or index of its step is appended to the records. */
  lemma MemberAppended(s: Store, r: StepRecord, x: MemberRecord)
    requires Healthy(s) && UniqueStepRecords(s) && r in s.steps && Matches(x, r) && NoClash(s, x)
    ensures RecordMember(s, x) == s.(members := s.members + [x])
  {
    StageFound(s, r.stageIndex);
    StepFound(s, r);
    NoClashFound(s, r, x);
    HealthyPlanState(s);
  }

  // ---------------------------------------------------------------------------------------
  // Recording an output

  predicate OutputsKept(s: Store) {
    forall id :: id in s.terminal && !s.terminal[id].failed ==> s.terminal[id].outputJson != ""
  }

  ghost predicate NamesOutputs(aggregate: Step -> Option<Output>) {
    forall step :: aggregate(step).Some? ==> aggregate(step).value.sha256 != ""
  }

  /** The items of the step as an output report leaves them. */
  function Reported(s: Store, r: StepRecord, id: string, json: string, sha256: string): seq<Membership>
    requires HasMember(RebuiltMembers(s, r), id)
  {
    var items := RebuiltMembers(s, r);
    var i := MemberAt(items, id);
    items[i := items[i].(state := MemberState.Completed, output := Output(json, sha256, |json|, false))]
  }

  lemma ReportedQuiet(s: Store, r: StepRecord, id: string, json: string, sha256: string)
    requires Healthy(s) && r in s.steps && HasMember(RebuiltMembers(s, r), id)
    ensures
      var items := Reported(s, r, id, json, sha256);
      !AnyMember(items, MemberState.Failed) && AnySucceeded(items)
  {
    ItemsSucceeded(s, r);
    var items := RebuiltMembers(s, r);
    var i := MemberAt(items, id);
    var x := items[i].(state := MemberState.Completed, output := Output(json, sha256, |json|, false));
    PlanLaws.SubstMemberKeeps(items, i, x, MemberState.Failed);
    assert Succeeded(Reported(s, r, id, json, sha256)[i]);
  }

  lemma ReportedReady(s: Store, r: StepRecord, id: string, json: string, sha256: string)
    requires Healthy(s) && OutputsKept(s) && r in s.steps && HasMember(RebuiltMembers(s, r), id)
    requires r.stepIndex !in s.facts && AllTerminal(s, r) && json != ""
    ensures OutputsReady(Reported(s, r, id, json, sha256))
  {
    var items := Reported(s, r, id, json, sha256);
    forall i | 0 <= i < |items|
      ensures Succeeded(items[i]) && items[i].output.json != ""
    {
      RebuiltItems(s, r, i);
      var m := MembersOf(s.members, r.stageIndex, r.stepIndex)[i];
      NoRecordedFailure(s, r, m);
    }
  }

  /** The outcome of an output report on a plan with no failure, given the reported step. */
  lemma QuietOutcome(plan: Plan, id: string, json: string, sha256: string, aggregate: Step -> Option<Output>, step: Step, items: seq<Membership>)
    requires Quiet(plan) && PlanHasMember(plan, id)
    requires
      var g := StageWithMember(plan.stages, id);
      step == plan.stages[g].steps[StepWithMember(plan.stages[g].steps, id)]
    requires
      var m := MemberAt(step.workItems, id);
      && items == step.workItems[m := step.workItems[m].(state := MemberState.Completed, output := Output(json, sha256, |json|, false))]
    requires !AnyMember(items, MemberState.Failed) && AnySucceeded(items) && NamesOutputs(aggregate)
    ensures
      var r := OutputReport(plan, id, json, sha256, aggregate);
      && r != UnknownItem
      && (r.Recorded? ==> r.plan.state != WorkflowState.Failed)
      && (r.Recorded? && r.step.Some? ==> r.step.value.stepIndex == step.stepIndex && r.step.value.output.sha256 != "")
      && (step.output.sha256 == "" && OutputsReady(items) ==> r == AggregationFailed || (r.Recorded? && r.step.Some?))
  {
    var g := StageWithMember(plan.stages, id);
    var t := StepWithMember(plan.stages[g].steps, id);
    assert QuietStage(plan.stages[g]) && QuietStep(step);
    assert step.workItems[MemberAt(step.workItems, id)].state != MemberState.Failed;
    var updated := step.(workItems := items, state := UpdatedStepState(items, step.state));
    if !OutputsReady(items) {
      QuietWithStep(plan, g, t, updated);
    } else if aggregate(updated).Some? {
      QuietWithStep(plan, g, t, updated.(output := aggregate(updated).value, state := Progress.Completed, workItems := PruneMembers(items)));
    }
  }

  /** The accepted report of a recorded item leaves everything but the facts, which gain at most
      the item's step; they do gain it when it was the last item of a step without a fact. */
  lemma OutputRecorded(s: Store, r: StepRecord, m: MemberRecord, json: string, sha256: string, aggregate: Step -> Option<Output>)
    requires Healthy(s) && UniqueStepRecords(s) && UniqueIds(s) && r in s.steps && m in s.members && Matches(m, r)
    requires NamesOutputs(aggregate)
    ensures
      var (s', ok) := RecordOutput(s, m.id, json, sha256, aggregate);
      && (!ok ==> s' == s)
      && (ok ==> s' == s || exists o: Output :: o.sha256 != "" && s' == s.(facts := s.facts[r.stepIndex := o]))
      && (ok && OutputsKept(s) && AllTerminal(s, r) && json != "" ==> r.stepIndex in s'.facts)
  {
    Located(s, r, m);
    HealthyQuiet(s);
    var items := Reported(s, r, m.id, json, sha256);
    ReportedQuiet(s, r, m.id, json, sha256);
    QuietOutcome(Rebuild(s), m.id, json, sha256, aggregate, RebuiltStep(s, r), items);
    if r.stepIndex !in s.facts && OutputsKept(s) && AllTerminal(s, r) && json != "" {
      ReportedReady(s, r, m.id, json, sha256);
      LastOutputNotIgnored(s, r, m);
    }
  }

  /** A report adds no fact while another item of its step is unfinished. */
  lemma UnfinishedAddsNothing(s: Store, r: StepRecord, m: MemberRecord, json: string, sha256: string, aggregate: Step -> Option<Output>)
    requires Healthy(s) && UniqueStepRecords(s) && UniqueIds(s) && r in s.steps && m in s.members && Matches(m, r)
    requires NamesOutputs(aggregate) && m.id in s.terminal && !AllTerminal(s, r)
    ensures RecordOutput(s, m.id, json, sha256, aggregate).0 == s
  {
    Located(s, r, m);
    HealthyQuiet(s);
    ReportedQuiet(s, r, m.id, json, sha256);
    NotReported(s, r, m, json, sha256);
    UnreadyOutcome(Rebuild(s), m.id, json, sha256, aggregate, RebuiltStep(s, r), Reported(s, r, m.id, json, sha256));
  }

  lemma NotReported(s: Store, r: StepRecord, m: MemberRecord, json: string, sha256: string)
    requires Healthy(s) && UniqueIds(s) && r in s.steps && m in s.members && Matches(m, r)
    requires m.id in s.terminal && !AllTerminal(s, r) && HasMember(RebuiltMembers(s, r), m.id)
    ensures !OutputsReady(Reported(s, r, m.id, json, sha256))
  {
    var k :| k in s.members && Matches(k, r) && k.id !in s.terminal;
    var i := MemberHasItem(s, r, k);
    RebuiltItems(s, r, i);
    var items := RebuiltMembers(s, r);
    var j := MemberAt(items, m.id);
    assert i != j;
    assert !Succeeded(Reported(s, r, m.id, json, sha256)[i]);
  }

  lemma UnreadyOutcome(plan: Plan, id: string, json: string, sha256: string, aggregate: Step -> Option<Output>, step: Step, items: seq<Membership>)
    requires Quiet(plan) && PlanHasMember(plan, id)
    requires
      var g := StageWithMember(plan.stages, id);
      step == plan.stages[g].steps[StepWithMember(plan.stages[g].steps, id)]
    requires
      var m := MemberAt(step.workItems, id);
      && items == step.workItems[m := step.workItems[m].(state := MemberState.Completed, output := Output(json, sha256, |json|, false))]
    requires !AnyMember(items, MemberState.Failed) && AnySucceeded(items) && !OutputsReady(items)
    ensures
      var r := OutputReport(plan, id, json, sha256, aggregate);
      r.Ignored? || (r.Recorded? && r.step.None? && r.plan.state != WorkflowState.Failed)
  {
    var g := StageWithMember(plan.stages, id);
    var t := StepWithMember(plan.stages[g].steps, id);
    QuietWithStep(plan, g, t, step.(workItems := items, state := UpdatedStepState(items, step.state)));
  }

  /** A report is not ignored while its step has no output. */
  lemma LastOutputNotIgnored(s: Store, r: StepRecord, m: MemberRecord)
    requires Healthy(s) && r in s.steps && m in s.members && Matches(m, r) && r.stepIndex !in s.facts
    ensures RebuiltStep(s, r).output.sha256 == ""
    ensures forall i :: 0 <= i < |RebuiltMembers(s, r)| ==> RebuiltMembers(s, r)[i].state != MemberState.Failed
  {
    ItemsSucceeded(s, r);
  }

  // ---------------------------------------------------------------------------------------
  // Recording a terminal state

  lemma FoundMember(s: Store, r: StepRecord, m: MemberRecord)
    requires Healthy(s) && UniqueIds(s) && r in s.steps && m in s.members && Matches(m, r)
    requires HasMember(RebuiltMembers(s, r), m.id)
    ensures
      var x := RebuiltMembers(s, r)[MemberAt(RebuiltMembers(s, r), m.id)];
      x.state != MemberState.Failed && (Succeeded(x) <==> m.id in s.terminal)
  {
    RebuiltItems(s, r, MemberAt(RebuiltMembers(s, r), m.id));
  }

  /** Reporting success of an item whose attempt is already recorded changes nothing. */
  lemma SuccessAlreadyKnown(s: Store, r: StepRecord, m: MemberRecord, terminal: MemberState, reason: string)
    requires Healthy(s) && UniqueStepRecords(s) && UniqueIds(s) && r in s.steps && m in s.members && Matches(m, r)
    requires m.id in s.terminal && (terminal == MemberState.Completed || terminal == MemberState.Skipped)
    ensures RecordTerminal(s, m.id, terminal, reason) == s
  {
    Located(s, r, m);
    FoundMember(s, r, m);
  }

  /** Refusing the output of an item whose step has an output changes nothing. */
  lemma RefusalIgnored(s: Store, r: StepRecord, m: MemberRecord, reason: string)
    requires Healthy(s) && UniqueStepRecords(s) && UniqueIds(s) && r in s.steps && m in s.members && Matches(m, r)
    requires m.id in s.terminal && r.stepIndex in s.facts && s.facts[r.stepIndex].sha256 != ""
    ensures RecordTerminal(s, m.id, MemberState.Failed, reason) == s
  {
    Located(s, r, m);
    FoundMember(s, r, m);
  }

  /** Otherwise it fails the plan for good. */
  lemma RefusalFails(s: Store, r: StepRecord, m: MemberRecord, reason: string)
    requires Healthy(s) && UniqueStepRecords(s) && UniqueIds(s) && r in s.steps && m in s.members && Matches(m, r)
    requires m.id in s.terminal && r.stepIndex !in s.facts
    ensures RecordTerminal(s, m.id, MemberState.Failed, reason).saved.Some?
  {
    Located(s, r, m);
    FoundMember(s, r, m);
  }

  // ---------------------------------------------------------------------------------------
  // Empty fan-outs

  /** The steps of a stage that compiled to nothing and have neither memberships nor a fact. */
  predicate Empty(s: Store, r: StepRecord, i: int, compiled: set<int>) {
    r in s.steps && r.stageIndex == i && r.stepIndex !in compiled && !Begun(s, r)
  }

  lemma EmptyStep(s: Store, r: StepRecord, compiled: set<int>)
    requires Healthy(s) && r in s.steps
    ensures IsEmptyFanout(RebuiltStep(s, r), compiled) <==> Empty(s, r, r.stageIndex, compiled)
  {
    StepStates(s, r);
    ItemsSucceeded(s, r);
  }

  lemma {:induction false} EmptyFactsKeys(steps: seq<Step>, compiled: set<int>, empty: Output, k: int)
    ensures k in EmptyFactsOf(steps, compiled, empty) <==>
            exists t :: 0 <= t < |steps| && IsEmptyFanout(steps[t], compiled) && steps[t].stepIndex == k
    ensures k in EmptyFactsOf(steps, compiled, empty) ==> EmptyFactsOf(steps, compiled, empty)[k] == empty
  {
    if steps != [] {
      var front := steps[..|steps| - 1];
      EmptyFactsKeys(front, compiled, empty, k);
      assert forall t :: 0 <= t < |front| ==> front[t] == steps[t];
    }
  }

  /** Exactly the empty steps of the stage gain a fact. */
  lemma EmptyFactsExact(s: Store, i: int, compiled: set<int>, empty: Output, r: StepRecord)
    requires Healthy(s) && UniqueStepRecords(s) && r in s.steps
    ensures r.stepIndex in EmptyFactsOf(StepsOfStage(s, s.steps, i), compiled, empty) <==> Empty(s, r, i, compiled)
  {
    var steps := StepsOfStage(s, s.steps, i);
    EmptyFactsKeys(steps, compiled, empty, r.stepIndex);
    if r.stepIndex in EmptyFactsOf(steps, compiled, empty) {
      var t :| 0 <= t < |steps| && IsEmptyFanout(steps[t], compiled) && steps[t].stepIndex == r.stepIndex;
      var q := StageStepAt(s, i, t);
      EmptyStep(s, q, compiled);
    }
    if Empty(s, r, i, compiled) {
      var t := RecordAt(s, r);
      EmptyStep(s, r, compiled);
    }
  }

  lemma EmptyFactsHaveSteps(s: Store, i: int, compiled: set<int>, empty: Output, k: int) returns (r: StepRecord)
    requires Healthy(s) && k in EmptyFactsOf(StepsOfStage(s, s.steps, i), compiled, empty)
    ensures r.stepIndex == k && Empty(s, r, i, compiled)
    ensures EmptyFactsOf(StepsOfStage(s, s.steps, i), compiled, empty)[k] == empty
  {
    var steps := StepsOfStage(s, s.steps, i);
    EmptyFactsKeys(steps, compiled, empty, k);
    var t :| 0 <= t < |steps| && IsEmptyFanout(steps[t], compiled) && steps[t].stepIndex == k;
    r := StageStepAt(s, i, t);
    EmptyStep(s, r, compiled);
  }

  /** After the empty steps are completed, every step is when each was done or empty before. */
  lemma EmptiesComplete(s: Store, i: int, compiled: set<int>, empty: Output)
    requires Healthy(s)
    ensures
      var steps := CompleteEmptySteps(StepsOfStage(s, s.steps, i), compiled, empty);
      && !AnyStep(steps, Progress.Failed)
      && (AllSteps(steps, Progress.Completed) <==> forall r :: r in s.steps && r.stageIndex == i ==> Done(s, r) || Empty(s, r, i, compiled))
  {
    var steps := StepsOfStage(s, s.steps, i);
    var steps' := CompleteEmptySteps(steps, compiled, empty);
    forall t | 0 <= t < |steps|
      ensures steps'[t].state != Progress.Failed
    {
      var r := StageStepAt(s, i, t);
      StepStates(s, r);
    }
    if AllSteps(steps', Progress.Completed) {
      forall r | r in s.steps && r.stageIndex == i
        ensures Done(s, r) || Empty(s, r, i, compiled)
      {
        var t := RecordAt(s, r);
        assert steps'[t].state == Progress.Completed;
        StepStates(s, r);
        EmptyStep(s, r, compiled);
      }
    }
    if forall r :: r in s.steps && r.stageIndex == i ==> Done(s, r) || Empty(s, r, i, compiled) {
      forall t | 0 <= t < |steps'|
        ensures steps'[t].state == Progress.Completed
      {
        var r := StageStepAt(s, i, t);
        StepStates(s, r);
        EmptyStep(s, r, compiled);
      }
    }
  }

  lemma EmptyFanoutState(s: Store, i: int, compiled: set<int>, empty: Output)
    requires Healthy(s) && StageKnown(s, i)
    ensures
      var (plan, all) := EmptyFanout(Rebuild(s), i, compiled, empty);
      && plan.state != WorkflowState.Failed
      && (all ==> AllSteps(CompleteEmptySteps(StepsOfStage(s, s.steps, i), compiled, empty), Progress.Completed))
  {
    HealthyQuiet(s);
    StageFound(s, i);
    var before := Rebuild(s);
    var g := StageAt(before.stages, i);
    var steps := CompleteEmptySteps(before.stages[g].steps, compiled, empty);
    if AllSteps(steps, Progress.Completed) {
      PlanLaws.SubstStageKeeps(before.stages, g, before.stages[g].(steps := steps, state := Progress.Completed), Progress.Failed);
    }
  }

  /** The flag of an empty fan-out: something was empty, and nothing else is left. */
  lemma EmptyFanoutFlag(s: Store, i: int, compiled: set<int>, empty: Output)
    requires Healthy(s) && StageKnown(s, i)
    ensures
      EmptyFanout(Rebuild(s), i, compiled, empty).1 <==>
      && (exists r :: Empty(s, r, i, compiled))
      && (forall r :: r in s.steps && r.stageIndex == i ==> Done(s, r) || Empty(s, r, i, compiled))
  {
    StageFound(s, i);
    EmptiesComplete(s, i, compiled, empty);
    var steps := StepsOfStage(s, s.steps, i);
    if exists r :: Empty(s, r, i, compiled) {
      var r :| Empty(s, r, i, compiled);
      var t := RecordAt(s, r);
      EmptyStep(s, r, compiled);
      assert IsEmptyFanout(steps[t], compiled);
    }
    if t :| 0 <= t < |steps| && IsEmptyFanout(steps[t], compiled) {
      var r := StageStepAt(s, i, t);
      EmptyStep(s, r, compiled);
      assert Empty(s, r, i, compiled);
    }
  }

  lemma EmptiesEffect(s: Store, i: int, compiled: set<int>, empty: Output)
    requires Healthy(s) && StageKnown(s, i)
    ensures
      var (s', all) := RecordEmptySteps(s, i, compiled, empty);
      var steps := StepsOfStage(s, s.steps, i);
      && all == EmptyFanout(Rebuild(s), i, compiled, empty).1
      && s' == if forall t :: 0 <= t < |steps| ==> !IsEmptyFanout(steps[t], compiled) then s
               else s.(facts := s.facts + EmptyFactsOf(steps, compiled, empty))
  {
    StageFound(s, i);
    EmptyFanoutState(s, i, compiled, empty);
  }

  /** Completing empty fan-outs adds exactly their facts and says whether that finished the
      stage. */
  lemma EmptiesRecorded(s: Store, i: int, compiled: set<int>, empty: Output)
    requires Healthy(s) && UniqueStepRecords(s) && StageKnown(s, i)
    ensures
      var (s', all) := RecordEmptySteps(s, i, compiled, empty);
      var added := EmptyFactsOf(StepsOfStage(s, s.steps, i), compiled, empty);
      && s' == s.(facts := s'.facts)
      && (forall k :: k in s'.facts <==> k in s.facts || k in added)
      && (forall k :: k in s'.facts ==> s'.facts[k] == empty || (k in s.facts && s'.facts[k] == s.facts[k]))
      && all == EmptyFanout(Rebuild(s), i, compiled, empty).1
  {
    EmptiesEffect(s, i, compiled, empty);
    var steps := StepsOfStage(s, s.steps, i);
    forall k
      ensures k in EmptyFactsOf(steps, compiled, empty) ==> EmptyFactsOf(steps, compiled, empty)[k] == empty
      ensures k in EmptyFactsOf(steps, compiled, empty) ==> exists t :: 0 <= t < |steps| && IsEmptyFanout(steps[t], compiled)
    {
      EmptyFactsKeys(steps, compiled, empty, k);
    }
  }
}

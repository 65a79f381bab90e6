/** Which output is recorded for a step: the aggregate of all its memberships as the report leaves them,
    without its text once the plan has finished. */
module StepFacts {
  import opened Wrappers
  import opened PlanModel
  import opened DependencyStore
  import opened StoreLaws
  import opened StoreView
  import opened StoreEffects
  import opened RebuiltPlan

  /** No step index is recorded twice. */
  predicate DistinctStepRecords(s: Store) {
    forall i, j :: 0 <= i < j < |s.steps| ==> s.steps[i].stepIndex != s.steps[j].stepIndex
  }

  lemma DistinctAreUnique(s: Store)
    requires DistinctStepRecords(s)
    ensures UniqueStepRecords(s)
  {
    forall r, q | r in s.steps && q in s.steps && r.stepIndex == q.stepIndex
      ensures r == q
    {
      var i :| 0 <= i < |s.steps| && s.steps[i] == r;
      var j :| 0 <= j < |s.steps| && s.steps[j] == q;
      assert i == j;
    }
  }

  ghost predicate AllDone(s: Store) {
    forall q :: q in s.steps ==> Done(s, q)
  }

  /** Every step but this one is done. */
  ghost predicate OthersDone(s: Store, r: StepRecord) {
    forall q :: q in s.steps && q.stepIndex != r.stepIndex ==> Done(s, q)
  }

  // ---------------------------------------------------------------------------------------
  // When the plan finishes

  lemma {:induction false} StepIndexesDiffer(s: Store, records: seq<StepRecord>, i: int, t: nat, u: nat)
    requires forall a, b :: 0 <= a < b < |records| ==> records[a].stepIndex != records[b].stepIndex
    requires t < u < |StepsOfStage(s, records, i)|
    ensures StepsOfStage(s, records, i)[t].stepIndex != StepsOfStage(s, records, i)[u].stepIndex
  {
    var rest := StepsOfStage(s, records[1..], i);
    var head := if records[0].stageIndex == i then 1 else 0;
    assert forall k :: head <= k < |StepsOfStage(s, records, i)| ==> StepsOfStage(s, records, i)[k] == rest[k - head];
    if t >= head {
      StepIndexesDiffer(s, records[1..], i, t - head, u - head);
    } else {
      var q := StageStepHasRecord(s, records[1..], i, rest[u - 1]);
      var k :| 0 <= k < |records[1..]| && records[1..][k] == q;
      assert records[0].stepIndex != records[k + 1].stepIndex;
    }
  }

  /** The other steps of the stage are completed when they are done. */
  lemma OthersOfStage(s: Store, r: StepRecord, t: nat)
    requires Healthy(s) && DistinctStepRecords(s) && r in s.steps
    requires t < |StepsOfStage(s, s.steps, r.stageIndex)| && StepsOfStage(s, s.steps, r.stageIndex)[t] == RebuiltStep(s, r)
    ensures
      var steps := StepsOfStage(s, s.steps, r.stageIndex);
      (forall u :: 0 <= u < |steps| && u != t ==> steps[u].state == Progress.Completed) <==>
      forall q :: q in s.steps && q.stageIndex == r.stageIndex && q.stepIndex != r.stepIndex ==> Done(s, q)
  {
    var steps := StepsOfStage(s, s.steps, r.stageIndex);
    forall u | 0 <= u < |steps| && u != t
      ensures exists q :: q in s.steps && q.stageIndex == r.stageIndex && q.stepIndex != r.stepIndex && steps[u] == RebuiltStep(s, q)
                          && (steps[u].state == Progress.Completed <==> Done(s, q))
    {
      var q := StageStepAt(s, r.stageIndex, u);
      StepIndexesDiffer(s, s.steps, r.stageIndex, if u < t then u else t, if u < t then t else u);
      StepStates(s, q);
    }
    forall q | q in s.steps && q.stageIndex == r.stageIndex && q.stepIndex != r.stepIndex
      ensures exists u :: 0 <= u < |steps| && u != t && (steps[u].state == Progress.Completed <==> Done(s, q))
    {
      var u := RecordAt(s, q);
      StepStates(s, q);
    }
  }

  lemma OwnStageFinishes(s: Store, r: StepRecord, t: nat, finished: Step)
    requires Healthy(s) && DistinctStepRecords(s) && r in s.steps && finished.state == Progress.Completed
    requires t < |StepsOfStage(s, s.steps, r.stageIndex)| && StepsOfStage(s, s.steps, r.stageIndex)[t] == RebuiltStep(s, r)
    ensures
      var steps := StepsOfStage(s, s.steps, r.stageIndex)[t := finished];
      && !AnyStep(steps, Progress.Failed)
      && (UpdatedStageState(steps, RebuiltStage(s, r.stageIndex).state) == Progress.Completed <==>
          forall q :: q in s.steps && q.stageIndex == r.stageIndex && q.stepIndex != r.stepIndex ==> Done(s, q))
  {
    var before := StepsOfStage(s, s.steps, r.stageIndex);
    var steps := before[t := finished];
    assert StageKnown(s, r.stageIndex);
    StageStates(s, r.stageIndex);
    StageSteps(s, r.stageIndex);
    OthersOfStage(s, r, t);
    assert AllSteps(steps, Progress.Completed) <==> forall u :: 0 <= u < |before| && u != t ==> before[u].state == Progress.Completed by {
      assert forall u :: 0 <= u < |before| && u != t ==> steps[u] == before[u];
    }
    forall u | 0 <= u < |steps|
      ensures steps[u].state != Progress.Failed
    {
      assert u != t ==> steps[u] == before[u];
    }
    assert AnyStep(steps, Progress.Completed) by { assert steps[t].state == Progress.Completed; }
  }

  lemma OtherStages(s: Store, r: StepRecord, g: nat)
    requires Healthy(s) && r in s.steps && g < |Rebuild(s).stages| && Rebuild(s).stages[g].stageIndex == r.stageIndex
    ensures
      (forall k :: 0 <= k < |Rebuild(s).stages| && k != g ==> Rebuild(s).stages[k].state == Progress.Completed) <==>
      forall q :: q in s.steps && q.stageIndex != r.stageIndex ==> Done(s, q)
  {
    var stages, indexes := Rebuild(s).stages, StageIndexes(s.steps);
    if forall k :: 0 <= k < |stages| && k != g ==> stages[k].state == Progress.Completed {
      forall q | q in s.steps && q.stageIndex != r.stageIndex
        ensures Done(s, q)
      {
        assert StageKnown(s, q.stageIndex);
        StageFound(s, q.stageIndex);
        StageStates(s, q.stageIndex);
        assert StageDone(s, q.stageIndex);
      }
    }
    if forall q :: q in s.steps && q.stageIndex != r.stageIndex ==> Done(s, q) {
      forall k | 0 <= k < |stages| && k != g
        ensures stages[k].state == Progress.Completed
      {
        StageIndexKnown(s.steps, indexes[k]);
        IndexesDiffer(s.steps, k, g);
        StageStates(s, indexes[k]);
        assert StageDone(s, indexes[k]);
      }
    }
  }

  lemma {:induction false} IndexesDiffer(records: seq<StepRecord>, k: nat, g: nat)
    requires k < |StageIndexes(records)| && g < |StageIndexes(records)| && k != g
    ensures StageIndexes(records)[k] != StageIndexes(records)[g]
  {
    var front := StageIndexes(records[..|records| - 1]);
    if k < |front| && g < |front| {
      IndexesDiffer(records[..|records| - 1], k, g);
    }
  }

  /** A plan finishes with the step exactly when every other step is done. */
  lemma FinishesIff(s: Store, r: StepRecord, g: nat, t: nat, finished: Step)
    requires Healthy(s) && DistinctStepRecords(s) && r in s.steps && finished.state == Progress.Completed
    requires g < |Rebuild(s).stages| && Rebuild(s).stages[g].stageIndex == r.stageIndex
    requires t < |Rebuild(s).stages[g].steps| && Rebuild(s).stages[g].steps[t] == RebuiltStep(s, r)
    ensures WithStep(Rebuild(s), g, t, finished).state == (if OthersDone(s, r) then WorkflowState.Completed else WorkflowState.Running)
  {
    var plan := Rebuild(s);
    PlanShown(s);
    assert plan.stages[g] == RebuiltStage(s, r.stageIndex);
    OwnStageFinishes(s, r, t, finished);
    OtherStages(s, r, g);
    HealthyQuiet(s);
    QuietWithStep(plan, g, t, finished);
    var next := WithStep(plan, g, t, finished);
    if plan.state == WorkflowState.Running {
      assert OthersDone(s, r) <==>
        && (forall q :: q in s.steps && q.stageIndex == r.stageIndex && q.stepIndex != r.stepIndex ==> Done(s, q))
        && (forall q :: q in s.steps && q.stageIndex != r.stageIndex ==> Done(s, q)) by { ByStage(s, r); }
      AllButOne(plan.stages, next.stages, g);
    }
  }

  lemma ByStage(s: Store, r: StepRecord)
    requires DistinctStepRecords(s) && r in s.steps
    ensures OthersDone(s, r) <==>
      && (forall q :: q in s.steps && q.stageIndex == r.stageIndex && q.stepIndex != r.stepIndex ==> Done(s, q))
      && (forall q :: q in s.steps && q.stageIndex != r.stageIndex ==> Done(s, q))
  {
    DistinctAreUnique(s);
  }

  lemma AllButOne(stages: seq<Stage>, next: seq<Stage>, g: nat)
    requires g < |stages| == |next| && forall k :: 0 <= k < |stages| && k != g ==> next[k] == stages[k]
    ensures AllStages(next, Progress.Completed) <==>
      next[g].state == Progress.Completed && forall k :: 0 <= k < |stages| && k != g ==> stages[k].state == Progress.Completed
  {
    if AllStages(next, Progress.Completed) {
      forall k | 0 <= k < |stages| && k != g
        ensures stages[k].state == Progress.Completed
      {
        assert next[k] == stages[k];
      }
    }
  }

  // ---------------------------------------------------------------------------------------
  // What is recorded

  /** The step as the report leaves it, before it is aggregated. */
  function ReportedStep(s: Store, r: StepRecord, id: string, json: string, sha256: string): Step
    requires HasMember(RebuiltMembers(s, r), id)
  {
    var items := Reported(s, r, id, json, sha256);
    RebuiltStep(s, r).(workItems := items, state := UpdatedStepState(items, RebuiltStep(s, r).state))
  }

  /** An output without its text. */
  function WithoutText(o: Output): Output {
    if o.json == "" then o else Output("", o.sha256, |o.json|, true)
  }

  /** The report is of a finished plan whose step has its output. */
  ghost predicate TooLate(s: Store, r: StepRecord, id: string) {
    AllDone(s) && id in s.terminal && r.stepIndex in s.facts && s.facts[r.stepIndex].sha256 != ""
  }

  lemma Placed(s: Store, r: StepRecord, m: MemberRecord) returns (g: nat, t: nat)
    requires Healthy(s) && DistinctStepRecords(s) && UniqueIds(s) && r in s.steps && m in s.members && Matches(m, r)
    ensures PlanHasMember(Rebuild(s), m.id) && g == StageWithMember(Rebuild(s).stages, m.id) && t == StepWithMember(Rebuild(s).stages[g].steps, m.id)
    ensures Rebuild(s).stages[g].steps[t] == RebuiltStep(s, r) && Rebuild(s).stages[g].stageIndex == r.stageIndex
    ensures HasMember(RebuiltMembers(s, r), m.id)
  {
    DistinctAreUnique(s);
    Located(s, r, m);
    g := StageWithMember(Rebuild(s).stages, m.id);
    t := StepWithMember(Rebuild(s).stages[g].steps, m.id);
    var q := StageStepAt(s, StageIndexes(s.steps)[g], t);
    assert RebuiltStep(s, q).stageIndex == RebuiltStep(s, r).stageIndex;
  }

  /** The report of a recorded item, exactly: nothing changes while an output is missing, the report is
      refused when the aggregation refuses, and otherwise the step's fact becomes the aggregate of the
      step with the reported output in place, without its text if every other step is done. */
  lemma OutputExact(s: Store, r: StepRecord, m: MemberRecord, json: string, sha256: string, aggregate: Step -> Option<Output>)
    requires Healthy(s) && DistinctStepRecords(s) && UniqueIds(s) && r in s.steps && m in s.members && Matches(m, r)
    ensures HasMember(RebuiltMembers(s, r), m.id)
    ensures
      var step := ReportedStep(s, r, m.id, json, sha256);
      RecordOutput(s, m.id, json, sha256, aggregate) ==
        if TooLate(s, r, m.id) || !OutputsReady(step.workItems) then (s, true)
        else if aggregate(step).None? then (s, false)
        else
          var o := aggregate(step).value;
          (s.(facts := s.facts[r.stepIndex := if OthersDone(s, r) then WithoutText(o) else o]), true)
  {
    var g, t := Placed(s, r, m);
    var items := Reported(s, r, m.id, json, sha256);
    var step := ReportedStep(s, r, m.id, json, sha256);
    HealthyQuiet(s);
    ReportedQuiet(s, r, m.id, json, sha256);
    LateIff(s, r, m, g, t);
    if !OutputsReady(items) {
      QuietWithStep(Rebuild(s), g, t, step);
    } else if aggregate(step).Some? {
      var finished := step.(output := aggregate(step).value, state := Progress.Completed, workItems := PruneMembers(items));
      FinishesIff(s, r, g, t, finished);
    }
    ReportOutcome(s, r, m, json, sha256, aggregate, g, t);
  }

  /** The guard of the handler in terms of the store. */
  lemma LateIff(s: Store, r: StepRecord, m: MemberRecord, g: nat, t: nat)
    requires Healthy(s) && r in s.steps && m in s.members && Matches(m, r) && HasMember(RebuiltMembers(s, r), m.id) && UniqueIds(s)
    ensures
      var step := RebuiltStep(s, r);
      var x := step.workItems[MemberAt(step.workItems, m.id)];
      && x.state != MemberState.Failed
      && (Rebuild(s).state != WorkflowState.Running && IsTerminal(x.state) && step.output.sha256 != "" <==> TooLate(s, r, m.id))
  {
    PlanShown(s);
    var i := MemberAt(RebuiltMembers(s, r), m.id);
    var k := ShownIsRecorded(s, r, i);
    NoRecordedFailure(s, r, k);
  }

  lemma ReportOutcome(s: Store, r: StepRecord, m: MemberRecord, json: string, sha256: string, aggregate: Step -> Option<Output>, g: nat, t: nat)
    requires PlanHasMember(Rebuild(s), m.id) && g == StageWithMember(Rebuild(s).stages, m.id) && t == StepWithMember(Rebuild(s).stages[g].steps, m.id)
    requires Rebuild(s).stages[g].steps[t] == RebuiltStep(s, r) && HasMember(RebuiltMembers(s, r), m.id)
    requires
      var step := RebuiltStep(s, r);
      var x := step.workItems[MemberAt(step.workItems, m.id)];
      && x.state != MemberState.Failed
      && (Rebuild(s).state != WorkflowState.Running && IsTerminal(x.state) && step.output.sha256 != "" <==> TooLate(s, r, m.id))
    requires
      var step := ReportedStep(s, r, m.id, json, sha256);
      && (!OutputsReady(step.workItems) ==> WithStep(Rebuild(s), g, t, step).state != WorkflowState.Failed)
      && (OutputsReady(step.workItems) && aggregate(step).Some? ==>
            WithStep(Rebuild(s), g, t, step.(output := aggregate(step).value, state := Progress.Completed, workItems := PruneMembers(step.workItems))).state
            == (if OthersDone(s, r) then WorkflowState.Completed else WorkflowState.Running))
    ensures
      var step := ReportedStep(s, r, m.id, json, sha256);
      RecordOutput(s, m.id, json, sha256, aggregate) ==
        if TooLate(s, r, m.id) || !OutputsReady(step.workItems) then (s, true)
        else if aggregate(step).None? then (s, false)
        else
          var o := aggregate(step).value;
          (s.(facts := s.facts[r.stepIndex := if OthersDone(s, r) then WithoutText(o) else o]), true)
  {
  }
}

/** Laws of rebuilt plans: failure is absorbing across every save and rebuild, the first saved
    failure reason is never replaced, and a rebuilt plan always propagates failure upward. */
module StoreLaws {
  import opened Wrappers
  import opened PlanModel
  import PlanLaws
  import opened DependencyStore

  // ---------------------------------------------------------------------------------------
  // How rebuilt stages relate to step records

  lemma {:induction false} RebuiltStepInStage(s: Store, records: seq<StepRecord>, r: StepRecord)
    requires r in records
    ensures RebuiltStep(s, r) in StepsOfStage(s, records, r.stageIndex)
  {
    if records[0] != r {
      assert r in records[1..];
      RebuiltStepInStage(s, records[1..], r);
    }
  }

  lemma {:induction false} StageStepHasRecord(s: Store, records: seq<StepRecord>, stageIndex: int, step: Step) returns (r: StepRecord)
    requires step in StepsOfStage(s, records, stageIndex)
    ensures r in records && r.stageIndex == stageIndex && step == RebuiltStep(s, r)
  {
    if records[0].stageIndex == stageIndex && step == RebuiltStep(s, records[0]) {
      r := records[0];
    } else {
      assert step in StepsOfStage(s, records[1..], stageIndex);
      r := StageStepHasRecord(s, records[1..], stageIndex, step);
    }
  }

  lemma {:induction false} StageIndexListed(records: seq<StepRecord>, r: StepRecord)
    requires r in records
    ensures r.stageIndex in StageIndexes(records)
  {
    var front := records[..|records| - 1];
    if r in front {
      StageIndexListed(front, r);
    } else {
      assert records[|records| - 1] == r;
    }
  }

  lemma {:induction false} MemberListed(members: seq<MemberRecord>, m: MemberRecord)
    requires m in members
    ensures m in MembersOf(members, m.stageIndex, m.stepIndex)
  {
    if members[0] != m {
      assert m in members[1..];
      MemberListed(members[1..], m);
    }
  }

  lemma {:induction false} ListedMemberRecorded(members: seq<MemberRecord>, stageIndex: int, stepIndex: int, m: MemberRecord)
    requires m in MembersOf(members, stageIndex, stepIndex)
    ensures m in members && m.stageIndex == stageIndex && m.stepIndex == stepIndex
  {
    if !(members[0].stageIndex == stageIndex && members[0].stepIndex == stepIndex && members[0] == m) {
      assert m in MembersOf(members[1..], stageIndex, stepIndex);
      ListedMemberRecorded(members[1..], stageIndex, stepIndex, m);
    }
  }

  // ---------------------------------------------------------------------------------------
  // What makes a rebuilt plan failed

  /** A recorded membership of a recorded step has a failed terminal attempt. */
  ghost predicate HasFailedAttempt(s: Store) {
    exists r, m :: RecordedFailure(s, r, m)
  }

  predicate RecordedFailure(s: Store, r: StepRecord, m: MemberRecord) {
    && r in s.steps && m in s.members
    && m.stageIndex == r.stageIndex && m.stepIndex == r.stepIndex
    && m.id in s.terminal && s.terminal[m.id].failed
  }

  ghost predicate FailedForGood(s: Store) {
    s.saved.Some? || HasFailedAttempt(s)
  }

  /** Only failed plans are ever saved. */
  predicate SavedMeansFailed(s: Store) {
    s.saved.Some? ==> s.saved.value.state == WorkflowState.Failed
  }

  lemma FailedAttemptFailsStep(s: Store, r: StepRecord, m: MemberRecord)
    requires RecordedFailure(s, r, m)
    ensures RebuiltStep(s, r).state == Progress.Failed
  {
    MemberListed(s.members, m);
    var records := MembersOf(s.members, r.stageIndex, r.stepIndex);
    var i :| 0 <= i < |records| && records[i] == m;
    var items := RebuiltMembers(s, r);
    assert items[i].state == MemberState.Failed;
    assert IsTerminal(items[i].state) && AnyMember(items, MemberState.Failed);
  }

  lemma FailedAttemptFailsPlan(s: Store, r: StepRecord, m: MemberRecord)
    requires RecordedFailure(s, r, m)
    ensures Rebuild(s).state == WorkflowState.Failed
  {
    FailedAttemptFailsStep(s, r, m);
    RebuiltStepInStage(s, s.steps, r);
    StageIndexListed(s.steps, r);
    var indexes := StageIndexes(s.steps);
    var g :| 0 <= g < |indexes| && indexes[g] == r.stageIndex;
    var steps := StepsOfStage(s, s.steps, r.stageIndex);
    var t :| 0 <= t < |steps| && steps[t] == RebuiltStep(s, r);
    assert AnyStep(steps, Progress.Failed);
    var stages := Rebuild(s).stages;
    assert stages[g] == RebuiltStage(s, r.stageIndex) && stages[g].state == Progress.Failed;
    assert AnyStage(stages, Progress.Failed);
  }

  /** Without a saved plan a failed step has a membership with a failed attempt. */
  lemma FailedStepHasFailedAttempt(s: Store, r: StepRecord)
    requires s.saved.None? && r in s.steps && RebuiltStep(s, r).state == Progress.Failed
    ensures HasFailedAttempt(s)
  {
    var items := RebuiltMembers(s, r);
    assert AnyMember(items, MemberState.Failed);
    var i :| 0 <= i < |items| && items[i].state == MemberState.Failed;
    var records := MembersOf(s.members, r.stageIndex, r.stepIndex);
    ListedMemberRecorded(s.members, r.stageIndex, r.stepIndex, records[i]);
    assert RecordedFailure(s, r, records[i]);
  }

  lemma FailedPlanHasFailedAttempt(s: Store)
    requires s.saved.None? && Rebuild(s).state == WorkflowState.Failed
    ensures HasFailedAttempt(s)
  {
    var stages := Rebuild(s).stages;
    assert AnyStage(stages, Progress.Failed);
    var g :| 0 <= g < |stages| && stages[g].state == Progress.Failed;
    var index := StageIndexes(s.steps)[g];
    var steps := StepsOfStage(s, s.steps, index);
    assert stages[g] == RebuiltStage(s, index);
    assert AnyStep(steps, Progress.Failed);
    var t :| 0 <= t < |steps| && steps[t].state == Progress.Failed;
    var r := StageStepHasRecord(s, s.steps, index, steps[t]);
    FailedStepHasFailedAttempt(s, r);
  }

  /** The rebuilt plan is failed exactly when a failed plan was saved or a recorded membership has
      a failed attempt. */
  lemma RebuiltFailedIff(s: Store)
    requires SavedMeansFailed(s)
    ensures Rebuild(s).state == WorkflowState.Failed <==> FailedForGood(s)
  {
    if HasFailedAttempt(s) {
      var r, m :| RecordedFailure(s, r, m);
      FailedAttemptFailsPlan(s, r, m);
    } else if s.saved.None? && Rebuild(s).state == WorkflowState.Failed {
      FailedPlanHasFailedAttempt(s);
    }
  }

  // ---------------------------------------------------------------------------------------
  // Failure is absorbing

  /** What no event undoes. */
  ghost predicate Grows(s: Store, s': Store) {
    && s'.steps == s.steps
    && s.members <= s'.members
    && (forall id :: id in s.terminal ==> id in s'.terminal && s'.terminal[id] == s.terminal[id])
    && (s.saved.Some? ==> s'.saved.Some?)
  }

  lemma SaveGrows(s: Store, s': Store, plan: Plan)
    requires SavedMeansFailed(s) && Grows(s, s') && s'.saved == s.saved
    ensures SavedMeansFailed(Save(s', plan)) && Grows(s, Save(s', plan))
  {
  }

  lemma RecordMemberGrows(s: Store, r: MemberRecord)
    requires SavedMeansFailed(s)
    ensures SavedMeansFailed(RecordMember(s, r)) && Grows(s, RecordMember(s, r))
  {
    var added := AddMembership(Rebuild(s), r.stageIndex, r.stepIndex, r.id, r.index);
    if added.Some? {
      SaveGrows(s, s.(members := s.members + [r]), added.value);
    }
  }

  lemma RecordTerminalGrows(s: Store, id: string, terminal: MemberState, reason: string)
    requires SavedMeansFailed(s) && IsTerminal(terminal)
    ensures SavedMeansFailed(RecordTerminal(s, id, terminal, reason)) && Grows(s, RecordTerminal(s, id, terminal, reason))
  {
    var next := TerminalReport(Rebuild(s), id, terminal, reason).0;
    SaveGrows(s, UpsertPruned(s, next), next);
  }

  lemma RecordOutputGrows(s: Store, id: string, json: string, sha256: string, aggregate: Step -> Option<Output>)
    requires SavedMeansFailed(s)
    ensures
      var s' := RecordOutput(s, id, json, sha256, aggregate).0;
      SavedMeansFailed(s') && Grows(s, s')
  {
    var r := OutputReport(Rebuild(s), id, json, sha256, aggregate);
    if r.Recorded? {
      SaveGrows(s, if r.step.Some? then s.(facts := s.facts[r.step.value.stepIndex := r.step.value.output]) else s, r.plan);
    }
  }

  lemma RecordEmptyStepsGrows(s: Store, stageIndex: int, compiled: set<int>, empty: Output)
    requires SavedMeansFailed(s)
    ensures
      var s' := RecordEmptySteps(s, stageIndex, compiled, empty).0;
      SavedMeansFailed(s') && Grows(s, s')
  {
    var plan := Rebuild(s);
    var at := StageAt(plan.stages, stageIndex);
    if at < |plan.stages| {
      SaveGrows(s, s.(facts := s.facts + EmptyFactsOf(plan.stages[at].steps, compiled, empty)),
                EmptyFanout(plan, stageIndex, compiled, empty).0);
    }
  }

  lemma FailStageActivationGrows(s: Store, stageIndex: int, reason: string)
    requires SavedMeansFailed(s)
    ensures SavedMeansFailed(FailStageActivation(s, stageIndex, reason)) && Grows(s, FailStageActivation(s, stageIndex, reason))
  {
    var next := PlanModel.FailActivation(Rebuild(s), stageIndex, reason);
    SaveGrows(s, UpsertPruned(s, next), next);
  }

  /** The event concerns the queue and the attempts alone. */
  predicate MovesWork(e: Event) {
    e.Enqueues? || e.Claims? || e.Requeues? || e.Finishes?
  }

  lemma MoveGrows(s: Store, e: Event)
    requires SavedMeansFailed(s) && MovesWork(e)
    ensures SavedMeansFailed(Step1(s, e)) && Grows(s, Step1(s, e))
  {
  }

  lemma ReportGrows(s: Store, id: string, terminal: MemberState, reason: string)
    requires SavedMeansFailed(s)
    ensures SavedMeansFailed(Step1(s, Reports(id, terminal, reason))) && Grows(s, Step1(s, Reports(id, terminal, reason)))
  {
    if IsTerminal(terminal) {
      RecordTerminalGrows(s, id, terminal, reason);
    }
  }

  lemma PlanGrows(s: Store, e: Event)
    requires SavedMeansFailed(s) && !MovesWork(e) && !e.Reports?
    ensures SavedMeansFailed(Step1(s, e)) && Grows(s, Step1(s, e))
  {
    match e
    case AddsMember(r) => RecordMemberGrows(s, r);
    case Outputs(id, json, sha256, aggregate) => RecordOutputGrows(s, id, json, sha256, aggregate);
    case Empties(g, compiled, empty) => RecordEmptyStepsGrows(s, g, compiled, empty);
    case FailsActivation(g, reason) => FailStageActivationGrows(s, g, reason);
  }

  lemma StepGrows(s: Store, e: Event)
    requires SavedMeansFailed(s)
    ensures SavedMeansFailed(Step1(s, e)) && Grows(s, Step1(s, e))
  {
    if MovesWork(e) {
      MoveGrows(s, e);
    } else if e.Reports? {
      ReportGrows(s, e.id, e.terminal, e.reason);
    } else {
      PlanGrows(s, e);
    }
  }

  lemma GrowthKeepsFailure(s: Store, s': Store)
    requires Grows(s, s') && FailedForGood(s)
    ensures FailedForGood(s')
  {
    if HasFailedAttempt(s) {
      var r, m :| RecordedFailure(s, r, m);
      assert RecordedFailure(s', r, m);
    }
  }

  /** Once a rebuilt plan is failed, every later rebuild is failed, whatever events follow. */
  lemma {:induction false} FailureIsAbsorbing(s: Store, events: seq<Event>)
    requires SavedMeansFailed(s) && Rebuild(s).state == WorkflowState.Failed
    ensures Rebuild(Run(s, events)).state == WorkflowState.Failed
    decreases |events|
  {
    if events != [] {
      var s' := Step1(s, events[0]);
      RebuiltFailedIff(s);
      StepGrows(s, events[0]);
      GrowthKeepsFailure(s, s');
      RebuiltFailedIff(s');
      FailureIsAbsorbing(s', events[1..]);
    }
  }

  // ---------------------------------------------------------------------------------------
  // The first reason stays

  lemma {:induction false} ReasonKeptByScan(s: Store, records: seq<StepRecord>, reason: string)
    requires reason != ""
    ensures ReasonFromSteps(s, records, reason) == reason
  {
    if records != [] {
      ReasonKeptByScan(s, records[1..], reason);
    }
  }

  lemma RebuiltReason(s: Store)
    requires SavedReason(s) != ""
    ensures Rebuild(s).failureReason == SavedReason(s)
  {
    ReasonKeptByScan(s, s.steps, SavedReason(s));
  }

  lemma MutatorsKeepReason(plan: Plan, m: PlanLaws.Mutation)
    requires plan.failureReason != ""
    ensures PlanLaws.Mutate(plan, m).failureReason == plan.failureReason
  {
  }

  lemma SaveKeepsReason(s: Store, s': Store, plan: Plan)
    requires SavedReason(s) != "" && s'.saved == s.saved && plan.failureReason == SavedReason(s)
    ensures SavedReason(Save(s', plan)) == SavedReason(s)
  {
  }

  lemma ReportKeepsReason(s: Store, id: string, terminal: MemberState, reason: string)
    requires SavedReason(s) != "" && IsTerminal(terminal)
    ensures SavedReason(RecordTerminal(s, id, terminal, reason)) == SavedReason(s)
  {
    RebuiltReason(s);
    MutatorsKeepReason(Rebuild(s), PlanLaws.Reports(id, terminal, reason));
    var plan := TerminalReport(Rebuild(s), id, terminal, reason).0;
    SaveKeepsReason(s, UpsertPruned(s, plan), plan);
  }

  lemma OutputKeepsReason(s: Store, id: string, json: string, sha256: string, aggregate: Step -> Option<Output>)
    requires SavedReason(s) != ""
    ensures SavedReason(RecordOutput(s, id, json, sha256, aggregate).0) == SavedReason(s)
  {
    RebuiltReason(s);
    MutatorsKeepReason(Rebuild(s), PlanLaws.Outputs(id, json, sha256, aggregate));
  }

  lemma EmptiesKeepReason(s: Store, stageIndex: int, compiled: set<int>, empty: Output)
    requires SavedReason(s) != ""
    ensures SavedReason(RecordEmptySteps(s, stageIndex, compiled, empty).0) == SavedReason(s)
  {
    RebuiltReason(s);
    MutatorsKeepReason(Rebuild(s), PlanLaws.Empties(stageIndex, compiled, empty));
  }

  lemma FailureKeepsReason(s: Store, stageIndex: int, reason: string)
    requires SavedReason(s) != ""
    ensures SavedReason(FailStageActivation(s, stageIndex, reason)) == SavedReason(s)
  {
    RebuiltReason(s);
    MutatorsKeepReason(Rebuild(s), PlanLaws.FailsActivation(stageIndex, reason));
  }

  lemma MemberKeepsReason(s: Store, r: MemberRecord)
    requires SavedReason(s) != ""
    ensures SavedReason(RecordMember(s, r)) == SavedReason(s)
  {
    RebuiltReason(s);
    MutatorsKeepReason(Rebuild(s), PlanLaws.Adds(r.stageIndex, r.stepIndex, r.id, r.index));
  }

  lemma MoveKeepsReason(s: Store, e: Event)
    requires MovesWork(e)
    ensures SavedReason(Step1(s, e)) == SavedReason(s)
  {
  }

  lemma AnyReportKeepsReason(s: Store, id: string, terminal: MemberState, reason: string)
    requires SavedReason(s) != ""
    ensures SavedReason(Step1(s, Reports(id, terminal, reason))) == SavedReason(s)
  {
    if IsTerminal(terminal) {
      ReportKeepsReason(s, id, terminal, reason);
    }
  }

  lemma PlanKeepsReason(s: Store, e: Event)
    requires SavedReason(s) != "" && !MovesWork(e) && !e.Reports?
    ensures SavedReason(Step1(s, e)) == SavedReason(s)
  {
    match e
    case AddsMember(r) => MemberKeepsReason(s, r);
    case Outputs(id, json, sha256, aggregate) => OutputKeepsReason(s, id, json, sha256, aggregate);
    case Empties(g, compiled, empty) => EmptiesKeepReason(s, g, compiled, empty);
    case FailsActivation(g, reason) => FailureKeepsReason(s, g, reason);
  }

  lemma StepKeepsReason(s: Store, e: Event)
    requires SavedReason(s) != ""
    ensures SavedReason(Step1(s, e)) == SavedReason(s)
  {
    if MovesWork(e) {
      MoveKeepsReason(s, e);
    } else if e.Reports? {
      AnyReportKeepsReason(s, e.id, e.terminal, e.reason);
    } else {
      PlanKeepsReason(s, e);
    }
  }

  /** The first non-empty saved failure reason is never replaced, and every later rebuild shows
      it. */
  lemma {:induction false} FirstReasonIsKept(s: Store, events: seq<Event>)
    requires SavedReason(s) != ""
    ensures SavedReason(Run(s, events)) == SavedReason(s)
    ensures Rebuild(Run(s, events)).failureReason == SavedReason(s)
    decreases |events|
  {
    if events == [] {
      RebuiltReason(s);
    } else {
      StepKeepsReason(s, events[0]);
      FirstReasonIsKept(Step1(s, events[0]), events[1..]);
    }
  }

  // ---------------------------------------------------------------------------------------
  // Rebuilt plans propagate failure upward

  lemma RebuiltStepUp(s: Store, r: StepRecord)
    ensures PlanLaws.StepUp(RebuiltStep(s, r))
  {
    var items := RebuiltMembers(s, r);
    if AnyMember(items, MemberState.Failed) {
      var i :| 0 <= i < |items| && items[i].state == MemberState.Failed;
      assert IsTerminal(items[i].state);
    }
  }

  lemma RebuiltStageUp(s: Store, stageIndex: int)
    ensures PlanLaws.StageUp(RebuiltStage(s, stageIndex))
  {
    var steps := StepsOfStage(s, s.steps, stageIndex);
    forall t | 0 <= t < |steps|
      ensures PlanLaws.StepUp(steps[t])
    {
      var r := StageStepHasRecord(s, s.steps, stageIndex, steps[t]);
      RebuiltStepUp(s, r);
    }
  }

  lemma RebuiltFailureUp(s: Store)
    ensures PlanLaws.FailureUp(Rebuild(s))
  {
    var indexes := StageIndexes(s.steps);
    forall g | 0 <= g < |indexes|
      ensures PlanLaws.StageUp(Rebuild(s).stages[g])
    {
      RebuiltStageUp(s, indexes[g]);
    }
  }
}

/** What a rebuilt plan shows of a store without a failure, record by record: the state and the output
    of every membership, and the state of every step and stage in terms of queue and attempts. */
module RebuiltPlan {
  import opened PlanModel
  import opened DependencyStore
  import opened StoreLaws
  import opened StoreView

  /** The membership of a recorded item: completed, skipped or failed as its attempt was, running, or
      else queued; a success shows the attempt's text and digest, with the text pruned once the step has
      its output, and a failure shows its error. */
  predicate Shown(x: Membership, s: Store, m: MemberRecord, hasFact: bool) {
    var finished := m.id in s.terminal;
    && x.id == m.id && x.index == m.index
    && (x.state == MemberState.Failed <==> finished && s.terminal[m.id].failed)
    && (x.state == MemberState.Completed <==> finished && !s.terminal[m.id].failed && !s.terminal[m.id].skipped)
    && (x.state == MemberState.Skipped <==> finished && !s.terminal[m.id].failed && s.terminal[m.id].skipped)
    && (x.state == MemberState.Running <==> !finished && m.id in s.running)
    && (x.state == Queued <==> !finished && m.id !in s.running)
    && x.failureReason == (if finished && s.terminal[m.id].failed then s.terminal[m.id].error else "")
    && (!finished || s.terminal[m.id].failed ==> x.output == Output("", "", 0, false))
    && (finished && !s.terminal[m.id].failed ==>
          var t := s.terminal[m.id];
          && x.output.sha256 == t.outputSha256 && x.output.bytes == |t.outputJson|
          && x.output.json == (if hasFact then "" else t.outputJson)
          && x.output.pruned == (hasFact && t.outputJson != ""))
  }

  lemma MembershipShown(s: Store, m: MemberRecord, hasFact: bool)
    requires s.saved.None?
    ensures Shown(RebuiltMembership(s, m, hasFact), s, m, hasFact)
  {
  }

  /** Every recorded item is a membership of its step in the rebuilt plan, shown as it stands in the
      store, and the step carries its record's name and its output. */
  lemma MemberShown(s: Store, r: StepRecord, m: MemberRecord) returns (g: nat, t: nat, i: nat)
    requires s.saved.None? && r in s.steps && m in s.members && Matches(m, r)
    ensures g < |Rebuild(s).stages| && Rebuild(s).stages[g].stageIndex == r.stageIndex
    ensures
      var steps := Rebuild(s).stages[g].steps;
      && t < |steps| && steps[t].stepIndex == r.stepIndex && steps[t].stepId == r.stepId
      && steps[t].output == (if r.stepIndex in s.facts then s.facts[r.stepIndex] else Output("", "", 0, false))
      && i < |steps[t].workItems| && Shown(steps[t].workItems[i], s, m, r.stepIndex in s.facts)
  {
    StageFound(s, r.stageIndex);
    g := StageAt(Rebuild(s).stages, r.stageIndex);
    t := RecordAt(s, r);
    i := MemberHasItem(s, r, m);
    MembershipShown(s, m, r.stepIndex in s.facts);
  }

  /** And every membership of a rebuilt step is that of a record. */
  lemma ShownIsRecorded(s: Store, r: StepRecord, i: nat) returns (m: MemberRecord)
    requires s.saved.None? && i < |RebuiltStep(s, r).workItems|
    ensures m in s.members && Matches(m, r) && Shown(RebuiltStep(s, r).workItems[i], s, m, r.stepIndex in s.facts)
  {
    m := MembersOf(s.members, r.stageIndex, r.stepIndex)[i];
    ListedMemberRecorded(s.members, r.stageIndex, r.stepIndex, m);
    MembershipShown(s, m, r.stepIndex in s.facts);
  }

  /** A step fails with the attempt of one of its recorded items, also when it has its output. */
  lemma FailedStepShown(s: Store, r: StepRecord)
    requires s.saved.None?
    ensures RebuiltStep(s, r).state == Progress.Failed <==>
            exists m :: m in s.members && Matches(m, r) && m.id in s.terminal && s.terminal[m.id].failed
  {
    var items := RebuiltMembers(s, r);
    if m :| m in s.members && Matches(m, r) && m.id in s.terminal && s.terminal[m.id].failed {
      var i := MemberHasItem(s, r, m);
      MembershipShown(s, m, r.stepIndex in s.facts);
      assert items[i].state == MemberState.Failed;
    }
    if i :| 0 <= i < |items| && items[i].state == MemberState.Failed {
      var m := ShownIsRecorded(s, r, i);
    }
  }

  /** Some recorded item of the step runs or has run. */
  predicate Attempted(s: Store, r: StepRecord) {
    exists m :: m in s.members && Matches(m, r) && (m.id in s.running || m.id in s.terminal)
  }

  lemma AttemptedShown(s: Store, r: StepRecord)
    requires Healthy(s) && r in s.steps
    ensures
      var items := RebuiltStep(s, r).workItems;
      Attempted(s, r) <==> AnyMember(items, MemberState.Running) || AnySucceeded(items)
  {
    var items := RebuiltMembers(s, r);
    if Attempted(s, r) {
      var m :| m in s.members && Matches(m, r) && (m.id in s.running || m.id in s.terminal);
      var i := MemberHasItem(s, r, m);
      MembershipShown(s, m, r.stepIndex in s.facts);
      NoRecordedFailure(s, r, m);
      assert items[i].state == MemberState.Running || Succeeded(items[i]);
    }
    if i :| 0 <= i < |items| && (items[i].state == MemberState.Running || Succeeded(items[i])) {
      var m := ShownIsRecorded(s, r, i);
    }
  }

  /** A step is completed with an output or with all its recorded items finished, active when some item
      runs or has run, ready when items are recorded and all of them wait in the queue, and else blocked. */
  lemma StepShown(s: Store, r: StepRecord)
    requires Healthy(s) && r in s.steps
    ensures
      var state := RebuiltStep(s, r).state;
      && (state == Progress.Completed <==> Done(s, r))
      && (state == Active <==> !Done(s, r) && Attempted(s, r))
      && (state == Ready <==> !Done(s, r) && !Attempted(s, r) && HasMembers(s, r))
      && (state == Blocked <==> !Begun(s, r))
  {
    StepStates(s, r);
    AttemptedShown(s, r);
    ItemsSucceeded(s, r);
  }

  /** Some step of the stage is completed or active. */
  ghost predicate StageAttempted(s: Store, i: int) {
    exists r :: r in s.steps && r.stageIndex == i && (Done(s, r) || Attempted(s, r))
  }

  /** A stage is completed when all its steps are, active when some step is completed or active, and
      blocked when none has begun and there is an earlier stage; otherwise it is ready. */
  lemma StageShown(s: Store, i: int)
    requires Healthy(s) && StageKnown(s, i)
    ensures
      var state := RebuiltStage(s, i).state;
      && (state == Progress.Completed <==> StageDone(s, i))
      && (state == Active <==> !StageDone(s, i) && StageAttempted(s, i))
      && (state == Blocked <==> !StageBegun(s, i) && exists r :: r in s.steps && r.stageIndex < i)
      && state != Progress.Failed
  {
    StageStates(s, i);
    StageAttemptedShown(s, i);
    EarlierStage(s, i);
    StageSteps(s, i);
  }

  lemma EarlierStage(s: Store, i: int)
    ensures DependencyStore.IsEarliest(s.steps, i) <==> !exists r :: r in s.steps && r.stageIndex < i
  {
    if r :| r in s.steps && r.stageIndex < i {
      var k :| 0 <= k < |s.steps| && s.steps[k] == r;
    }
  }

  lemma StageAttemptedShown(s: Store, i: int)
    requires Healthy(s)
    ensures
      var steps := StepsOfStage(s, s.steps, i);
      StageAttempted(s, i) <==> AnyStep(steps, Active) || AnyStep(steps, Progress.Completed)
  {
    var steps := StepsOfStage(s, s.steps, i);
    if StageAttempted(s, i) {
      var r :| r in s.steps && r.stageIndex == i && (Done(s, r) || Attempted(s, r));
      var t := RecordAt(s, r);
      StepShown(s, r);
      assert steps[t].state == Active || steps[t].state == Progress.Completed;
    }
    if t :| 0 <= t < |steps| && (steps[t].state == Active || steps[t].state == Progress.Completed) {
      var r := StageStepAt(s, i, t);
      StepShown(s, r);
    }
  }

  /** The plan of such a store is completed when all its steps are done and running otherwise. */
  lemma PlanShown(s: Store)
    requires Healthy(s) && s.steps != []
    ensures Rebuild(s).runId == s.runId && Rebuild(s).workflowId == s.workflowId && Rebuild(s).failureReason == ""
    ensures Rebuild(s).state == (if forall r :: r in s.steps ==> Done(s, r) then WorkflowState.Completed else WorkflowState.Running)
  {
    HealthyPlanState(s);
    NoReason(s, s.steps);
    var stages, indexes := Rebuild(s).stages, StageIndexes(s.steps);
    assert s.steps[0] in s.steps;
    StageIndexListed(s.steps, s.steps[0]);
    if forall r :: r in s.steps ==> Done(s, r) {
      forall g | 0 <= g < |stages|
        ensures stages[g].state == Progress.Completed
      {
        StageIndexKnown(s.steps, indexes[g]);
        StageStates(s, indexes[g]);
        assert StageDone(s, indexes[g]);
      }
    } else {
      var r :| r in s.steps && !Done(s, r);
      assert StageKnown(s, r.stageIndex);
      StageFound(s, r.stageIndex);
      StageStates(s, r.stageIndex);
      var g := StageAt(stages, r.stageIndex);
      assert !StageDone(s, r.stageIndex);
      assert stages[g].state != Progress.Completed;
    }
  }

  lemma {:induction false} NoReason(s: Store, records: seq<StepRecord>)
    requires Healthy(s) && (forall r :: r in records ==> r in s.steps)
    ensures ReasonFromSteps(s, records, "") == ""
  {
    if records != [] {
      assert records[0] in records;
      StepStates(s, records[0]);
      NoReason(s, records[1..]);
    }
  }
}

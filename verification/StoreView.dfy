/** What the plan mutators read and write in a store with no failure, said directly in terms of
    its records: which steps and stages count as completed or blocked, and what each recording
    operation adds. */
module StoreView {
  import opened PlanModel
  import opened DependencyStore
  import opened StoreLaws

  predicate Matches(m: MemberRecord, r: StepRecord) {
    m.stageIndex == r.stageIndex && m.stepIndex == r.stepIndex
  }

  predicate HasMembers(s: Store, r: StepRecord) {
    exists m :: m in s.members && Matches(m, r)
  }

  predicate AllTerminal(s: Store, r: StepRecord) {
    forall m :: m in s.members && Matches(m, r) ==> m.id in s.terminal
  }

  /** The step has an output fact, or recorded memberships which all have a terminal attempt. */
  predicate Done(s: Store, r: StepRecord) {
    r.stepIndex in s.facts || (HasMembers(s, r) && AllTerminal(s, r))
  }

  predicate Begun(s: Store, r: StepRecord) {
    r.stepIndex in s.facts || HasMembers(s, r)
  }

  ghost predicate Healthy(s: Store) {
    !FailedForGood(s)
  }

  lemma NoRecordedFailure(s: Store, r: StepRecord, m: MemberRecord)
    requires Healthy(s) && r in s.steps && m in s.members && Matches(m, r)
    ensures m.id in s.terminal ==> !s.terminal[m.id].failed
  {
    assert !RecordedFailure(s, r, m);
  }

  lemma RebuiltMemberState(s: Store, r: StepRecord, m: MemberRecord)
    requires Healthy(s) && r in s.steps && m in s.members && Matches(m, r)
    ensures
      var x := RebuiltMembership(s, m, r.stepIndex in s.facts);
      && x.id == m.id && x.index == m.index
      && x.state != MemberState.Failed
      && (Succeeded(x) <==> m.id in s.terminal)
      && (r.stepIndex !in s.facts && m.id in s.terminal ==> x.output.json == s.terminal[m.id].outputJson)
  {
    NoRecordedFailure(s, r, m);
  }

  /** The memberships of a rebuilt step, position by position. */
  lemma RebuiltItems(s: Store, r: StepRecord, i: nat)
    requires Healthy(s) && r in s.steps && i < |RebuiltMembers(s, r)|
    ensures
      var m := MembersOf(s.members, r.stageIndex, r.stepIndex)[i];
      var x := RebuiltMembers(s, r)[i];
      && m in s.members && Matches(m, r)
      && x.id == m.id && x.index == m.index && x.state != MemberState.Failed
      && (Succeeded(x) <==> m.id in s.terminal)
      && (r.stepIndex !in s.facts && m.id in s.terminal ==> x.output.json == s.terminal[m.id].outputJson)
  {
    var m := MembersOf(s.members, r.stageIndex, r.stepIndex)[i];
    ListedMemberRecorded(s.members, r.stageIndex, r.stepIndex, m);
    RebuiltMemberState(s, r, m);
  }

  lemma MemberHasItem(s: Store, r: StepRecord, m: MemberRecord) returns (i: nat)
    requires m in s.members && Matches(m, r)
    ensures i < |RebuiltMembers(s, r)| && MembersOf(s.members, r.stageIndex, r.stepIndex)[i] == m
  {
    MemberListed(s.members, m);
    i :| 0 <= i < |MembersOf(s.members, r.stageIndex, r.stepIndex)| && MembersOf(s.members, r.stageIndex, r.stepIndex)[i] == m;
  }

  lemma ItemsSucceeded(s: Store, r: StepRecord)
    requires Healthy(s) && r in s.steps
    ensures AllSucceeded(RebuiltMembers(s, r)) <==> AllTerminal(s, r)
    ensures RebuiltMembers(s, r) != [] <==> HasMembers(s, r)
    ensures !AnyMember(RebuiltMembers(s, r), MemberState.Failed)
  {
    var items := RebuiltMembers(s, r);
    forall i | 0 <= i < |items|
      ensures items[i].state != MemberState.Failed
    {
      RebuiltItems(s, r, i);
    }
    if AllSucceeded(items) {
      forall m | m in s.members && Matches(m, r)
        ensures m.id in s.terminal
      {
        var i := MemberHasItem(s, r, m);
        RebuiltItems(s, r, i);
      }
    }
    if AllTerminal(s, r) {
      forall i | 0 <= i < |items|
        ensures Succeeded(items[i])
      {
        RebuiltItems(s, r, i);
      }
    }
    if items != [] {
      RebuiltItems(s, r, 0);
    }
    if HasMembers(s, r) {
      var m :| m in s.members && Matches(m, r);
      var i := MemberHasItem(s, r, m);
    }
  }

  lemma StepStates(s: Store, r: StepRecord)
    requires Healthy(s) && r in s.steps
    ensures RebuiltStep(s, r).state != Progress.Failed
    ensures RebuiltStep(s, r).state == Progress.Completed <==> Done(s, r)
    ensures RebuiltStep(s, r).state == Blocked <==> !Begun(s, r)
  {
    ItemsSucceeded(s, r);
    var items := RebuiltMembers(s, r);
    if items != [] {
      var state := items[0].state;
      assert AnyMember(items, state);
      if Succeeded(items[0]) {
        assert AnySucceeded(items);
      }
    }
  }

  ghost predicate StageKnown(s: Store, i: int) {
    exists r :: r in s.steps && r.stageIndex == i
  }

  lemma {:induction false} StageIndexKnown(records: seq<StepRecord>, i: int)
    requires i in StageIndexes(records)
    ensures exists r :: r in records && r.stageIndex == i
  {
    var front := records[..|records| - 1];
    if i in StageIndexes(front) {
      StageIndexKnown(front, i);
      var r :| r in front && r.stageIndex == i;
      assert r in records;
    } else {
      assert records[|records| - 1] in records;
    }
  }

  /** The rebuilt plan has a stage for exactly the known indexes. */
  lemma StageFound(s: Store, i: int)
    ensures
      var stages := Rebuild(s).stages;
      var g := StageAt(stages, i);
      && (g < |stages| <==> StageKnown(s, i))
      && (g < |stages| ==> stages[g] == RebuiltStage(s, i))
  {
    var stages := Rebuild(s).stages;
    var indexes := StageIndexes(s.steps);
    var g := StageAt(stages, i);
    if g < |stages| {
      assert stages[g] == RebuiltStage(s, indexes[g]);
      StageIndexKnown(s.steps, i);
    }
    if StageKnown(s, i) {
      var r :| r in s.steps && r.stageIndex == i;
      StageIndexListed(s.steps, r);
      var k :| 0 <= k < |indexes| && indexes[k] == i;
      assert stages[k].stageIndex == i;
    }
  }

  lemma StageStepAt(s: Store, i: int, t: nat) returns (r: StepRecord)
    requires t < |StepsOfStage(s, s.steps, i)|
    ensures r in s.steps && r.stageIndex == i && StepsOfStage(s, s.steps, i)[t] == RebuiltStep(s, r)
  {
    r := StageStepHasRecord(s, s.steps, i, StepsOfStage(s, s.steps, i)[t]);
  }

  lemma RecordAt(s: Store, r: StepRecord) returns (t: nat)
    requires r in s.steps
    ensures t < |StepsOfStage(s, s.steps, r.stageIndex)| && StepsOfStage(s, s.steps, r.stageIndex)[t] == RebuiltStep(s, r)
  {
    RebuiltStepInStage(s, s.steps, r);
    var steps := StepsOfStage(s, s.steps, r.stageIndex);
    t :| 0 <= t < |steps| && steps[t] == RebuiltStep(s, r);
  }

  predicate StageDone(s: Store, i: int) {
    forall r :: r in s.steps && r.stageIndex == i ==> Done(s, r)
  }

  predicate StageBegun(s: Store, i: int) {
    exists r :: r in s.steps && r.stageIndex == i && Begun(s, r)
  }

  lemma StageSteps(s: Store, i: int)
    requires Healthy(s)
    ensures
      var steps := StepsOfStage(s, s.steps, i);
      && !AnyStep(steps, Progress.Failed)
      && (AllSteps(steps, Progress.Completed) <==> StageDone(s, i))
      && (AllSteps(steps, Blocked) <==> !StageBegun(s, i))
  {
    var steps := StepsOfStage(s, s.steps, i);
    forall t | 0 <= t < |steps|
      ensures steps[t].state != Progress.Failed
    {
      var r := StageStepAt(s, i, t);
      StepStates(s, r);
    }
    if AllSteps(steps, Progress.Completed) {
      forall r | r in s.steps && r.stageIndex == i
        ensures Done(s, r)
      {
        var t := RecordAt(s, r);
        StepStates(s, r);
      }
    }
    if StageDone(s, i) {
      forall t | 0 <= t < |steps|
        ensures steps[t].state == Progress.Completed
      {
        var r := StageStepAt(s, i, t);
        StepStates(s, r);
      }
    }
    if StageBegun(s, i) {
      var r :| r in s.steps && r.stageIndex == i && Begun(s, r);
      var t := RecordAt(s, r);
      StepStates(s, r);
      assert steps[t].state != Blocked;
    } else {
      forall t | 0 <= t < |steps|
        ensures steps[t].state == Blocked
      {
        var r := StageStepAt(s, i, t);
        StepStates(s, r);
      }
    }
  }

  /** In a healthy store a known stage is completed when all its steps are done, and blocked when
      it is not the first one and none of its steps has begun. */
  lemma StageStates(s: Store, i: int)
    requires Healthy(s) && StageKnown(s, i)
    ensures RebuiltStage(s, i).state == Progress.Completed <==> StageDone(s, i)
    ensures RebuiltStage(s, i).state == Blocked <==> !StageBegun(s, i) && !DependencyStore.IsEarliest(s.steps, i)
    ensures RebuiltStage(s, i).state != Progress.Failed
  {
    StageSteps(s, i);
    var steps := StepsOfStage(s, s.steps, i);
    var r :| r in s.steps && r.stageIndex == i;
    var t := RecordAt(s, r);
    StepStates(s, r);
    if StageBegun(s, i) {
      var k :| 0 <= k < |steps| && steps[k].state != Blocked;
      assert AnyStep(steps, steps[k].state);
    } else {
      assert steps[t].state == Blocked;
    }
  }

  lemma HealthyPlanState(s: Store)
    requires Healthy(s)
    ensures Rebuild(s).state != WorkflowState.Failed
  {
    RebuiltFailedIff(s);
  }
}

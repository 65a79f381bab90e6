/** Repeating a completion report. The handler is meant to be idempotent: a repeated report must not
    queue the next stage twice. When it is harmless is stated exactly, for reports of every kind. */
module WorkflowReplay {
  import opened PlanModel
  import opened DependencyStore
  import opened StoreLaws
  import opened StoreView
  import opened StoreEffects
  import opened WorkflowRun
  import opened WorkflowRunInv
  import opened WorkflowRunParts
  import opened WorkflowRunRelease
  import opened WorkflowRunStages
  import opened WorkflowRunOpening
  import opened WorkflowRunLaws
  import opened WorkflowRunTheorems

  /** The same work, queued, running, finished and recorded alike, and no new failure. */
  predicate SameWork(c: Controller, c': Controller) {
    && c'.work == c.work && c'.released == c.released
    && Frame(c.store, c'.store) && c'.store.members == c.store.members && c'.store.saved == c.store.saved
  }

  /** The handler finds its own stage completed and the next one blocked. */
  predicate Reopens(s: Store, stageIndex: int) {
    StageIs(s, stageIndex, Progress.Completed) && StageIs(s, stageIndex + 1, Blocked)
  }

  /** Everything the stage would queue at this time is known and still queued with this time. */
  predicate StillQueued(cfg: Config, c: Controller, i: int, at: int) {
    && cfg.compile(i).Some?
    && var items := NewItems(cfg, i, at);
       && (forall x :: x in items ==> x in c.work)
       && (forall x :: x in Undeferred(items, Ids(items)) ==>
             x.id in c.store.queued && x.id in c.queuedAt && c.queuedAt[x.id] == at)
  }

  /** Trying the stage after this one at this time queues nothing and fails nothing. */
  predicate Harmless(cfg: Config, c: Controller, stageIndex: int, at: int) {
    !Reopens(c.store, stageIndex) || StillQueued(cfg, c, stageIndex + 1, at)
  }

  /** The output of the attempt is resolved and recorded without an error. */
  predicate Accepted(cfg: Config, c: Controller, x: Item, attempt: Terminal) {
    && cfg.resolves(attempt.outputJson)
    && RecordOutput(c.store, x.id, attempt.outputJson, attempt.outputSha256, cfg.aggregate).1
  }

  /** The condition under which repeating a report is harmless: nobody waits for this item alone, and
      the next stage is left alone; an output refused again must find the output of its step. */
  predicate ReplayHarmless(cfg: Config, c: Controller, x: Item, attempt: Terminal, at: int) {
    if attempt.failed then true
    else if x.asset then ReadyItems(c, x.id) == []
    else if Accepted(cfg, c, x, attempt) then ReadyItems(c, x.id) == [] && Harmless(cfg, c, x.stageIndex, at)
    else x.stepIndex in c.store.facts
  }

  // ---------------------------------------------------------------------------------------
  // The output is taken in again

  /** Facts on the same steps: every step and stage is in the same state. */
  predicate SameFactSteps(s: Store, s': Store) {
    && s' == s.(facts := s'.facts)
    && (forall r :: r in s.steps ==> (r.stepIndex in s.facts <==> r.stepIndex in s'.facts))
  }

  lemma SameStepViews(s: Store, s': Store, r: StepRecord)
    requires SameFactSteps(s, s') && r in s.steps
    ensures Done(s, r) <==> Done(s', r)
    ensures Begun(s, r) <==> Begun(s', r)
  {
    assert HasMembers(s, r) <==> HasMembers(s', r);
    assert AllTerminal(s, r) <==> AllTerminal(s', r);
  }

  lemma SameStageViews(s: Store, s': Store, i: int)
    requires Healthy(s) && Healthy(s') && SameFactSteps(s, s')
    ensures StageIs(s, i, Progress.Completed) <==> StageIs(s', i, Progress.Completed)
    ensures StageIs(s, i, Blocked) <==> StageIs(s', i, Blocked)
  {
    StageFound(s, i);
    StageFound(s', i);
    if StageKnown(s, i) {
      StageStates(s, i);
      StageStates(s', i);
      forall r | r in s.steps
        ensures Done(s, r) <==> Done(s', r)
        ensures Begun(s, r) <==> Begun(s', r)
      {
        SameStepViews(s, s', r);
      }
    }
  }

  lemma OutputAgain(cfg: Config, c: Controller, f: int, x: Item, json: string, sha256: string)
    requires CleanAt(cfg, c, f) && x in c.work && !x.asset && x.id in c.store.terminal && json != ""
    ensures SameFactSteps(c.store, RecordOutput(c.store, x.id, json, sha256, cfg.aggregate).0)
    ensures Healthy(RecordOutput(c.store, x.id, json, sha256, cfg.aggregate).0)
  {
    var r := StepOf(cfg, c, x);
    assert Touched(c.store, x.id);
    CleanHealthy(c);
    CleanUniqueIds(cfg, c);
    if AllTerminal(c.store, r) {
      assert HasMembers(c.store, r) by { assert MemberOf(x) in c.store.members && Matches(MemberOf(x), r); }
      OutputRecorded(c.store, r, MemberOf(x), json, sha256, cfg.aggregate);
    } else {
      UnfinishedAddsNothing(c.store, r, MemberOf(x), json, sha256, cfg.aggregate);
    }
    var s := RecordOutput(c.store, x.id, json, sha256, cfg.aggregate).0;
    assert forall q, k :: RecordedFailure(s, q, k) ==> RecordedFailure(c.store, q, k);
  }

  // ---------------------------------------------------------------------------------------
  // Nothing is released again

  lemma NothingReady(c: Controller, done: string)
    requires WaitersSound(c, {}) && c.refused == {}
    ensures ReadyItems(c, done) == []
  {
    forall x | x in c.work
      ensures !IsReady(c, done, x)
    {
      if !Touched(c.store, x.id) {
        assert Waits(c, x, {});
      }
    }
    KeepNone(c.work, (x: Item) => IsReady(c, done, x));
  }

  lemma NothingReleased(c: Controller, done: string, at: int)
    requires ReadyItems(c, done) == []
    ensures EnqueueReady(c, done, at) == (c, true)
  {
    assert Ids([]) == {};
    assert c.store.queued + {} == c.store.queued;
    assert Stamped(c.queuedAt, {}, at) == c.queuedAt;
    assert c.released + IdList([]) == c.released;
  }

  lemma {:induction false} SameKeep(items: seq<Item>, p: Item -> bool, q: Item -> bool)
    requires forall x :: x in items ==> p(x) == q(x)
    ensures Keep(items, p) == Keep(items, q)
  {
    if items != [] {
      assert items[0] in items;
      SameKeep(items[1..], p, q);
    }
  }

  lemma SameReady(c: Controller, c1: Controller, done: string)
    requires c1.work == c.work && Frame(c.store, c1.store)
    ensures ReadyItems(c1, done) == ReadyItems(c, done)
  {
    SameKeep(c.work, (x: Item) => IsReady(c1, done, x), (x: Item) => IsReady(c, done, x));
  }

  /** A release puts the released items into the queue. */
  lemma ReleaseQueues(c: Controller, done: string, at: int)
    requires ReadyItems(c, done) == [] || forall x :: x in ReadyItems(c, done) ==> StepKnown(c.store, x)
    ensures Ids(ReadyItems(c, done)) <= EnqueueReady(c, done, at).0.store.queued
  {
    var ready := ReadyItems(c, done);
    RecordMembersFrame(Enqueued(c, ready, at).store, ready);
  }

  // ---------------------------------------------------------------------------------------
  // The next stage is tried again

  lemma SameFactsOnward(cfg: Config, c: Controller, c': Controller, f: int)
    requires Onward(cfg, c, f, false) && c' == c.(store := c'.store) && SameFactSteps(c.store, c'.store)
    ensures Onward(cfg, c', f, false)
  {
    forall r | r in c'.store.steps && r.stepIndex in c'.store.facts
      ensures HasMembers(c'.store, r) || IsUncompiled(cfg, r)
    {
      assert HasMembers(c.store, r) ==> HasMembers(c'.store, r);
    }
    assert Settled(c.store, f) <==> Settled(c'.store, f);
  }

  /** The stage found blocked behind a completed one is the last one opened. */
  lemma ReopenedIsLast(cfg: Config, c: Controller, f: int, stageIndex: int)
    requires CleanAt(cfg, c, f) && Onward(cfg, c, f, false) && Reopens(c.store, stageIndex)
    ensures stageIndex + 1 == f && StageOpened(cfg, c, f)
    ensures StageKnown(c.store, f) && !StageBegun(c.store, f)
  {
    var i := stageIndex + 1;
    CleanHealthy(c);
    BlockedStage(c.store, i);
    BlockedNotBefore(c, f, i);
    CompletedStageSettled(cfg, c, f, stageIndex);
    CompletedBefore(cfg, c, f, stageIndex);
    var r :| r in c.store.steps && r.stageIndex == i;
    assert !Begun(c.store, r);
  }

  lemma CompletedBefore(cfg: Config, c: Controller, f: int, i: int)
    requires CleanAt(cfg, c, f) && StageIs(c.store, i, Progress.Completed) && FactsBelow(c.store, i + 1)
    ensures i <= f && (i == f ==> Settled(c.store, f))
  {
    StageFound(c.store, i);
    var q :| q in c.store.steps && q.stageIndex == i;
    assert FactKnown(c.store, q.stepIndex, f);
  }

  /** A stage all of whose steps compiled to something has nothing to complete at once. */
  lemma NoEmpties(s: Store, i: int, compiled: set<int>, empty: Output)
    requires Healthy(s) && StageKnown(s, i)
    requires forall r :: r in s.steps && r.stageIndex == i ==> r.stepIndex in compiled
    ensures RecordEmptySteps(s, i, compiled, empty) == (s, false)
  {
    EmptyFanoutFlag(s, i, compiled, empty);
    EmptiesEffect(s, i, compiled, empty);
    var steps := StepsOfStage(s, s.steps, i);
    forall t | 0 <= t < |steps|
      ensures !IsEmptyFanout(steps[t], compiled)
    {
      var r := StageStepAt(s, i, t);
      EmptyStep(s, r, compiled);
    }
  }

  /** An opened stage not yet begun has no empty steps to complete. */
  lemma NoEmptiesAgain(cfg: Config, c: Controller, f: int)
    requires CleanAt(cfg, c, f) && StageOpened(cfg, c, f) && StageKnown(c.store, f) && !StageBegun(c.store, f)
    ensures RecordEmptySteps(c.store, f, CompiledSteps(cfg.compile(f).value), cfg.empty) == (c.store, false)
    ensures cfg.compile(f).value != []
  {
    var compiled := CompiledSteps(cfg.compile(f).value);
    CleanHealthy(c);
    forall r | r in c.store.steps && r.stageIndex == f
      ensures r.stepIndex in compiled
    {
      assert !Begun(c.store, r);
    }
    NoEmpties(c.store, f, compiled, cfg.empty);
    var q :| q in c.store.steps && q.stageIndex == f;
  }

  lemma StillQueuedAccepted(cfg: Config, c: Controller, f: int, at: int)
    requires WorkSound(cfg, c.work) && StillQueued(cfg, c, f, at)
    ensures
      var items := NewItems(cfg, f, at);
      QueueItems(c, items, Undeferred(items, Ids(items)), at).Some?
  {
    var items := NewItems(cfg, f, at);
    forall i, j | 0 <= i < j < |items|
      ensures items[i].id != items[j].id
    {
      assert items[i] in items && items[j] in items;
      if items[i].id == items[j].id {
        SameId(c.work, items[i], items[j]);
      }
    }
    forall x, y | x in items && y in c.work && x.id == y.id
      ensures x == y
    {
      SameId(c.work, x, y);
    }
  }

  lemma AcceptedIsKnown(cfg: Config, c: Controller, f: int, at: int)
    requires WorkSound(cfg, c.work) && StageOpened(cfg, c, f) && cfg.compile(f).value != []
    requires Insertable(c.work, NewItems(cfg, f, at))
    ensures forall x :: x in NewItems(cfg, f, at) ==> x in c.work
  {
    var items := NewItems(cfg, f, at);
    AllOrNothing(cfg, c.work, f, at);
    assert InWork(c.work, f, 0);
    var y :| y in c.work && y.stageIndex == f && y.index == 0;
    RecordsCompiled(cfg, f, at, items[0]);
    SamePosition(cfg, items[0], y);
    assert items[0] in items;
    InIds(c.work, y);
  }

  lemma AcceptedAgain(cfg: Config, c: Controller, f: int, at: int)
    requires CleanAt(cfg, c, f) && StageOpened(cfg, c, f) && NoMembersOn(c.store, f) && cfg.compile(f).value != []
    requires
      var items := NewItems(cfg, f, at);
      QueueItems(c, items, Undeferred(items, Ids(items)), at).Some?
    ensures
      var items := NewItems(cfg, f, at);
      && QueueStage(c, f, cfg.compile(f).value, at) == Enqueued(c, Undeferred(items, Ids(items)), at)
      && (forall x :: x in items ==> x in c.work)
      && Enqueueable(c, Undeferred(items, Ids(items)), at)
  {
    AcceptedIsKnown(cfg, c, f, at);
    QueueOldStage(cfg, c, f, at);
  }

  /** Queueing an opened stage again changes nothing exactly when it is all still queued. */
  lemma QueueAgainIff(cfg: Config, c: Controller, f: int, at: int)
    requires CleanAt(cfg, c, f) && StageOpened(cfg, c, f) && NoMembersOn(c.store, f) && cfg.compile(f).value != []
    ensures SameWork(c, QueueStage(c, f, cfg.compile(f).value, at)) == StillQueued(cfg, c, f, at)
  {
    var items := NewItems(cfg, f, at);
    if QueueItems(c, items, Undeferred(items, Ids(items)), at).None? {
      NotStillQueued(cfg, c, f, at);
      RefusedAgain(c, f, cfg.compile(f).value, at);
    } else {
      KnownAgainIff(cfg, c, f, at);
    }
  }

  lemma NotStillQueued(cfg: Config, c: Controller, f: int, at: int)
    requires WorkSound(cfg, c.work) && cfg.compile(f).Some?
    requires QueueItems(c, NewItems(cfg, f, at), Undeferred(NewItems(cfg, f, at), Ids(NewItems(cfg, f, at))), at).None?
    ensures !StillQueued(cfg, c, f, at)
  {
    if StillQueued(cfg, c, f, at) {
      StillQueuedAccepted(cfg, c, f, at);
    }
  }

  lemma KnownAgainIff(cfg: Config, c: Controller, f: int, at: int)
    requires CleanAt(cfg, c, f) && StageOpened(cfg, c, f) && NoMembersOn(c.store, f) && cfg.compile(f).value != []
    requires QueueItems(c, NewItems(cfg, f, at), Undeferred(NewItems(cfg, f, at), Ids(NewItems(cfg, f, at))), at).Some?
    ensures SameWork(c, QueueStage(c, f, cfg.compile(f).value, at)) == StillQueued(cfg, c, f, at)
  {
    AcceptedAgain(cfg, c, f, at);
    KnownQueuedIff(cfg, c, f, at, Undeferred(NewItems(cfg, f, at), Ids(NewItems(cfg, f, at))));
  }

  lemma KnownQueuedIff(cfg: Config, c: Controller, f: int, at: int, queued: seq<Item>)
    requires cfg.compile(f).Some? && queued == Undeferred(NewItems(cfg, f, at), Ids(NewItems(cfg, f, at)))
    requires (forall x :: x in NewItems(cfg, f, at) ==> x in c.work) && Enqueueable(c, queued, at)
    ensures SameWork(c, Enqueued(c, queued, at)) == StillQueued(cfg, c, f, at)
  {
    AllQueuedIff(c, queued, at);
  }

  lemma RefusedAgain(c: Controller, f: int, compiled: seq<Compiled>, at: int)
    requires c.store.saved.None?
    requires QueueItems(c, Records(f, compiled, at), Undeferred(Records(f, compiled, at), Ids(Records(f, compiled, at))), at).None?
    ensures !SameWork(c, QueueStage(c, f, compiled, at))
  {
    var c' := FailOpening(c, f, QUEUE_FAILED);
    assert QueueStage(c, f, compiled, at) == c';
    FailingSaves(c.store, f, QUEUE_FAILED);
  }

  lemma FailingSaves(s: Store, i: int, reason: string)
    ensures FailStageActivation(s, i, reason).saved.Some?
  {
  }

  lemma AllQueuedIff(c: Controller, queued: seq<Item>, at: int)
    requires Enqueueable(c, queued, at)
    ensures SameWork(c, Enqueued(c, queued, at)) <==>
            forall x :: x in queued ==> x.id in c.store.queued && x.id in c.queuedAt && c.queuedAt[x.id] == at
  {
    if SameWork(c, Enqueued(c, queued, at)) {
      forall x | x in queued
        ensures x.id in c.store.queued
      {
        InIds(queued, x);
      }
    }
    if forall x :: x in queued ==> x.id in c.store.queued {
      assert c.store.queued + Ids(queued) == c.store.queued;
    }
  }

  lemma ReopenIff(cfg: Config, c: Controller, f: int, stageIndex: int, at: int)
    requires CleanAt(cfg, c, f) && Onward(cfg, c, f, false)
    ensures SameWork(c, ActivateNext(cfg, c, stageIndex, at)) <==>
            !Reopens(c.store, stageIndex) || StillQueued(cfg, c, stageIndex + 1, at)
  {
    if Reopens(c.store, stageIndex) {
      CleanHealthy(c);
      BlockedMeansRunning(c.store, stageIndex + 1);
      ReopenedIsLast(cfg, c, f, stageIndex);
      NoEmptiesAgain(cfg, c, f);
      NotBegunNoMembers(c.store, c.store, f);
      QueueAgainIff(cfg, c, f, at);
      assert c.(store := c.store) == c;
    }
  }

  // ---------------------------------------------------------------------------------------
  // The repeated report

  /** The rest of the handler once the output is taken in again. */
  function Rest(cfg: Config, c1: Controller, x: Item, at: int): Controller {
    var (c2, ok) := EnqueueReady(c1, x.id, at);
    if ok then ActivateNext(cfg, c2, x.stageIndex, at) else c2
  }

  lemma ReplayTakesIn(cfg: Config, c: Controller, f: int, x: Item, attempt: Terminal, at: int) returns (c1: Controller)
    requires CleanAt(cfg, c, f) && Onward(cfg, c, f, false)
    requires x in c.work && !x.asset && x.id in c.store.terminal && c.store.terminal[x.id] == attempt
    requires Accepted(cfg, c, x, attempt)
    ensures c1 == c.(store := c1.store) && SameFactSteps(c.store, c1.store) && Healthy(c1.store)
    ensures CleanAt(cfg, c1, f) && Onward(cfg, c1, f, false)
    ensures Complete(cfg, c, x, attempt, at) == Rest(cfg, c1, x, at)
  {
    c1 := c.(store := RecordOutput(c.store, x.id, attempt.outputJson, attempt.outputSha256, cfg.aggregate).0);
    TrackedAttempt(c, x);
    assert InOnePlace(c.store, x.id);
    CleanWeakens(c, f, x.id, {x.stepIndex});
    OutputKeepsClean(cfg, c, f, x, attempt.outputJson, attempt.outputSha256);
    OutputAgain(cfg, c, f, x, attempt.outputJson, attempt.outputSha256);
    SameFactsOnward(cfg, c, c1, f);
    AlwaysByQueue(cfg, c, c1);
    SettingBySteps(cfg, c.store, c1.store);
    SuccessKeeps(cfg, c1, f, x, attempt.skipped);
    CleanByFacts(c, c1, f, {}, {}, {});
    OnlyRest(cfg, c, c1, x, attempt, at);
  }

  lemma TrackedAttempt(c: Controller, x: Item)
    requires AttemptsSound(c.store) && MembersSound(c) && x in c.work && !x.asset && x.id in c.store.terminal
    ensures !c.store.terminal[x.id].failed && c.store.terminal[x.id].outputJson != ""
  {
    assert Touched(c.store, x.id) && MemberOf(x) in c.store.members;
  }

  lemma OnlyRest(cfg: Config, c: Controller, c1: Controller, x: Item, attempt: Terminal, at: int)
    requires x in c.work && !x.asset && x.id in c.store.terminal && c.store.terminal[x.id] == attempt && x.id !in c.store.running
    requires !attempt.failed && attempt.outputJson != "" && cfg.resolves(attempt.outputJson)
    requires RecordOutput(c.store, x.id, attempt.outputJson, attempt.outputSha256, cfg.aggregate) == (c1.store, true)
    requires c1 == c.(store := c1.store)
    requires RecordTerminal(c1.store, x.id, if attempt.skipped then MemberState.Skipped else MemberState.Completed, "") == c1.store
    ensures Complete(cfg, c, x, attempt, at) == Rest(cfg, c1, x, at)
  {
    assert c1.(store := c1.store) == c1;
  }

  lemma RestWithoutRelease(cfg: Config, c1: Controller, x: Item, at: int)
    requires ReadyItems(c1, x.id) == []
    ensures Rest(cfg, c1, x, at) == ActivateNext(cfg, c1, x.stageIndex, at)
  {
    NothingReleased(c1, x.id, at);
  }

  /** Whoever is released was not queued before and is afterwards. */
  lemma RestWithRelease(cfg: Config, c: Controller, c1: Controller, x: Item, at: int)
    requires Setting(cfg, c1.store) && Always(cfg, c1) && c1 == c.(store := c1.store) && Frame(c.store, c1.store)
    requires ReadyItems(c1, x.id) != []
    ensures !SameWork(c, Rest(cfg, c1, x, at))
  {
    var ready := ReadyItems(c1, x.id);
    assert ready[0] in ready;
    ReadyStepsKnown(cfg, c1, x.id);
    ReleaseQueues(c1, x.id, at);
    InIds(ready, ready[0]);
    ActivateNextGrows(cfg, EnqueueReady(c1, x.id, at).0, x.stageIndex, at);
  }

  /** The run before and after the output was taken in again. */
  ghost predicate TakenAgain(cfg: Config, c: Controller, c1: Controller) {
    exists f ::
      && CleanAt(cfg, c, f) && CleanAt(cfg, c1, f) && Onward(cfg, c1, f, false)
      && c1 == c.(store := c1.store) && SameFactSteps(c.store, c1.store)
  }

  /** Trying the next stage, said of the state before the output was taken in again. */
  lemma ReopenIffBefore(cfg: Config, c: Controller, c1: Controller, i: int, at: int)
    requires TakenAgain(cfg, c, c1)
    ensures SameWork(c, ActivateNext(cfg, c1, i, at)) == Harmless(cfg, c, i, at)
  {
    var f :| CleanAt(cfg, c, f) && CleanAt(cfg, c1, f) && Onward(cfg, c1, f, false)
             && c1 == c.(store := c1.store) && SameFactSteps(c.store, c1.store);
    CleanHealthy(c);
    CleanHealthy(c1);
    ReopenIff(cfg, c1, f, i, at);
    SameReopens(c.store, c1.store, i);
    SameWorkThrough(c, c1, ActivateNext(cfg, c1, i, at));
    SameStillQueued(cfg, c, c1, i + 1, at);
  }

  /** An accepted report, repeated. */
  lemma AcceptedAgainIff(cfg: Config, c: Controller, f: int, x: Item, attempt: Terminal, at: int) returns (c': Controller)
    requires CleanAt(cfg, c, f) && Onward(cfg, c, f, false)
    requires x in c.work && !x.asset && x.id in c.store.terminal && c.store.terminal[x.id] == attempt
    requires Accepted(cfg, c, x, attempt)
    ensures c' == Complete(cfg, c, x, attempt, at)
    ensures SameWork(c, c') == (ReadyItems(c, x.id) == [] && Harmless(cfg, c, x.stageIndex, at))
  {
    var c1 := ReplayTakesIn(cfg, c, f, x, attempt, at);
    assert TakenAgain(cfg, c, c1);
    c' := Rest(cfg, c1, x, at);
    RestIff(cfg, c, c1, x, at);
  }

  lemma RestIff(cfg: Config, c: Controller, c1: Controller, x: Item, at: int)
    requires TakenAgain(cfg, c, c1)
    ensures SameWork(c, Rest(cfg, c1, x, at)) == (ReadyItems(c, x.id) == [] && Harmless(cfg, c, x.stageIndex, at))
  {
    SameReady(c, c1, x.id);
    if ReadyItems(c, x.id) == [] {
      RestWithoutRelease(cfg, c1, x, at);
      ReopenIffBefore(cfg, c, c1, x.stageIndex, at);
    } else {
      RestWithRelease(cfg, c, c1, x, at);
    }
  }

  /** The report of an asset item, repeated. */
  lemma AssetAgainIff(cfg: Config, c: Controller, f: int, x: Item, attempt: Terminal, at: int)
    requires CleanAt(cfg, c, f)
    requires x in c.work && x.asset && x.id in c.store.terminal && c.store.terminal[x.id] == attempt && x.id !in c.store.running
    ensures SameWork(c, Complete(cfg, c, x, attempt, at)) == (attempt.failed || ReadyItems(c, x.id) == [])
  {
    ReleaseAgainIff(cfg, c, x.id, at);
    AssetCompletes(cfg, c, x, attempt, at);
  }

  lemma AssetCompletes(cfg: Config, c: Controller, x: Item, attempt: Terminal, at: int)
    requires OutputsKept(c.store) && x in c.work && x.asset && x.id in c.store.terminal && c.store.terminal[x.id] == attempt && x.id !in c.store.running
    ensures Complete(cfg, c, x, attempt, at) == if attempt.failed then c else EnqueueReady(c, x.id, at).0
  {
  }

  /** A release again changes nothing exactly when nobody is ready. */
  lemma ReleaseAgainIff(cfg: Config, c: Controller, done: string, at: int)
    requires Setting(cfg, c.store) && Always(cfg, c)
    ensures SameWork(c, EnqueueReady(c, done, at).0) == (ReadyItems(c, done) == [])
  {
    if ReadyItems(c, done) == [] {
      NothingReleased(c, done, at);
    } else {
      ReleaseChanges(cfg, c, done, at);
    }
  }

  lemma ReleaseChanges(cfg: Config, c: Controller, done: string, at: int)
    requires Setting(cfg, c.store) && Always(cfg, c) && ReadyItems(c, done) != []
    ensures !SameWork(c, EnqueueReady(c, done, at).0)
  {
    var ready := ReadyItems(c, done);
    assert ready[0] in ready;
    ReadyStepsKnown(cfg, c, done);
    ReleaseQueues(c, done, at);
    InIds(ready, ready[0]);
  }

  /** A report whose output is refused again. */
  lemma RefusedAgainIff(cfg: Config, c: Controller, f: int, x: Item, attempt: Terminal, at: int)
    requires CleanAt(cfg, c, f)
    requires x in c.work && !x.asset && x.id in c.store.terminal && c.store.terminal[x.id] == attempt
    requires !Accepted(cfg, c, x, attempt)
    ensures SameWork(c, Complete(cfg, c, x, attempt, at)) == (x.stepIndex in c.store.facts)
  {
    var s := RecordTerminal(c.store, x.id, MemberState.Failed, OUTPUT_REFUSED);
    TrackedAttempt(c, x);
    assert InOnePlace(c.store, x.id);
    OnlyRefused(cfg, c, f, x, attempt, at);
    RefusedTwice(cfg, c, f, x);
  }

  lemma OnlyRefused(cfg: Config, c: Controller, f: int, x: Item, attempt: Terminal, at: int)
    requires CleanAt(cfg, c, f) && x in c.work && !x.asset && x.id !in c.store.running
    requires x.id in c.store.terminal && c.store.terminal[x.id] == attempt && !attempt.failed && attempt.outputJson != ""
    requires !Accepted(cfg, c, x, attempt)
    ensures Complete(cfg, c, x, attempt, at) ==
            c.(store := RecordTerminal(c.store, x.id, MemberState.Failed, OUTPUT_REFUSED), refused := c.refused + {x.id})
  {
    var r := StepOf(cfg, c, x);
    assert Touched(c.store, x.id);
    CleanHealthy(c);
    CleanUniqueIds(cfg, c);
    OutputRecorded(c.store, r, MemberOf(x), attempt.outputJson, attempt.outputSha256, cfg.aggregate);
  }

  lemma RefusedTwice(cfg: Config, c: Controller, f: int, x: Item)
    requires CleanAt(cfg, c, f) && x in c.work && !x.asset && x.id in c.store.terminal
    ensures
      var s := RecordTerminal(c.store, x.id, MemberState.Failed, OUTPUT_REFUSED);
      if x.stepIndex in c.store.facts then s == c.store else s.saved.Some?
  {
    var r := StepOf(cfg, c, x);
    assert Touched(c.store, x.id);
    CleanHealthy(c);
    CleanUniqueIds(cfg, c);
    if r.stepIndex in c.store.facts {
      assert FactKnown(c.store, r.stepIndex, f);
      RefusalIgnored(c.store, r, MemberOf(x), OUTPUT_REFUSED);
    } else {
      RefusalFails(c.store, r, MemberOf(x), OUTPUT_REFUSED);
    }
  }

  lemma SameReopens(s: Store, s': Store, i: int)
    requires Healthy(s) && Healthy(s') && SameFactSteps(s, s')
    ensures Reopens(s, i) <==> Reopens(s', i)
  {
    SameStageViews(s, s', i);
    SameStageViews(s, s', i + 1);
  }

  lemma SameStillQueued(cfg: Config, c: Controller, c1: Controller, i: int, at: int)
    requires c1.work == c.work && c1.queuedAt == c.queuedAt && c1.store.queued == c.store.queued
    ensures StillQueued(cfg, c, i, at) <==> StillQueued(cfg, c1, i, at)
  {
  }

  /** In every reachable run still going, repeating a report that is already recorded, of a tracked or
      an asset item, accepted or refused, leaves all work as it was if and only if it is harmless in
      the sense stated above. */
  lemma ReplayIdempotentIff(cfg: Config, c: Controller, x: Item, attempt: Terminal, at: int) returns (c': Controller)
    requires Reaches(cfg, c) && Rebuild(c.store).state != WorkflowState.Failed
    requires x in c.work && x.id in c.store.terminal && c.store.terminal[x.id] == attempt && x.id !in c.store.running
    ensures c' == Complete(cfg, c, x, attempt, at)
    ensures SameWork(c, c') == ReplayHarmless(cfg, c, x, attempt, at)
  {
    ReachableInv(cfg, c);
    var f := RunningIsClean(cfg, c);
    c' := Complete(cfg, c, x, attempt, at);
    if x.asset {
      AssetAgainIff(cfg, c, f, x, attempt, at);
    } else {
      TrackedAttempt(c, x);
      TrackedReplayIff(cfg, c, f, x, attempt, at, c');
    }
  }

  lemma TrackedReplayIff(cfg: Config, c: Controller, f: int, x: Item, attempt: Terminal, at: int, c': Controller)
    requires CleanAt(cfg, c, f) && Onward(cfg, c, f, false)
    requires x in c.work && !x.asset && x.id in c.store.terminal && c.store.terminal[x.id] == attempt && !attempt.failed
    requires c' == Complete(cfg, c, x, attempt, at)
    ensures SameWork(c, c') == ReplayHarmless(cfg, c, x, attempt, at)
  {
    if Accepted(cfg, c, x, attempt) {
      var c2 := AcceptedAgainIff(cfg, c, f, x, attempt, at);
    } else {
      RefusedAgainIff(cfg, c, f, x, attempt, at);
    }
  }

  /** While no output has been refused nobody is released by a repeated report. */
  lemma ReplayReleasesNobody(cfg: Config, c: Controller, x: Item)
    requires Reaches(cfg, c) && Rebuild(c.store).state != WorkflowState.Failed && c.refused == {}
    ensures ReadyItems(c, x.id) == []
  {
    ReachableInv(cfg, c);
    var f := RunningIsClean(cfg, c);
    NothingReady(c, x.id);
  }

  lemma SameWorkThrough(c: Controller, c1: Controller, c2: Controller)
    requires c1 == c.(store := c1.store) && SameFactSteps(c.store, c1.store)
    ensures SameWork(c, c2) <==> SameWork(c1, c2)
  {
  }
}

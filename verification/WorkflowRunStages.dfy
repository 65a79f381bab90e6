/** Opening stages keeps the invariant of a workflow run. */
module WorkflowRunStages {
  import opened PlanModel
  import opened DependencyStore
  import opened StoreLaws
  import opened StoreView
  import opened StoreEffects
  import opened WorkflowRun
  import opened WorkflowRunInv
  import opened WorkflowRunParts
  import opened WorkflowRunRelease

  /** All steps of the stages before this one have their output. */
  predicate FactsBelow(s: Store, i: int) {
    forall r :: r in s.steps && r.stageIndex < i ==> r.stepIndex in s.facts
  }

  lemma FrontierMoves(c: Controller, f: int, i: int)
    requires Clean(c, f, {}, {}) && FactsBelow(c.store, i) && f <= i
    ensures Clean(c, i, {}, {})
  {
    forall k | k in c.store.facts
      ensures FactKnown(c.store, k, i)
    {
      assert FactKnown(c.store, k, f);
    }
  }

  lemma BlockedStage(s: Store, i: int)
    requires Healthy(s) && StageIs(s, i, Blocked)
    ensures StageKnown(s, i) && !StageBegun(s, i)
  {
    StageFound(s, i);
    StageStates(s, i);
  }

  /** A blocked stage is not before the last one opened. */
  lemma BlockedNotBefore(c: Controller, f: int, i: int)
    requires Clean(c, f, {}, {}) && StageKnown(c.store, i) && !StageBegun(c.store, i)
    ensures f <= i
  {
    var r :| r in c.store.steps && r.stageIndex == i;
    assert !Begun(c.store, r);
  }

  // ---------------------------------------------------------------------------------------
  // Failing an activation

  lemma FailStageKeeps(cfg: Config, c: Controller, i: int, reason: string)
    requires Setting(cfg, c.store) && SavedMeansFailed(c.store) && Always(cfg, c)
    ensures Inv(cfg, FailOpening(c, i, reason)) && FailOpening(c, i, reason).store.saved.Some?
  {
    var c' := FailOpening(c, i, reason);
    AlwaysByQueue(cfg, c, c');
    SettingBySteps(cfg, c.store, c'.store);
    FailStageActivationGrows(c.store, i, reason);
  }

  // ---------------------------------------------------------------------------------------
  // Empty fan-outs

  lemma EmptiesKeepFacts(cfg: Config, s: Store, i: int, compiled: set<int>)
    requires Setting(cfg, s) && AttemptsSound(s) && StageKnown(s, i) && FactsSound(s, i, {})
    ensures
      var s' := RecordEmptySteps(s, i, compiled, cfg.empty).0;
      s' == s.(facts := s'.facts) && FactsSound(s', i, {})
  {
    assert Healthy(s);
    EmptiesRecorded(s, i, compiled, cfg.empty);
    var s' := RecordEmptySteps(s, i, compiled, cfg.empty).0;
    forall k | k in s'.facts
      ensures FactKnown(s', k, i)
    {
      if k in s.facts {
        assert FactKnown(s, k, i);
      } else {
        var r := EmptyFactsHaveSteps(s, i, compiled, cfg.empty, k);
      }
    }
    forall r | r in s'.steps && HasMembers(s', r) && AllTerminal(s', r)
      ensures r.stepIndex in s'.facts
    {
      assert HasMembers(s, r) && AllTerminal(s, r);
    }
  }

  /** When that completes the stage, all its steps have facts. */
  lemma EmptiesFinishStage(cfg: Config, s: Store, i: int, compiled: set<int>)
    requires Setting(cfg, s) && AttemptsSound(s) && StageKnown(s, i) && FactsBelow(s, i) && !StageBegun(s, i)
    requires RecordEmptySteps(s, i, compiled, cfg.empty).1
    ensures FactsBelow(RecordEmptySteps(s, i, compiled, cfg.empty).0, i + 1)
  {
    assert Healthy(s);
    EmptiesRecorded(s, i, compiled, cfg.empty);
    EmptyFanoutFlag(s, i, compiled, cfg.empty);
    var s' := RecordEmptySteps(s, i, compiled, cfg.empty).0;
    forall r | r in s'.steps && r.stageIndex < i + 1
      ensures r.stepIndex in s'.facts
    {
      if r.stageIndex == i {
        assert !Begun(s, r);
        EmptyFactsExact(s, i, compiled, cfg.empty, r);
      }
    }
  }

  // ---------------------------------------------------------------------------------------
  // The compiled items of a stage

  lemma RecordsCompiled(cfg: Config, i: int, at: int, x: Item)
    requires cfg.compile(i).Some? && x in Records(i, cfg.compile(i).value, at)
    ensures IsCompiled(cfg, x) && x.stageIndex == i
  {
  }

  lemma IdsOfRecords(i: int, compiled: seq<Compiled>, at: int)
    ensures Ids(Records(i, compiled, at)) == CompiledIds(compiled)
  {
    var items := Records(i, compiled, at);
    forall id | id in CompiledIds(compiled)
      ensures id in Ids(items)
    {
      var y :| y in compiled && y.id == id;
      var k :| 0 <= k < |compiled| && compiled[k] == y;
      assert items[k] in items;
    }
  }

  /** The items left unqueued are the deferred ones. */
  lemma UndeferredExact(cfg: Config, i: int, at: int, x: Item)
    requires cfg.compile(i).Some? && x in Records(i, cfg.compile(i).value, at)
    ensures
      var items := Records(i, cfg.compile(i).value, at);
      x in Undeferred(items, Ids(items)) <==> !Deferred(cfg, x)
  {
    RecordsCompiled(cfg, i, at, x);
    IdsOfRecords(i, cfg.compile(i).value, at);
  }

  /** A stage is inserted whole: once one of its items is known, all are. */
  lemma AllOrNothing(cfg: Config, work: seq<Item>, i: int, at: int)
    requires WorkSound(cfg, work) && cfg.compile(i).Some? && Insertable(work, Records(i, cfg.compile(i).value, at))
    ensures
      var items := Records(i, cfg.compile(i).value, at);
      || (forall x :: x in items ==> x in work)
      || (forall x :: x in items ==> x.id !in Ids(work))
  {
    var items := Records(i, cfg.compile(i).value, at);
    if x :| x in items && x.id in Ids(work) {
      assert x in work;
      assert WholeStage(cfg, work, x);
      forall y | y in items
        ensures y in work
      {
        assert InWork(work, i, y.index);
        var z :| z in work && z.stageIndex == i && z.index == y.index;
        RecordsCompiled(cfg, i, at, y);
        SamePosition(cfg, y, z);
      }
    }
  }

  // ---------------------------------------------------------------------------------------
  // A stage inserted before

  lemma NothingBegun(cfg: Config, c: Controller, i: int, x: Item)
    requires Setting(cfg, c.store) && WorkSound(cfg, c.work) && MembersSound(c)
    requires forall r :: r in c.store.steps && r.stageIndex == i ==> !HasMembers(c.store, r)
    requires x in c.work && x.stageIndex == i && !x.asset
    ensures !Touched(c.store, x.id)
  {
    var r := StepOf(cfg, c, x);
    assert !HasMembers(c.store, r);
  }

  /** Enqueueing assets again keeps the invariant; nothing else of such a stage can be queued. */
  lemma RequeueAssets(cfg: Config, c: Controller, f: int, items: seq<Item>, at: int)
    requires Always(cfg, c) && Clean(c, f, {}, {})
    requires forall x :: x in items ==> x in c.work && x.asset && !Deferred(cfg, x)
    ensures Always(cfg, Enqueued(c, items, at)) && Clean(Enqueued(c, items, at), f, {}, {})
  {
    var c' := Enqueued(c, items, at);
    forall x | x in c.work && x.id in Ids(items)
      ensures x.asset && !Deferred(cfg, x)
    {
      var y :| y in items && y.id == x.id;
      SameId(c.work, x, y);
    }
    AssetsKeepQueue(cfg, c, items, at);
    forall x | x in c.work && x.id in c.released
      ensures AllSucceed(c'.store, x.dependsOn)
    {
      assert AllSucceed(c.store, x.dependsOn);
    }
    forall x | x in c'.work && !Touched(c'.store, x.id)
      ensures Waits(c', x, {})
    {
      assert Waits(c, x, {});
    }
    SameRecordsSameFacts(c.store, c'.store, f, {});
  }

  lemma AssetsKeepQueue(cfg: Config, c: Controller, items: seq<Item>, at: int)
    requires Always(cfg, c)
    requires forall x :: x in items ==> x in c.work
    requires forall x :: x in c.work && x.id in Ids(items) ==> x.asset
    ensures QueueSound(cfg, Enqueued(c, items, at))
  {
    var c' := Enqueued(c, items, at);
    forall id | Touched(c'.store, id)
      ensures id in Ids(c'.work)
    {
      if id in Ids(items) {
        var x :| x in items && x.id == id;
        InIds(c.work, x);
      } else {
        assert Touched(c.store, id);
      }
    }
    forall x | x in c'.work && !x.asset
      ensures InOnePlace(c'.store, x.id)
    {
      assert InOnePlace(c.store, x.id);
    }
    forall x | x in c'.work && !Deferred(cfg, x)
      ensures Touched(c'.store, x.id)
    {
      assert Touched(c.store, x.id);
    }
  }

  // ---------------------------------------------------------------------------------------
  // A stage inserted for the first time

  lemma {:induction false} KeepAll(items: seq<Item>, p: Item -> bool)
    requires forall x :: x in items ==> p(x)
    ensures Keep(items, p) == items
  {
    if items != [] {
      assert items[0] in items;
      KeepAll(items[1..], p);
    }
  }

  lemma {:induction false} KeepNone(items: seq<Item>, p: Item -> bool)
    requires forall x :: x in items ==> !p(x)
    ensures Keep(items, p) == []
  {
    if items != [] {
      assert items[0] in items;
      KeepNone(items[1..], p);
    }
  }

  predicate NewStage(cfg: Config, work: seq<Item>, i: int, at: int) {
    && cfg.compile(i).Some?
    && var items := Records(i, cfg.compile(i).value, at);
       (forall x :: x in items ==> x.id !in Ids(work)) && DistinctIds(items)
  }

  lemma NewWorkSound(cfg: Config, work: seq<Item>, i: int, at: int)
    requires WorkSound(cfg, work) && NewStage(cfg, work, i, at)
    ensures WorkSound(cfg, work + Records(i, cfg.compile(i).value, at))
  {
    var items := Records(i, cfg.compile(i).value, at);
    var work' := work + items;
    forall x | x in work'
      ensures IsCompiled(cfg, x) && WholeStage(cfg, work', x)
    {
      if x in work {
        forall k | 0 <= k < |cfg.compile(x.stageIndex).value|
          ensures InWork(work', x.stageIndex, k)
        {
          assert InWork(work, x.stageIndex, k);
          var y :| y in work && y.stageIndex == x.stageIndex && y.index == k;
          assert y in work';
        }
      } else {
        RecordsCompiled(cfg, i, at, x);
        forall k | 0 <= k < |cfg.compile(i).value|
          ensures InWork(work', i, k)
        {
          assert items[k] in work';
        }
      }
    }
    NewIdsDistinct(work, items);
  }

  lemma NewIdsDistinct(work: seq<Item>, items: seq<Item>)
    requires DistinctIds(work) && DistinctIds(items) && forall x :: x in items ==> x.id !in Ids(work)
    ensures DistinctIds(work + items)
  {
    var all := work + items;
    forall p, q | 0 <= p < q < |all|
      ensures all[p].id != all[q].id
    {
      if p < |work| <= q {
        InIds(work, work[p]);
        assert items[q - |work|] in items;
      }
    }
  }

  /** The controller with the stage's items inserted and its undeferred items queued. */
  function Inserted(c: Controller, items: seq<Item>, at: int): Controller {
    Enqueued(c.(work := c.work + items), Undeferred(items, Ids(items)), at)
  }

  lemma NewUntouched(cfg: Config, c: Controller, i: int, at: int, x: Item)
    requires Always(cfg, c) && NewStage(cfg, c.work, i, at) && x in Records(i, cfg.compile(i).value, at)
    ensures !Touched(c.store, x.id) && x.id !in c.released
  {
  }

  /** Among the old and new items, the newly queued are the undeferred new ones. */
  lemma NewlyQueued(cfg: Config, c: Controller, i: int, at: int, x: Item)
    requires Always(cfg, c) && NewStage(cfg, c.work, i, at)
    requires x in c.work + Records(i, cfg.compile(i).value, at)
    ensures
      var items := Records(i, cfg.compile(i).value, at);
      x.id in Ids(Undeferred(items, Ids(items))) <==> x in items && !Deferred(cfg, x)
  {
    var items := Records(i, cfg.compile(i).value, at);
    var queued := Undeferred(items, Ids(items));
    if x.id in Ids(queued) {
      var y :| y in queued && y.id == x.id;
      if x in c.work {
        InIds(c.work, x);
        assert false;
      }
      SameId(items, x, y);
      UndeferredExact(cfg, i, at, x);
    } else if x in items && !Deferred(cfg, x) {
      UndeferredExact(cfg, i, at, x);
      InIds(queued, x);
    }
  }

  lemma NewQueueSound(cfg: Config, c: Controller, i: int, at: int)
    requires Always(cfg, c) && NewStage(cfg, c.work, i, at)
    ensures QueueSound(cfg, Inserted(c, Records(i, cfg.compile(i).value, at), at))
  {
    var items := Records(i, cfg.compile(i).value, at);
    var c' := Inserted(c, items, at);
    forall id | Touched(c'.store, id)
      ensures id in Ids(c'.work)
    {
      TouchedKnown(c, items, at, id);
    }
    forall x | x in c'.work && !Deferred(cfg, x)
      ensures Touched(c'.store, x.id)
    {
      NewlyQueued(cfg, c, i, at, x);
    }
    forall x | x in c'.work && !x.asset
      ensures InOnePlace(c'.store, x.id)
    {
      NewlyQueued(cfg, c, i, at, x);
      if x in items {
        NewUntouched(cfg, c, i, at, x);
      } else {
        assert InOnePlace(c.store, x.id);
      }
    }
  }

  lemma TouchedKnown(c: Controller, items: seq<Item>, at: int, id: string)
    requires Touched(c.store, id) ==> id in Ids(c.work)
    requires Touched(Inserted(c, items, at).store, id)
    ensures id in Ids(c.work + items)
  {
    if Touched(c.store, id) {
      var x :| x in c.work && x.id == id;
      InIds(c.work + items, x);
    } else {
      var x :| x in Undeferred(items, Ids(items)) && x.id == id;
      InIds(c.work + items, x);
    }
  }

  lemma NewReleasesSound(cfg: Config, c: Controller, i: int, at: int)
    requires Always(cfg, c) && NewStage(cfg, c.work, i, at)
    ensures ReleasesSound(cfg, Inserted(c, Records(i, cfg.compile(i).value, at), at))
  {
    var items := Records(i, cfg.compile(i).value, at);
    var c' := Inserted(c, items, at);
    forall id | id in c'.released
      ensures id in Ids(c'.work)
    {
      assert id in Ids(c.work);
      var x :| x in c.work && x.id == id;
      InIds(c'.work, x);
    }
    forall x | x in c'.work
      ensures x.id in c'.released <==> Deferred(cfg, x) && Touched(c'.store, x.id)
      ensures x.id in c'.released ==> AllSucceed(c'.store, x.dependsOn)
    {
      NewlyQueued(cfg, c, i, at, x);
      if x in items {
        NewUntouched(cfg, c, i, at, x);
      } else if x.id in c.released {
        SucceedsKept(c.store, c'.store, x.dependsOn);
      }
    }
    forall x, y | x in c'.work && y in c'.work && Alike(x, y) && x.id in c'.released
      ensures y.id in c'.released
    {
      NewNotAlike(cfg, c, i, at, x, y);
    }
  }

  /** A released item is not of the new stage, and neither is any item like it. */
  lemma NewNotAlike(cfg: Config, c: Controller, i: int, at: int, x: Item, y: Item)
    requires Always(cfg, c) && NewStage(cfg, c.work, i, at) && x.id in c.released
    requires x in c.work + Records(i, cfg.compile(i).value, at) && y in c.work + Records(i, cfg.compile(i).value, at) && Alike(x, y)
    ensures x in c.work && y in c.work
  {
    var items := Records(i, cfg.compile(i).value, at);
    if x in items {
      NewUntouched(cfg, c, i, at, x);
      assert false;
    }
    OldElsewhere(cfg, c.work, i, at, x);
    if y in items {
      RecordsCompiled(cfg, i, at, y);
      assert false;
    }
  }

  lemma OldElsewhere(cfg: Config, work: seq<Item>, i: int, at: int, x: Item)
    requires WorkSound(cfg, work) && NewStage(cfg, work, i, at) && x in work
    ensures x.stageIndex != i
  {
    assert IsCompiled(cfg, x);
    InIds(work, x);
    if x.stageIndex == i {
      var y := RecordOf(cfg, i, at, x);
      assert false;
    }
  }

  lemma RecordOf(cfg: Config, i: int, at: int, x: Item) returns (y: Item)
    requires IsCompiled(cfg, x) && x.stageIndex == i
    ensures y in Records(i, cfg.compile(i).value, at) && y.id == x.id
  {
    y := Records(i, cfg.compile(i).value, at)[x.index];
  }

  lemma InsertedAlways(cfg: Config, c: Controller, i: int, at: int)
    requires Always(cfg, c) && NewStage(cfg, c.work, i, at)
    ensures Always(cfg, Inserted(c, Records(i, cfg.compile(i).value, at), at))
  {
    NewWorkSound(cfg, c.work, i, at);
    NewQueueSound(cfg, c, i, at);
    NewReleasesSound(cfg, c, i, at);
  }
}

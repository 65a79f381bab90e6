/** The activation loop keeps the invariant of a workflow run. */
module WorkflowRunOpening {
  import opened PlanModel
  import opened DependencyStore
  import opened StoreView
  import opened StoreEffects
  import opened WorkflowRun
  import opened WorkflowRunInv
  import opened WorkflowRunParts
  import opened WorkflowRunRelease
  import opened WorkflowRunStages

  // ---------------------------------------------------------------------------------------
  // A newly inserted stage

  function NewItems(cfg: Config, i: int, at: int): seq<Item>
    requires cfg.compile(i).Some?
  {
    Records(i, cfg.compile(i).value, at)
  }

  function NewTracked(cfg: Config, i: int, at: int): seq<Item>
    requires cfg.compile(i).Some?
  {
    var items := NewItems(cfg, i, at);
    Tracked(Undeferred(items, Ids(items)))
  }

  lemma NewTrackedFacts(cfg: Config, c: Controller, i: int, at: int)
    requires Always(cfg, c) && NewStage(cfg, c.work, i, at)
    ensures DistinctIds(NewTracked(cfg, i, at))
    ensures forall x :: x in NewTracked(cfg, i, at) <==> x in NewItems(cfg, i, at) && !Deferred(cfg, x) && !x.asset
    ensures forall x :: x in NewItems(cfg, i, at) ==> !Touched(c.store, x.id)
  {
    var items := NewItems(cfg, i, at);
    var queued := Undeferred(items, Ids(items));
    KeepDistinct(items, (x: Item) => !HasCurrentStageDependency(x.dependsOn, Ids(items)));
    KeepDistinct(queued, (x: Item) => !x.asset);
    forall x | x in items
      ensures x in queued <==> !Deferred(cfg, x)
      ensures !Touched(c.store, x.id)
    {
      UndeferredExact(cfg, i, at, x);
      NewUntouched(cfg, c, i, at, x);
    }
  }

  /** The controller once the memberships of a new stage are recorded. */
  function Opening(cfg: Config, c: Controller, i: int, at: int): Controller
    requires cfg.compile(i).Some?
  {
    var c' := Inserted(c, NewItems(cfg, i, at), at);
    c'.(store := c'.store.(members := c.store.members + MembersFor(NewTracked(cfg, i, at))))
  }

  /** Inserting the items alone leaves the memberships sound. */
  lemma InsertedMembersSound(cfg: Config, c: Controller, i: int, at: int)
    requires Always(cfg, c) && MembersSound(c) && NewStage(cfg, c.work, i, at)
    ensures MembersSound(c.(work := c.work + NewItems(cfg, i, at)))
  {
    var items := NewItems(cfg, i, at);
    var c' := c.(work := c.work + items);
    forall m | m in c'.store.members
      ensures MemberKnown(c'.work, m)
    {
      assert MemberKnown(c.work, m);
      var x :| x in c.work && !x.asset && m == MemberOf(x);
      assert x in c'.work;
    }
    forall x | x in c'.work && !x.asset
      ensures MemberOf(x) in c'.store.members <==> Touched(c'.store, x.id)
    {
      if x in items {
        NewUntouched(cfg, c, i, at, x);
        NewNotMember(c, x);
      }
    }
  }

  lemma NewNotMember(c: Controller, x: Item)
    requires MembersSound(c) && x.id !in Ids(c.work)
    ensures MemberOf(x) !in c.store.members
  {
    assert MemberOf(x) in c.store.members ==> MemberKnown(c.work, MemberOf(x));
  }

  lemma NewRecordable(cfg: Config, c: Controller, i: int, at: int)
    requires Setting(cfg, c.store) && Always(cfg, c) && MembersSound(c) && NewStage(cfg, c.work, i, at)
    ensures Recordable(Inserted(c, NewItems(cfg, i, at), at).store, NewTracked(cfg, i, at))
  {
    var items := NewItems(cfg, i, at);
    var tracked := NewTracked(cfg, i, at);
    NewTrackedFacts(cfg, c, i, at);
    NewWorkSound(cfg, c.work, i, at);
    InsertedMembersSound(cfg, c, i, at);
    UntouchedRecordable(cfg, c.(work := c.work + items), tracked);
    RecordableAfterQueue(c.store, tracked, Ids(Undeferred(items, Ids(items))));
  }

  lemma OpeningMember(cfg: Config, c: Controller, i: int, at: int, x: Item)
    requires Always(cfg, c) && MembersSound(c) && NewStage(cfg, c.work, i, at)
    requires x in c.work + NewItems(cfg, i, at) && !x.asset
    ensures
      var s := Opening(cfg, c, i, at).store;
      MemberOf(x) in s.members <==> Touched(s, x.id)
  {
    var items, tracked := NewItems(cfg, i, at), NewTracked(cfg, i, at);
    NewTrackedFacts(cfg, c, i, at);
    NewlyQueued(cfg, c, i, at, x);
    TrackedMember(c, items, tracked, x);
    if x in items {
      NewNotMember(c, x);
    } else {
      InIds(c.work, x);
    }
  }

  lemma TrackedMember(c: Controller, items: seq<Item>, tracked: seq<Item>, x: Item)
    requires x in c.work + items && DistinctIds(items)
    requires forall y :: y in tracked ==> y in items
    requires forall y :: y in items ==> y.id !in Ids(c.work)
    ensures MemberOf(x) in MembersFor(tracked) <==> x in tracked
  {
    if MemberOf(x) in MembersFor(tracked) {
      var y := OpenedMember(tracked, MemberOf(x));
      if x in c.work {
        InIds(c.work, x);
      }
      assert x in items;
      SameId(items, x, y);
    }
    if x in tracked {
      var k :| 0 <= k < |tracked| && tracked[k] == x;
      assert MembersFor(tracked)[k] == MemberOf(x);
    }
  }

  lemma OpeningMembersSound(cfg: Config, c: Controller, i: int, at: int)
    requires Always(cfg, c) && MembersSound(c) && NewStage(cfg, c.work, i, at)
    ensures MembersSound(Opening(cfg, c, i, at))
  {
    var c' := Opening(cfg, c, i, at);
    forall m | m in c'.store.members
      ensures MemberKnown(c'.work, m)
    {
      if m in c.store.members {
        assert MemberKnown(c.work, m);
        var x :| x in c.work && !x.asset && m == MemberOf(x);
        assert x in c'.work;
      } else {
        NewTrackedFacts(cfg, c, i, at);
        var x := OpenedMember(NewTracked(cfg, i, at), m);
        assert x in c'.work && !x.asset;
      }
    }
    forall x | x in c'.work && !x.asset
      ensures MemberOf(x) in c'.store.members <==> Touched(c'.store, x.id)
    {
      OpeningMember(cfg, c, i, at, x);
    }
  }

  /** A deferred new item waits for an item of its own stage. */
  lemma NewWaits(cfg: Config, c: Controller, i: int, at: int, x: Item)
    requires Always(cfg, c) && NewStage(cfg, c.work, i, at) && x in NewItems(cfg, i, at) && Deferred(cfg, x)
    ensures exists k :: 0 <= k < |x.dependsOn| && !Succeeds(c.store, x.dependsOn[k])
  {
    var items := NewItems(cfg, i, at);
    RecordsCompiled(cfg, i, at, x);
    IdsOfRecords(i, cfg.compile(i).value, at);
    var k :| 0 <= k < |x.dependsOn| && x.dependsOn[k] in CompiledIds(cfg.compile(i).value);
    var y :| y in items && y.id == x.dependsOn[k];
    NewUntouched(cfg, c, i, at, y);
  }

  lemma OpeningWaiters(cfg: Config, c: Controller, i: int, at: int)
    requires Always(cfg, c) && WaitersSound(c, {}) && NewStage(cfg, c.work, i, at)
    ensures WaitersSound(Opening(cfg, c, i, at), {})
  {
    var c' := Opening(cfg, c, i, at);
    forall x | x in c'.work && !Touched(c'.store, x.id)
      ensures Waits(c', x, {})
    {
      if x in c.work {
        assert Waits(c, x, {});
      } else {
        NewlyQueued(cfg, c, i, at, x);
        NewWaits(cfg, c, i, at, x);
      }
    }
  }

  lemma OpeningClean(cfg: Config, c: Controller, i: int, at: int)
    requires Always(cfg, c) && Clean(c, i, {}, {}) && NewStage(cfg, c.work, i, at)
    ensures Clean(Opening(cfg, c, i, at), i, {}, {})
  {
    OpeningMembersSound(cfg, c, i, at);
    OpeningWaiters(cfg, c, i, at);
    NewTrackedFacts(cfg, c, i, at);
    OpenedFactsSound(c.store, Opening(cfg, c, i, at).store, NewTracked(cfg, i, at), i);
  }

  // ---------------------------------------------------------------------------------------
  // Queueing a stage

  ghost predicate CleanAt(cfg: Config, c: Controller, f: int) {
    Setting(cfg, c.store) && Always(cfg, c) && Clean(c, f, {}, {}) && FactOrigin(cfg, c.store) && FactsCover(cfg, c)
  }

  lemma CleanAtInv(cfg: Config, c: Controller, f: int)
    requires CleanAt(cfg, c, f) && Onward(cfg, c, f, false)
    ensures Inv(cfg, c)
  {
  }

  ghost predicate NoMembersOn(s: Store, i: int) {
    forall r :: r in s.steps && r.stageIndex == i ==> !HasMembers(s, r)
  }

  /** A stage not yet inserted has no memberships. */
  lemma NewHasNoMembers(cfg: Config, c: Controller, i: int, at: int, m: MemberRecord)
    requires WorkSound(cfg, c.work) && MembersSound(c) && NewStage(cfg, c.work, i, at) && m in c.store.members
    ensures m.stageIndex != i
  {
    assert MemberKnown(c.work, m);
    var x :| x in c.work && !x.asset && m == MemberOf(x);
    OldElsewhere(cfg, c.work, i, at, x);
  }

  /** The memberships of a new stage lie on steps without an output. */
  lemma OpeningCover(cfg: Config, c: Controller, i: int, at: int)
    requires Setting(cfg, c.store) && Always(cfg, c) && MembersSound(c) && FactOrigin(cfg, c.store) && FactsCover(cfg, c)
    requires NewStage(cfg, c.work, i, at)
    ensures FactsCover(cfg, Opening(cfg, c, i, at))
  {
    var c' := Opening(cfg, c, i, at);
    NewTrackedFacts(cfg, c, i, at);
    forall r | r in c'.store.steps && r.stepIndex in c'.store.facts && Covered(cfg, c'.refused, r)
      ensures AllTerminal(c'.store, r)
    {
      assert AllTerminal(c.store, r);
      forall m | m in c'.store.members && Matches(m, r)
        ensures m.id in c'.store.terminal
      {
        if m !in c.store.members {
          var x := OpenedMember(NewTracked(cfg, i, at), m);
          NewStepHasNoFact(cfg, c, i, at, x, r);
        }
      }
    }
  }

  lemma NewStepHasNoFact(cfg: Config, c: Controller, i: int, at: int, x: Item, r: StepRecord)
    requires WorkSound(cfg, c.work) && MembersSound(c) && FactOrigin(cfg, c.store) && NewStage(cfg, c.work, i, at)
    requires x in NewItems(cfg, i, at) && r in c.store.steps && Matches(MemberOf(x), r)
    ensures r.stepIndex !in c.store.facts
  {
    RecordsCompiled(cfg, i, at, x);
    assert cfg.compile(i).value[x.index] in cfg.compile(i).value;
    if HasMembers(c.store, r) {
      var m :| m in c.store.members && Matches(m, r);
      NewHasNoMembers(cfg, c, i, at, m);
    }
  }

  /** Queueing a stage whose items are new. */
  lemma QueueNewStage(cfg: Config, c: Controller, i: int, at: int)
    requires CleanAt(cfg, c, i) && NewStage(cfg, c.work, i, at)
    requires QueueItems(c, NewItems(cfg, i, at), Undeferred(NewItems(cfg, i, at), Ids(NewItems(cfg, i, at))), at).Some?
    ensures
      var queued := Undeferred(NewItems(cfg, i, at), Ids(NewItems(cfg, i, at)));
      var c' := QueueItems(c, NewItems(cfg, i, at), queued, at).value;
      RecordMembers(c'.store, Tracked(queued)) == (Opening(cfg, c, i, at).store, true)
      && c'.(store := Opening(cfg, c, i, at).store) == Opening(cfg, c, i, at)
    ensures CleanAt(cfg, Opening(cfg, c, i, at), i)
  {
    var items := NewItems(cfg, i, at);
    forall x | x in items
      ensures x !in c.work
    {
      if x in c.work {
        InIds(c.work, x);
      }
    }
    KeepAll(items, (x: Item) => x !in c.work);
    var c' := Inserted(c, items, at);
    NewRecordable(cfg, c, i, at);
    MembersAppended(c'.store, NewTracked(cfg, i, at));
    InsertedAlways(cfg, c, i, at);
    AlwaysByQueue(cfg, c', Opening(cfg, c, i, at));
    OpeningClean(cfg, c, i, at);
    SettingBySteps(cfg, c.store, Opening(cfg, c, i, at).store);
    FactOriginGrows(cfg, c.store, Opening(cfg, c, i, at).store);
    OpeningCover(cfg, c, i, at);
  }

  /** Queueing a stage again: only assets can be queued, and nothing is recorded. */
  lemma QueueOldStage(cfg: Config, c: Controller, i: int, at: int)
    requires CleanAt(cfg, c, i) && NoMembersOn(c.store, i) && cfg.compile(i).Some?
    requires forall x :: x in NewItems(cfg, i, at) ==> x in c.work
    ensures
      var items := NewItems(cfg, i, at);
      var queued := Undeferred(items, Ids(items));
      && CleanAt(cfg, Enqueued(c, queued, at), i)
      && Tracked(queued) == []
      && c.work + Keep(items, (x: Item) => x !in c.work) == c.work
  {
    var items := NewItems(cfg, i, at);
    var queued := Undeferred(items, Ids(items));
    forall x | x in queued
      ensures x in c.work && x.asset && !Deferred(cfg, x)
    {
      UndeferredExact(cfg, i, at, x);
      OldUndeferredIsAsset(cfg, c, i, at, x);
    }
    KeepNone(queued, (x: Item) => !x.asset);
    KeepNone(items, (x: Item) => x !in c.work);
    RequeueAssets(cfg, c, i, queued, at);
    SettingBySteps(cfg, c.store, Enqueued(c, queued, at).store);
    FactOriginGrows(cfg, c.store, Enqueued(c, queued, at).store);
    CoverKept(cfg, c, Enqueued(c, queued, at));
  }

  lemma OldUndeferredIsAsset(cfg: Config, c: Controller, i: int, at: int, x: Item)
    requires CleanAt(cfg, c, i) && NoMembersOn(c.store, i) && x in c.work && x.stageIndex == i && !Deferred(cfg, x)
    ensures x.asset
  {
    if !x.asset {
      NothingBegun(cfg, c, i, x);
    }
  }

  /** The stage's empty steps have facts, and some step has none. */
  predicate EmptiesDone(cfg: Config, s: Store, i: int) {
    && !Settled(s, i)
    && (forall r :: r in s.steps && r.stageIndex == i && IsUncompiled(cfg, r) ==> r.stepIndex in s.facts)
  }

  /** A stage all of whose items are known is open. */
  lemma OpenedOnward(cfg: Config, c: Controller, c': Controller, i: int, at: int)
    requires FactOrigin(cfg, c'.store) && FactsCover(cfg, c') && EmptiesDone(cfg, c.store, i) && cfg.compile(i).Some?
    requires c'.store.steps == c.store.steps && c'.store.facts == c.store.facts
    requires forall x :: x in NewItems(cfg, i, at) ==> x in c'.work
    ensures Onward(cfg, c', i, false)
  {
    assert !Settled(c'.store, i);
    forall k | 0 <= k < |cfg.compile(i).value|
      ensures InWork(c'.work, i, k)
    {
      assert NewItems(cfg, i, at)[k] in c'.work;
    }
  }

  lemma QueueKnownStage(cfg: Config, c: Controller, i: int, at: int)
    requires CleanAt(cfg, c, i) && NoMembersOn(c.store, i) && cfg.compile(i).Some? && EmptiesDone(cfg, c.store, i)
    requires forall x :: x in NewItems(cfg, i, at) ==> x in c.work
    requires QueueItems(c, NewItems(cfg, i, at), Undeferred(NewItems(cfg, i, at), Ids(NewItems(cfg, i, at))), at).Some?
    ensures Inv(cfg, QueueStage(c, i, cfg.compile(i).value, at))
  {
    var queued := Undeferred(NewItems(cfg, i, at), Ids(NewItems(cfg, i, at)));
    QueueOldStage(cfg, c, i, at);
    OpenedOnward(cfg, c, Enqueued(c, queued, at), i, at);
    CleanAtInv(cfg, Enqueued(c, queued, at), i);
    assert QueueStage(c, i, cfg.compile(i).value, at) == Enqueued(c, queued, at);
  }

  lemma QueueFreshStage(cfg: Config, c: Controller, i: int, at: int)
    requires CleanAt(cfg, c, i) && NewStage(cfg, c.work, i, at) && EmptiesDone(cfg, c.store, i)
    requires QueueItems(c, NewItems(cfg, i, at), Undeferred(NewItems(cfg, i, at), Ids(NewItems(cfg, i, at))), at).Some?
    ensures Inv(cfg, QueueStage(c, i, cfg.compile(i).value, at))
  {
    QueueNewStage(cfg, c, i, at);
    OpenedOnward(cfg, c, Opening(cfg, c, i, at), i, at);
    CleanAtInv(cfg, Opening(cfg, c, i, at), i);
    assert QueueStage(c, i, cfg.compile(i).value, at) == Opening(cfg, c, i, at);
  }

  lemma QueueRefused(cfg: Config, c: Controller, i: int, at: int)
    requires CleanAt(cfg, c, i) && cfg.compile(i).Some?
    requires QueueItems(c, NewItems(cfg, i, at), Undeferred(NewItems(cfg, i, at), Ids(NewItems(cfg, i, at))), at).None?
    ensures Inv(cfg, QueueStage(c, i, cfg.compile(i).value, at))
  {
    FailStageKeeps(cfg, c, i, QUEUE_FAILED);
    assert QueueStage(c, i, cfg.compile(i).value, at) == FailOpening(c, i, QUEUE_FAILED);
  }

  lemma StageIsNew(cfg: Config, work: seq<Item>, i: int, at: int)
    requires WorkSound(cfg, work) && cfg.compile(i).Some? && Insertable(work, NewItems(cfg, i, at))
    requires !forall x :: x in NewItems(cfg, i, at) ==> x in work
    ensures NewStage(cfg, work, i, at)
  {
    AllOrNothing(cfg, work, i, at);
  }

  lemma QueueStageKeeps(cfg: Config, c: Controller, i: int, at: int)
    requires CleanAt(cfg, c, i) && NoMembersOn(c.store, i) && cfg.compile(i).Some? && EmptiesDone(cfg, c.store, i)
    ensures Inv(cfg, QueueStage(c, i, cfg.compile(i).value, at))
  {
    var items := NewItems(cfg, i, at);
    if QueueItems(c, items, Undeferred(items, Ids(items)), at).None? {
      QueueRefused(cfg, c, i, at);
    } else {
      if forall x :: x in items ==> x in c.work {
        QueueKnownStage(cfg, c, i, at);
      } else {
        StageIsNew(cfg, c.work, i, at);
        QueueFreshStage(cfg, c, i, at);
      }
    }
  }

  // ---------------------------------------------------------------------------------------
  // The activation loop

  lemma EmptiesKeepOrigin(cfg: Config, s: Store, i: int)
    requires Setting(cfg, s) && AttemptsSound(s) && StageKnown(s, i) && FactOrigin(cfg, s) && cfg.compile(i).Some?
    ensures FactOrigin(cfg, RecordEmptySteps(s, i, CompiledSteps(cfg.compile(i).value), cfg.empty).0)
  {
    assert Healthy(s);
    var compiled := CompiledSteps(cfg.compile(i).value);
    EmptiesRecorded(s, i, compiled, cfg.empty);
    var s' := RecordEmptySteps(s, i, compiled, cfg.empty).0;
    forall r | r in s'.steps && r.stepIndex in s'.facts
      ensures HasMembers(s', r) || IsUncompiled(cfg, r)
    {
      if r.stepIndex in s.facts {
        assert HasMembers(s, r) ==> HasMembers(s', r);
      } else {
        EmptyFactsExact(s, i, compiled, cfg.empty, r);
      }
    }
  }

  /** Empty steps have no memberships. */
  lemma EmptiesKeepCover(cfg: Config, c: Controller, i: int)
    requires Setting(cfg, c.store) && AttemptsSound(c.store) && StageKnown(c.store, i) && FactsCover(cfg, c) && cfg.compile(i).Some?
    ensures FactsCover(cfg, c.(store := RecordEmptySteps(c.store, i, CompiledSteps(cfg.compile(i).value), cfg.empty).0))
  {
    var compiled := CompiledSteps(cfg.compile(i).value);
    assert Healthy(c.store);
    EmptiesRecorded(c.store, i, compiled, cfg.empty);
    var s' := RecordEmptySteps(c.store, i, compiled, cfg.empty).0;
    forall r | r in s'.steps && r.stepIndex in s'.facts && Covered(cfg, c.refused, r)
      ensures AllTerminal(s', r)
    {
      if r.stepIndex in c.store.facts {
        assert AllTerminal(c.store, r);
      } else {
        EmptyFactsExact(c.store, i, compiled, cfg.empty, r);
      }
    }
  }

  lemma EmptiesKeepClean(cfg: Config, c: Controller, i: int)
    requires CleanAt(cfg, c, i) && StageKnown(c.store, i) && cfg.compile(i).Some?
    ensures
      var c' := c.(store := RecordEmptySteps(c.store, i, CompiledSteps(cfg.compile(i).value), cfg.empty).0);
      CleanAt(cfg, c', i) && c'.store == c.store.(facts := c'.store.facts)
  {
    var compiled := CompiledSteps(cfg.compile(i).value);
    var c' := c.(store := RecordEmptySteps(c.store, i, compiled, cfg.empty).0);
    EmptiesKeepFacts(cfg, c.store, i, compiled);
    EmptiesKeepOrigin(cfg, c.store, i);
    EmptiesKeepCover(cfg, c, i);
    CleanByFacts(c, c', i, {}, {}, {});
    AlwaysByQueue(cfg, c, c');
    SettingBySteps(cfg, c.store, c'.store);
  }

  /** A stage with steps left after its empty ones were completed. */
  lemma EmptiesLeaveSome(cfg: Config, s: Store, i: int)
    requires Setting(cfg, s) && AttemptsSound(s) && StageKnown(s, i) && cfg.compile(i).Some?
    requires forall r :: r in s.steps && r.stageIndex == i && HasMembers(s, r) ==> !IsUncompiled(cfg, r) && !AllTerminal(s, r)
    requires forall r :: r in s.steps && r.stageIndex == i ==> r.stepIndex !in s.facts
    requires !RecordEmptySteps(s, i, CompiledSteps(cfg.compile(i).value), cfg.empty).1
    ensures EmptiesDone(cfg, RecordEmptySteps(s, i, CompiledSteps(cfg.compile(i).value), cfg.empty).0, i)
    ensures cfg.compile(i).value != []
  {
    assert Healthy(s);
    var compiled := CompiledSteps(cfg.compile(i).value);
    EmptiesRecorded(s, i, compiled, cfg.empty);
    EmptyFanoutFlag(s, i, compiled, cfg.empty);
    var s' := RecordEmptySteps(s, i, compiled, cfg.empty).0;
    forall r | r in s.steps && r.stageIndex == i
      ensures r.stepIndex in s'.facts <==> IsUncompiled(cfg, r)
    {
      EmptyFactsExact(s, i, compiled, cfg.empty, r);
    }
    var q :| q in s.steps && q.stageIndex == i;
    if IsUncompiled(cfg, q) {
      assert Empty(s, q, i, compiled);
      var r :| r in s.steps && r.stageIndex == i && !Done(s, r) && !Empty(s, r, i, compiled);
      assert !IsUncompiled(cfg, r);
    }
  }

  /** One turn of the loop on a stage not yet begun. */
  lemma ActivateStageKeeps(cfg: Config, c: Controller, i: int, at: int)
    requires CleanAt(cfg, c, i) && StageKnown(c.store, i) && !StageBegun(c.store, i)
    ensures
      var (c', more) := ActivateStage(cfg, c, i, at);
      && (more ==> CleanAt(cfg, c', i) && FactsBelow(c'.store, i + 1))
      && (!more ==> Inv(cfg, c'))
  {
    if cfg.compile(i).None? {
      FailStageKeeps(cfg, c, i, COMPILE_FAILED);
    } else {
      var compiled := cfg.compile(i).value;
      var (s, all) := RecordEmptySteps(c.store, i, CompiledSteps(compiled), cfg.empty);
      var c' := c.(store := s);
      EmptiesKeepClean(cfg, c, i);
      if all {
        EmptiesFinishStage(cfg, c.store, i, CompiledSteps(compiled));
      } else {
        NotBegunEmpties(cfg, c.store, i);
        NotBegunNoMembers(c.store, c'.store, i);
        QueueStageKeeps(cfg, c', i, at);
      }
    }
  }

  lemma NotBegunEmpties(cfg: Config, s: Store, i: int)
    requires Setting(cfg, s) && AttemptsSound(s) && StageKnown(s, i) && cfg.compile(i).Some? && !StageBegun(s, i)
    requires !RecordEmptySteps(s, i, CompiledSteps(cfg.compile(i).value), cfg.empty).1
    ensures EmptiesDone(cfg, RecordEmptySteps(s, i, CompiledSteps(cfg.compile(i).value), cfg.empty).0, i)
    ensures cfg.compile(i).value != []
  {
    forall r | r in s.steps && r.stageIndex == i
      ensures !HasMembers(s, r) && r.stepIndex !in s.facts
    {
      assert !Begun(s, r);
    }
    EmptiesLeaveSome(cfg, s, i);
  }

  lemma NotBegunNoMembers(s: Store, s': Store, i: int)
    requires !StageBegun(s, i) && s' == s.(facts := s'.facts)
    ensures NoMembersOn(s', i)
  {
    forall r | r in s'.steps && r.stageIndex == i
      ensures !HasMembers(s', r)
    {
      assert !Begun(s, r);
    }
  }

  /** A stage beyond the last one opened is blocked, if there is one. */
  lemma BeyondIsBlocked(cfg: Config, c: Controller, f: int)
    requires CleanAt(cfg, c, f) && StageKnown(c.store, f + 1)
    ensures StageIs(c.store, f + 1, Blocked)
  {
    var i := f + 1;
    CleanHealthy(c);
    StageFound(c.store, i);
    StageStates(c.store, i);
    forall r | r in c.store.steps && r.stageIndex == i
      ensures !Begun(c.store, r)
    {
      if Begun(c.store, r) {
        BegunUpTo(cfg, c, f, r);
      }
    }
    var q :| q in c.store.steps && q.stageIndex == 0;
    var k :| 0 <= k < |c.store.steps| && c.store.steps[k] == q;
    assert !DependencyStore.IsEarliest(c.store.steps, i);
  }

  lemma BegunUpTo(cfg: Config, c: Controller, f: int, r: StepRecord)
    requires CleanAt(cfg, c, f) && r in c.store.steps && Begun(c.store, r)
    ensures r.stageIndex <= f
  {
    if r.stepIndex in c.store.facts {
      assert FactKnown(c.store, r.stepIndex, f);
    } else {
      var m :| m in c.store.members && Matches(m, r);
      assert MemberKnown(c.work, m);
    }
  }

  lemma {:induction false} ActivateFromKeeps(cfg: Config, c: Controller, f: int, i: int, at: int)
    requires CleanAt(cfg, c, f) && FactsBelow(c.store, i) && (i != f + 1 ==> Onward(cfg, c, f, false))
    ensures Inv(cfg, ActivateFrom(cfg, c, i, at))
    decreases LastStage(c.store.steps) - i
  {
    if StageIs(c.store, i, Blocked) {
      CleanHealthy(c);
      BlockedStage(c.store, i);
      BlockedNotBefore(c, f, i);
      FrontierMoves(c, f, i);
      ActivateStageKeeps(cfg, c, i, at);
      FoundStageBounded(c.store, i, Blocked);
      var (c', more) := ActivateStage(cfg, c, i, at);
      if more {
        ActivateFromKeeps(cfg, c', i, i + 1, at);
      }
    } else {
      if i == f + 1 && StageKnown(c.store, i) {
        BeyondIsBlocked(cfg, c, f);
        assert false;
      }
      assert i == f + 1 ==> Settled(c.store, f);
      CleanAtInv(cfg, c, f);
    }
  }

  /** A completed stage has facts on all its steps and on all steps before it. */
  lemma CompletedStageSettled(cfg: Config, c: Controller, f: int, i: int)
    requires CleanAt(cfg, c, f) && StageIs(c.store, i, Progress.Completed)
    ensures FactsBelow(c.store, i + 1)
  {
    CleanHealthy(c);
    StageFound(c.store, i);
    StageStates(c.store, i);
    forall r | r in c.store.steps && r.stageIndex == i
      ensures r.stepIndex in c.store.facts
    {
      assert Done(c.store, r);
    }
    var q :| q in c.store.steps && q.stageIndex == i;
    assert FactKnown(c.store, q.stepIndex, f);
    assert i <= f;
  }

  lemma SettledStageCompleted(cfg: Config, c: Controller, f: int)
    requires CleanAt(cfg, c, f) && StageKnown(c.store, f) && Settled(c.store, f)
    ensures StageIs(c.store, f, Progress.Completed)
  {
    CleanHealthy(c);
    StageFound(c.store, f);
    StageStates(c.store, f);
    assert StageDone(c.store, f);
  }

  /** A plan with a blocked stage is still running. */
  lemma BlockedMeansRunning(s: Store, i: int)
    requires Healthy(s) && StageIs(s, i, Blocked)
    ensures Rebuild(s).state == WorkflowState.Running
  {
    HealthyPlanState(s);
    var g := StageAt(Rebuild(s).stages, i);
    assert Rebuild(s).stages[g].state == Blocked;
  }

  /** Trying the stage after a completed one keeps the invariant, and settles a stage just
      finished. */
  lemma ActivateNextKeeps(cfg: Config, c: Controller, f: int, completed: int, at: int)
    requires CleanAt(cfg, c, f) && Onward(cfg, c, f, completed == f) && StageKnown(c.store, completed)
    ensures Inv(cfg, ActivateNext(cfg, c, completed, at))
  {
    if Rebuild(c.store).state == WorkflowState.Running && StageIs(c.store, completed, Progress.Completed) {
      CompletedStageSettled(cfg, c, f, completed);
      ActivateFromKeeps(cfg, c, f, completed + 1, at);
    } else {
      if completed == f && Settled(c.store, f) && StageKnown(c.store, f + 1) {
        SettledStageCompleted(cfg, c, f);
        BeyondIsBlocked(cfg, c, f);
        CleanHealthy(c);
        BlockedMeansRunning(c.store, f + 1);
        assert false;
      }
      CleanAtInv(cfg, c, f);
    }
  }
}

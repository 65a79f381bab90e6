/** Releasing deferred items keeps the invariant of a workflow run. */
module WorkflowRunRelease {
  import opened DependencyStore
  import opened StoreLaws
  import opened StoreView
  import opened StoreEffects
  import opened WorkflowRun
  import opened WorkflowRunInv
  import opened WorkflowRunParts

  /** What a released item is: deferred, never queued before, and with nothing left to wait for. */
  lemma ReadyFacts(cfg: Config, c: Controller, done: string, x: Item)
    requires Always(cfg, c) && x in ReadyItems(c, done)
    ensures x in c.work && !Touched(c.store, x.id) && Deferred(cfg, x) && x.id !in c.released
    ensures AllSucceed(c.store, x.dependsOn) && done in x.dependsOn
  {
  }

  lemma InIds(items: seq<Item>, x: Item)
    requires x in items
    ensures x.id in Ids(items)
  {
  }

  lemma IdsListed(items: seq<Item>, id: string)
    ensures id in IdList(items) <==> id in Ids(items)
  {
    if id in Ids(items) {
      var x :| x in items && x.id == id;
      var i :| 0 <= i < |items| && items[i] == x;
      assert IdList(items)[i] == id;
    }
  }

  lemma QueueAfterRelease(cfg: Config, c: Controller, done: string, at: int)
    requires Always(cfg, c)
    ensures QueueSound(cfg, Enqueued(c, ReadyItems(c, done), at))
  {
    var ready := ReadyItems(c, done);
    var c' := Enqueued(c, ready, at);
    forall id | Touched(c'.store, id)
      ensures id in Ids(c'.work)
    {
      if id in Ids(ready) {
        var x :| x in ready && x.id == id;
        InIds(c.work, x);
      } else {
        assert Touched(c.store, id);
      }
    }
    forall x | x in c'.work && !x.asset
      ensures InOnePlace(c'.store, x.id)
    {
      assert InOnePlace(c.store, x.id);
      if x.id in Ids(ready) {
        var y :| y in ready && y.id == x.id;
        assert !Touched(c.store, y.id);
      }
    }
    forall x | x in c'.work && !Deferred(cfg, x)
      ensures Touched(c'.store, x.id)
    {
      assert Touched(c.store, x.id);
    }
  }

  lemma LogAfterRelease(cfg: Config, c: Controller, done: string)
    requires Always(cfg, c)
    ensures Distinct(c.released + IdList(ReadyItems(c, done)))
  {
    var ready := ReadyItems(c, done);
    KeepDistinct(c.work, (x: Item) => IsReady(c, done, x));
    var log := c.released + IdList(ready);
    forall i, j | 0 <= i < j < |log|
      ensures log[i] != log[j]
    {
      if j >= |c.released| {
        var y := ready[j - |c.released|];
        assert y in ready;
        ReadyFacts(cfg, c, done, y);
        if i >= |c.released| {
          assert ready[i - |c.released|].id != y.id;
        }
      }
    }
  }

  lemma ReleasesAfterRelease(cfg: Config, c: Controller, done: string, at: int)
    requires Always(cfg, c) && Touched(c.store, done)
    ensures
      var ready := ReadyItems(c, done);
      ReleasesSound(cfg, Enqueued(c, ready, at).(released := c.released + IdList(ready)))
  {
    var ready := ReadyItems(c, done);
    var c' := Enqueued(c, ready, at).(released := c.released + IdList(ready));
    LogAfterRelease(cfg, c, done);
    forall id | id in c'.released
      ensures id in Ids(c'.work)
    {
      if id !in c.released {
        IdsListed(ready, id);
        var x :| x in ready && x.id == id;
        InIds(c.work, x);
      }
    }
    forall x | x in c'.work
      ensures x.id in c'.released <==> Deferred(cfg, x) && Touched(c'.store, x.id)
      ensures x.id in c'.released ==> AllSucceed(c'.store, x.dependsOn)
    {
      ReleaseOfOne(cfg, c, c', done, x);
    }
    forall x, y | x in c'.work && y in c'.work && Alike(x, y) && x.id in c'.released
      ensures y.id in c'.released
    {
      ReleaseOfAlike(cfg, c, done, x, y);
    }
  }

  /** An item like one that is ready is ready too, or was released before. */
  lemma ReleaseOfAlike(cfg: Config, c: Controller, done: string, x: Item, y: Item)
    requires Always(cfg, c) && Touched(c.store, done) && x in c.work && y in c.work && Alike(x, y)
    requires x.id in c.released + IdList(ReadyItems(c, done))
    ensures y.id in c.released + IdList(ReadyItems(c, done))
  {
    var ready := ReadyItems(c, done);
    if x.id !in c.released && y.id !in c.released {
      IdsListed(ready, x.id);
      var z :| z in ready && z.id == x.id;
      SameId(c.work, x, z);
      ReadyFacts(cfg, c, done, x);
      AlikeIsReady(cfg, c, done, x, y);
      InIds(ready, y);
      IdsListed(ready, y.id);
    }
  }

  lemma AlikeIsReady(cfg: Config, c: Controller, done: string, x: Item, y: Item)
    requires Always(cfg, c) && Touched(c.store, done) && x in ReadyItems(c, done) && y in c.work && Alike(x, y) && y.id !in c.released
    ensures y in ReadyItems(c, done)
  {
    ReadyFacts(cfg, c, done, x);
    AlikeDeferred(cfg, x, y);
    assert done in Wanted(y.dependsOn);
    forall k | 0 <= k < |y.dependsOn|
      ensures Succeeds(c.store, y.dependsOn[k])
    {
      assert y.dependsOn[k] in Wanted(x.dependsOn);
      var j :| 0 <= j < |x.dependsOn| && x.dependsOn[j] == y.dependsOn[k];
    }
  }

  lemma AlikeDeferred(cfg: Config, x: Item, y: Item)
    requires Alike(x, y) && Deferred(cfg, x)
    ensures Deferred(cfg, y)
  {
    var current := CompiledIds(cfg.compile(x.stageIndex).value);
    var k :| 0 <= k < |x.dependsOn| && x.dependsOn[k] in current;
    assert x.dependsOn[k] in Wanted(y.dependsOn);
    var j :| 0 <= j < |y.dependsOn| && y.dependsOn[j] == x.dependsOn[k];
  }

  lemma ReleaseOfOne(cfg: Config, c: Controller, c': Controller, done: string, x: Item)
    requires Always(cfg, c) && x in c.work
    requires c'.store == c.store.(queued := c.store.queued + Ids(ReadyItems(c, done)))
    requires c'.released == c.released + IdList(ReadyItems(c, done))
    ensures x.id in c'.released <==> Deferred(cfg, x) && Touched(c'.store, x.id)
    ensures x.id in c'.released ==> AllSucceed(c'.store, x.dependsOn)
  {
    var ready := ReadyItems(c, done);
    IdsListed(ready, x.id);
    if x.id in Ids(ready) {
      var y :| y in ready && y.id == x.id;
      SameId(c.work, x, y);
      ReadyFacts(cfg, c, done, x);
      SucceedsKept(c.store, c'.store, x.dependsOn);
    } else if x.id in c.released {
      SucceedsKept(c.store, c'.store, x.dependsOn);
    }
  }

  lemma SucceedsKept(s: Store, s': Store, dependsOn: seq<string>)
    requires AllSucceed(s, dependsOn) && s'.terminal == s.terminal
    ensures AllSucceed(s', dependsOn)
  {
  }

  /** Releasing keeps what always holds, also in a run that has failed. */
  lemma ReleaseKeepsAlways(cfg: Config, c: Controller, done: string, at: int)
    requires Always(cfg, c) && SavedMeansFailed(c.store) && Touched(c.store, done)
    ensures
      var c' := EnqueueReady(c, done, at).0;
      Always(cfg, c') && SavedMeansFailed(c'.store) && Grows(c.store, c'.store)
  {
    var ready := ReadyItems(c, done);
    var c1 := Enqueued(c, ready, at).(released := c.released + IdList(ready));
    var queued := Enqueued(c, ready, at);
    QueueAfterRelease(cfg, c, done, at);
    ReleasesAfterRelease(cfg, c, done, at);
    assert QueueSound(cfg, c1) by { SameQueueSound(cfg, queued, c1); }
    RecordMembersKeeps(c1.store, ready);
    AlwaysByQueue(cfg, c1, c1.(store := RecordMembers(c1.store, ready).0));
  }

  lemma SameQueueSound(cfg: Config, c: Controller, c': Controller)
    requires QueueSound(cfg, c) && c'.store == c.store && c'.work == c.work
    ensures QueueSound(cfg, c')
  {
  }

  // ---------------------------------------------------------------------------------------
  // While nothing has failed

  lemma ReadyStepsKnown(cfg: Config, c: Controller, done: string)
    requires Setting(cfg, c.store) && Always(cfg, c)
    ensures forall x :: x in ReadyItems(c, done) ==> StepKnown(c.store, x) && !x.asset
  {
    forall x | x in ReadyItems(c, done)
      ensures StepKnown(c.store, x) && !x.asset
    {
      ReadyFacts(cfg, c, done, x);
      var r := StepOf(cfg, c, x);
    }
  }

  /** An untouched item clashes with no recorded membership. */
  lemma UntouchedNoClash(cfg: Config, c: Controller, x: Item)
    requires WorkSound(cfg, c.work) && MembersSound(c) && x in c.work && !x.asset && !Touched(c.store, x.id)
    ensures NoClash(c.store, MemberOf(x))
  {
    forall m | m in c.store.members && m.stageIndex == x.stageIndex && m.stepIndex == x.stepIndex
      ensures m.id != x.id && m.index != x.index
    {
      assert MemberKnown(c.work, m);
      var y :| y in c.work && !y.asset && m == MemberOf(y);
      assert Touched(c.store, y.id);
      if y.index == x.index {
        SamePosition(cfg, x, y);
      }
    }
  }

  /** Untouched items of the work list can be recorded together. */
  lemma UntouchedRecordable(cfg: Config, c: Controller, items: seq<Item>)
    requires Setting(cfg, c.store) && WorkSound(cfg, c.work) && MembersSound(c) && DistinctIds(items)
    requires forall x :: x in items ==> x in c.work && !x.asset && !Touched(c.store, x.id)
    ensures Recordable(c.store, items)
  {
    forall x | x in items
      ensures StepKnown(c.store, x) && x.id !in c.store.terminal && NoClash(c.store, MemberOf(x))
    {
      var r := StepOf(cfg, c, x);
      UntouchedNoClash(cfg, c, x);
    }
    forall i, j | 0 <= i < j < |items| && items[i].stageIndex == items[j].stageIndex
      ensures items[i].index != items[j].index
    {
      assert items[i] in items && items[j] in items;
      if items[i].index == items[j].index {
        SamePosition(cfg, items[i], items[j]);
      }
    }
  }

  /** Queueing untouched, tracked items and recording their memberships. */
  function Opened(c: Controller, items: seq<Item>, at: int): Controller {
    var c' := Enqueued(c, items, at);
    c'.(store := c'.store.(members := c.store.members + MembersFor(items)))
  }

  lemma RecordableAfterQueue(s: Store, items: seq<Item>, ids: set<string>)
    requires Recordable(s, items)
    ensures Recordable(s.(queued := s.queued + ids), items)
  {
    var s' := s.(queued := s.queued + ids);
    forall x | x in items
      ensures StepKnown(s', x) && x.id !in s'.terminal && NoClash(s', MemberOf(x))
    {
      assert StepKnown(s, x) && NoClash(s, MemberOf(x));
    }
  }

  lemma OpenedMember(items: seq<Item>, m: MemberRecord) returns (x: Item)
    requires m in MembersFor(items)
    ensures x in items && m == MemberOf(x)
  {
    var i :| 0 <= i < |items| && MembersFor(items)[i] == m;
    x := items[i];
  }

  lemma OpenedMembersSound(cfg: Config, c: Controller, items: seq<Item>, at: int)
    requires WorkSound(cfg, c.work) && MembersSound(c)
    requires forall x :: x in items ==> x in c.work && !x.asset
    ensures MembersSound(Opened(c, items, at))
  {
    var c' := Opened(c, items, at);
    forall m | m in c'.store.members
      ensures MemberKnown(c'.work, m)
    {
      if m in c.store.members {
        assert MemberKnown(c.work, m);
      } else {
        var x := OpenedMember(items, m);
        assert x in c.work && !x.asset;
      }
    }
    forall x | x in c'.work && !x.asset
      ensures MemberOf(x) in c'.store.members <==> Touched(c'.store, x.id)
    {
      OpenedOne(c, items, at, x);
    }
  }

  lemma OpenedOne(c: Controller, items: seq<Item>, at: int, x: Item)
    requires DistinctIds(c.work) && MembersSound(c) && x in c.work && !x.asset
    requires forall y :: y in items ==> y in c.work && !y.asset
    ensures
      var s := Opened(c, items, at).store;
      MemberOf(x) in s.members <==> Touched(s, x.id)
  {
    if x.id in Ids(items) {
      var y :| y in items && y.id == x.id;
      SameId(c.work, x, y);
      var i :| 0 <= i < |items| && items[i] == x;
      assert MembersFor(items)[i] == MemberOf(x);
    } else if MemberOf(x) in MembersFor(items) {
      var y := OpenedMember(items, MemberOf(x));
      InIds(items, y);
    }
  }

  lemma OpenedFactsSound(s: Store, s': Store, items: seq<Item>, f: int)
    requires FactsSound(s, f, {})
    requires s'.steps == s.steps && s'.facts == s.facts && s'.terminal == s.terminal && s'.members == s.members + MembersFor(items)
    requires forall x :: x in items ==> x.id !in s.terminal
    ensures FactsSound(s', f, {})
  {
    forall k | k in s'.facts
      ensures FactKnown(s', k, f)
    {
      assert FactKnown(s, k, f);
    }
    forall r | r in s'.steps && HasMembers(s', r) && AllTerminal(s', r)
      ensures r.stepIndex in s'.facts
    {
      var m :| m in s'.members && Matches(m, r);
      if m in MembersFor(items) {
        var x := OpenedMember(items, m);
      } else {
        assert HasMembers(s, r) && AllTerminal(s, r);
      }
    }
  }

  /** What a release does while nothing has failed. */
  lemma ReleaseOutcome(cfg: Config, c: Controller, done: string, at: int)
    requires Setting(cfg, c.store) && Always(cfg, c) && AttemptsSound(c.store) && MembersSound(c)
    ensures
      var ready := ReadyItems(c, done);
      && EnqueueReady(c, done, at) == (Opened(c, ready, at).(released := c.released + IdList(ready)), true)
      && (forall x :: x in ready ==> x in c.work && !x.asset && x.id !in c.store.terminal)
  {
    var ready := ReadyItems(c, done);
    ReadyStepsKnown(cfg, c, done);
    KeepDistinct(c.work, (x: Item) => IsReady(c, done, x));
    UntouchedRecordable(cfg, c, ready);
    RecordableAfterQueue(c.store, ready, Ids(ready));
    MembersAppended(Enqueued(c, ready, at).store, ready);
  }

  /** After the release nobody waits only for what has just completed. */
  lemma ReleaseKeepsClean(cfg: Config, c: Controller, f: int, done: string, at: int)
    requires Setting(cfg, c.store) && Always(cfg, c) && Clean(c, f, {done}, {}) && Touched(c.store, done)
    ensures
      var (c', ok) := EnqueueReady(c, done, at);
      ok && Clean(c', f, {}, {}) && SameSteps(c.store, c'.store)
  {
    var ready := ReadyItems(c, done);
    ReleaseOutcome(cfg, c, done, at);
    OpenedMembersSound(cfg, c, ready, at);
    OpenedFactsSound(c.store, Opened(c, ready, at).store, ready, f);
    WaitersAfterRelease(c, done, at);
    CleanIgnoresLog(Opened(c, ready, at), f, c.released + IdList(ready));
  }

  lemma CleanIgnoresLog(c: Controller, f: int, log: seq<string>)
    requires Clean(c, f, {}, {})
    ensures Clean(c.(released := log), f, {}, {})
  {
    var c' := c.(released := log);
    forall x | x in c'.work && !Touched(c'.store, x.id)
      ensures Waits(c', x, {})
    {
      assert Waits(c, x, {});
    }
  }

  predicate SameSteps(s: Store, s': Store) {
    s'.steps == s.steps
  }

  lemma WaitersAfterRelease(c: Controller, done: string, at: int)
    requires WaitersSound(c, {done}) && Touched(c.store, done)
    ensures WaitersSound(Opened(c, ReadyItems(c, done), at), {})
  {
    var ready := ReadyItems(c, done);
    var c' := Opened(c, ready, at);
    forall x | x in c'.work && !Touched(c'.store, x.id)
      ensures Waits(c', x, {})
    {
      if x in ready {
        InIds(ready, x);
      }
      assert !Touched(c.store, x.id) && !IsReady(c, done, x);
      assert Waits(c, x, {done});
      if done in x.dependsOn {
        var k :| 0 <= k < |x.dependsOn| && !Succeeds(c.store, x.dependsOn[k]);
        assert !Succeeds(c'.store, x.dependsOn[k]);
      }
    }
  }
}

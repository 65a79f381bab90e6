/** The parts of the report handlers keep the invariant of a workflow run. */
module WorkflowRunParts {
  import opened PlanModel
  import opened DependencyStore
  import opened StoreLaws
  import opened StoreView
  import opened StoreEffects
  import opened WorkflowRun
  import opened WorkflowRunInv

  lemma AlwaysByQueue(cfg: Config, c: Controller, c': Controller)
    requires Always(cfg, c) && Frame(c.store, c'.store) && c'.work == c.work && c'.released == c.released
    ensures Always(cfg, c')
  {
    assert forall id :: Touched(c'.store, id) == Touched(c.store, id);
    assert forall id :: InOnePlace(c'.store, id) == InOnePlace(c.store, id);
    assert forall x :: x in c.work && x.id in c.released ==> AllSucceed(c.store, x.dependsOn);
  }

  lemma {:induction false} RecordMembersKeeps(s: Store, items: seq<Item>)
    requires SavedMeansFailed(s)
    ensures
      var s' := RecordMembers(s, items).0;
      Frame(s, s') && SavedMeansFailed(s') && Grows(s, s')
    decreases |items|
  {
    if items != [] {
      var s' := RecordMember(s, MemberOf(items[0]));
      RecordMemberGrows(s, MemberOf(items[0]));
      if |s'.members| != |s.members| {
        RecordMembersKeeps(s', items[1..]);
      }
    }
  }

  // ---------------------------------------------------------------------------------------
  // Queue moves and finished attempts

  /** Nothing leaves the queue, the running items and the attempts altogether. */
  ghost predicate SameTouched(s: Store, s': Store) {
    && s'.steps == s.steps && (forall id :: Touched(s, id) <==> Touched(s', id))
    && (forall id :: Succeeds(s, id) ==> Succeeds(s', id))
  }

  lemma AlwaysByTouched(cfg: Config, c: Controller, c': Controller)
    requires Always(cfg, c) && SameTouched(c.store, c'.store) && c'.work == c.work && c'.released == c.released
    requires forall x :: x in c.work && !x.asset ==> InOnePlace(c'.store, x.id)
    ensures Always(cfg, c')
  {
    forall x | x in c.work && x.id in c.released
      ensures AllSucceed(c'.store, x.dependsOn)
    {
      assert AllSucceed(c.store, x.dependsOn);
    }
  }

  lemma MoveKeepsClean(c: Controller, c': Controller, f: int)
    requires Clean(c, f, {}, {}) && SameTouched(c.store, c'.store)
    requires c'.store == c.store.(queued := c'.store.queued, running := c'.store.running)
    requires c'.work == c.work && c'.refused == c.refused
    ensures Clean(c', f, {}, {})
  {
    forall x | x in c'.work && !Touched(c'.store, x.id)
      ensures Waits(c', x, {})
    {
      assert Waits(c, x, {});
    }
    SameRecordsSameFacts(c.store, c'.store, f, {});
  }

  lemma SameRecordsSameFacts(s: Store, s': Store, f: int, late: set<int>)
    requires FactsSound(s, f, late) && s'.steps == s.steps && s'.members == s.members && s'.facts == s.facts && s'.terminal == s.terminal
    ensures FactsSound(s', f, late)
  {
    forall k | k in s'.facts
      ensures FactKnown(s', k, f)
    {
      assert FactKnown(s, k, f);
    }
    forall r | r in s'.steps && HasMembers(s', r) && AllTerminal(s', r) && r.stepIndex !in late
      ensures r.stepIndex in s'.facts
    {
      assert HasMembers(s, r) && AllTerminal(s, r);
    }
  }

  lemma ClaimKeepsInv(cfg: Config, c: Controller, id: string)
    requires Inv(cfg, c)
    ensures Inv(cfg, Next(cfg, c, ClaimCall(id)))
  {
    var c' := Next(cfg, c, ClaimCall(id));
    if c' != c {
      MoveKeepsInv(cfg, c, c');
    }
  }

  lemma RequeueKeepsInv(cfg: Config, c: Controller, id: string, at: int)
    requires Inv(cfg, c)
    ensures Inv(cfg, Next(cfg, c, RequeueCall(id, at)))
  {
    var c' := Next(cfg, c, RequeueCall(id, at));
    if c' != c {
      MoveKeepsInv(cfg, c, c');
    }
  }

  lemma MoveKeepsInv(cfg: Config, c: Controller, c': Controller)
    requires Inv(cfg, c) && SameTouched(c.store, c'.store)
    requires c'.store == c.store.(queued := c'.store.queued, running := c'.store.running)
    requires c'.work == c.work && c'.refused == c.refused && c'.released == c.released
    requires forall x :: x in c.work && !x.asset ==> InOnePlace(c'.store, x.id)
    ensures Inv(cfg, c')
  {
    AlwaysByTouched(cfg, c, c');
    SettingBySteps(cfg, c.store, c'.store);
    if Failing(c) {
      FailingGrows(c, c');
    } else {
      var f :| Clean(c, f, {}, {}) && Onward(cfg, c, f, false);
      MoveKeepsClean(c, c', f);
      CoverKept(cfg, c, c');
      OnwardGrows(cfg, c, c', f, false);
    }
  }

  lemma SettingBySteps(cfg: Config, s: Store, s': Store)
    requires Setting(cfg, s) && s'.steps == s.steps
    ensures Setting(cfg, s')
  {
    forall r, j | r in s'.steps && 0 <= j < r.stageIndex
      ensures StageKnown(s', j)
    {
      assert StageKnown(s, j);
    }
    assert StageKnown(s, 0);
  }

  /** Finishing an attempt keeps what always holds. */
  lemma FinishKeepsAlways(cfg: Config, c: Controller, x: Item, attempt: Terminal)
    requires Always(cfg, c) && x in c.work && x.id in c.store.running
    ensures Always(cfg, Finish(c, x.id, attempt))
  {
    AlwaysByTouched(cfg, c, Finish(c, x.id, attempt));
  }

  /** A successful attempt may complete its step and make items ready, and nothing else. */
  lemma FinishKeepsClean(cfg: Config, c: Controller, f: int, x: Item, attempt: Terminal)
    requires Always(cfg, c) && Clean(c, f, {}, {}) && x in c.work && x.id in c.store.running
    requires !attempt.failed && attempt.outputJson != ""
    ensures Clean(Finish(c, x.id, attempt), f, {x.id}, if x.asset then {} else {x.stepIndex})
  {
    var c' := Finish(c, x.id, attempt);
    forall y | y in c'.work && !Touched(c'.store, y.id)
      ensures Waits(c', y, {x.id})
    {
      assert Waits(c, y, {});
    }
    var late := if x.asset then {} else {x.stepIndex};
    forall k | k in c'.store.facts
      ensures FactKnown(c'.store, k, f)
    {
      assert FactKnown(c.store, k, f);
    }
    forall r | r in c'.store.steps && HasMembers(c'.store, r) && AllTerminal(c'.store, r) && r.stepIndex !in late
      ensures r.stepIndex in c'.store.facts
    {
      assert HasMembers(c.store, r);
      forall m | m in c.store.members && Matches(m, r)
        ensures m.id in c.store.terminal
      {
        OtherMember(cfg, c, x, m, r);
      }
      assert AllTerminal(c.store, r);
    }
  }

  lemma OtherMember(cfg: Config, c: Controller, x: Item, m: MemberRecord, r: StepRecord)
    requires WorkSound(cfg, c.work) && MembersSound(c) && x in c.work && m in c.store.members && Matches(m, r)
    requires x.asset || r.stepIndex != x.stepIndex
    ensures m.id != x.id
  {
    assert MemberKnown(c.work, m);
    var y :| y in c.work && !y.asset && m == MemberOf(y);
    if y.id == x.id {
      SameId(c.work, x, y);
    }
  }

  // ---------------------------------------------------------------------------------------
  // Taking in an output

  lemma AddFactKeeps(s: Store, f: int, late: set<int>, r: StepRecord, o: Output)
    requires FactsSound(s, f, late) && r in s.steps && r.stageIndex <= f && o.sha256 != ""
    ensures FactsSound(s.(facts := s.facts[r.stepIndex := o]), f, late)
  {
    var s' := s.(facts := s.facts[r.stepIndex := o]);
    forall k | k in s'.facts
      ensures FactKnown(s', k, f)
    {
      if k != r.stepIndex {
        assert FactKnown(s, k, f);
      }
    }
    forall q | q in s'.steps && HasMembers(s', q) && AllTerminal(s', q) && q.stepIndex !in late
      ensures q.stepIndex in s'.facts
    {
      assert HasMembers(s, q) && AllTerminal(s, q);
    }
  }

  lemma FactsSettled(s: Store, f: int, r: StepRecord)
    requires UniqueStepRecords(s) && FactsSound(s, f, {r.stepIndex}) && r in s.steps
    requires r.stepIndex in s.facts || !AllTerminal(s, r)
    ensures FactsSound(s, f, {})
  {
    forall q | q in s.steps && HasMembers(s, q) && AllTerminal(s, q)
      ensures q.stepIndex in s.facts
    {
      if q.stepIndex == r.stepIndex {
        assert q == r;
      }
    }
  }

  lemma CleanByFacts(c: Controller, c': Controller, f: int, done: set<string>, late: set<int>, late': set<int>)
    requires Clean(c, f, done, late) && FactsSound(c'.store, f, late')
    requires c' == c.(store := c.store.(facts := c'.store.facts))
    ensures Clean(c', f, done, late')
  {
    forall x | x in c'.work && !Touched(c'.store, x.id)
      ensures Waits(c', x, done)
    {
      assert Waits(c, x, done);
    }
  }

  /** A fact on a step with memberships can settle only that step's stage. */
  lemma AddFactOnward(cfg: Config, c: Controller, f: int, r: StepRecord, m: MemberRecord, o: Output)
    requires UniqueStepRecords(c.store) && Onward(cfg, c, f, false) && AllTerminal(c.store, r)
    requires r in c.store.steps && m in c.store.members && Matches(m, r)
    ensures Onward(cfg, c.(store := c.store.(facts := c.store.facts[r.stepIndex := o])), f, r.stageIndex == f)
  {
    var c' := c.(store := c.store.(facts := c.store.facts[r.stepIndex := o]));
    forall q | q in c'.store.steps && q.stepIndex in c'.store.facts
      ensures HasMembers(c'.store, q) || IsUncompiled(cfg, q)
    {
      if q.stepIndex == r.stepIndex {
        assert m in c'.store.members && Matches(m, q);
      } else {
        assert HasMembers(c.store, q) ==> HasMembers(c'.store, q);
      }
    }
    forall q | q in c'.store.steps && q.stepIndex in c'.store.facts && Covered(cfg, c'.refused, q)
      ensures AllTerminal(c'.store, q)
    {
      assert q.stepIndex == r.stepIndex ==> q == r;
      assert AllTerminal(c.store, q);
    }
    if Settled(c'.store, f) && r.stageIndex != f {
      assert Settled(c.store, f);
    }
  }

  /** An accepted output settles the facts of its step. */
  lemma OutputKeepsClean(cfg: Config, c: Controller, f: int, x: Item, json: string, sha256: string)
    requires Setting(cfg, c.store) && Always(cfg, c) && x in c.work && !x.asset && x.id in c.store.terminal && json != ""
    requires Clean(c, f, {x.id}, {x.stepIndex}) && Onward(cfg, c, f, false)
    ensures
      var (s, ok) := RecordOutput(c.store, x.id, json, sha256, cfg.aggregate);
      if ok then Frame(c.store, s) && Clean(c.(store := s), f, {x.id}, {}) && Onward(cfg, c.(store := s), f, x.stageIndex == f)
      else s == c.store
  {
    var r := StepOf(cfg, c, x);
    assert Touched(c.store, x.id);
    CleanHealthy(c);
    CleanUniqueIds(cfg, c);
    OutputRecorded(c.store, r, MemberOf(x), json, sha256, cfg.aggregate);
    var (s, ok) := RecordOutput(c.store, x.id, json, sha256, cfg.aggregate);
    if ok {
      if s != c.store {
        var o: Output :| o.sha256 != "" && s == c.store.(facts := c.store.facts[r.stepIndex := o]);
        if !AllTerminal(c.store, r) {
          UnfinishedAddsNothing(c.store, r, MemberOf(x), json, sha256, cfg.aggregate);
        }
        AddFactKeeps(c.store, f, {x.stepIndex}, r, o);
        AddFactOnward(cfg, c, f, r, MemberOf(x), o);
      }
      SettledAfterOutput(c.store, s, r);
      FactsSettled(s, f, r);
      CleanByFacts(c, c.(store := s), f, {x.id}, {x.stepIndex}, {});
    }
  }

  lemma SettledAfterOutput(s: Store, s': Store, r: StepRecord)
    requires AttemptsSound(s) && s' == s.(facts := s'.facts)
    requires OutputsKept(s) && AllTerminal(s, r) ==> r.stepIndex in s'.facts
    ensures r.stepIndex in s'.facts || !AllTerminal(s', r)
  {
    if AllTerminal(s', r) {
      assert AllTerminal(s, r);
    }
  }

  /** A refused output fails the plan for good, or leaves a plan whose step has its output. */
  lemma RefusalOutcome(cfg: Config, c: Controller, f: int, x: Item)
    requires Setting(cfg, c.store) && Always(cfg, c) && x in c.work && !x.asset && x.id in c.store.terminal
    requires Clean(c, f, {x.id}, {x.stepIndex})
    ensures
      var s := RecordTerminal(c.store, x.id, MemberState.Failed, OUTPUT_REFUSED);
      s.saved.Some? || (s == c.store && FactsSound(c.store, f, {}))
  {
    var r := StepOf(cfg, c, x);
    assert Touched(c.store, x.id);
    CleanHealthy(c);
    CleanUniqueIds(cfg, c);
    if r.stepIndex in c.store.facts {
      assert FactKnown(c.store, r.stepIndex, f);
      RefusalIgnored(c.store, r, MemberOf(x), OUTPUT_REFUSED);
      FactsSettled(c.store, f, r);
    } else {
      RefusalFails(c.store, r, MemberOf(x), OUTPUT_REFUSED);
    }
  }

  lemma RefusedClean(c: Controller, f: int, id: string, late: set<int>)
    requires Clean(c, f, {id}, late) && FactsSound(c.store, f, {})
    ensures Clean(c.(refused := c.refused + {id}), f, {}, {})
  {
    var c' := c.(refused := c.refused + {id});
    forall y | y in c'.work && !Touched(c'.store, y.id)
      ensures Waits(c', y, {})
    {
      assert Waits(c, y, {id});
    }
  }

  /** Reporting the success already recorded leaves the store as it is. */
  lemma SuccessKeeps(cfg: Config, c: Controller, f: int, x: Item, skipped: bool)
    requires Setting(cfg, c.store) && Always(cfg, c) && x in c.work && !x.asset && x.id in c.store.terminal
    requires Clean(c, f, {x.id}, {})
    ensures RecordTerminal(c.store, x.id, if skipped then MemberState.Skipped else MemberState.Completed, "") == c.store
  {
    var r := StepOf(cfg, c, x);
    assert Touched(c.store, x.id);
    CleanHealthy(c);
    CleanUniqueIds(cfg, c);
    SuccessAlreadyKnown(c.store, r, MemberOf(x), if skipped then MemberState.Skipped else MemberState.Completed, "");
  }

  // ---------------------------------------------------------------------------------------
  // Opening stages adds to the queue and leaves the step records alone

  predicate QueueGrows(s: Store, s': Store) {
    s'.steps == s.steps && s.queued <= s'.queued
  }

  lemma {:induction false} RecordMembersFrame(s: Store, items: seq<Item>)
    ensures Frame(s, RecordMembers(s, items).0)
    decreases |items|
  {
    if items != [] {
      RecordMembersFrame(RecordMember(s, MemberOf(items[0])), items[1..]);
    }
  }

  lemma QueueStageGrows(c: Controller, i: int, compiled: seq<Compiled>, at: int)
    ensures QueueGrows(c.store, QueueStage(c, i, compiled, at).store)
  {
    var items := Records(i, compiled, at);
    var queued := Undeferred(items, Ids(items));
    var r := QueueItems(c, items, queued, at);
    if r.Some? {
      RecordMembersFrame(r.value.store, Tracked(queued));
    }
  }

  lemma ActivateStageGrows(cfg: Config, c: Controller, i: int, at: int)
    ensures QueueGrows(c.store, ActivateStage(cfg, c, i, at).0.store)
  {
    if cfg.compile(i).Some? {
      var compiled := cfg.compile(i).value;
      var s := RecordEmptySteps(c.store, i, CompiledSteps(compiled), cfg.empty).0;
      QueueStageGrows(c.(store := s), i, compiled, at);
    }
  }

  /** Opening goes on behind a stage that was complete at once. */
  lemma ActivateFromTurn(cfg: Config, c: Controller, i: int, at: int, c': Controller, more: bool)
    requires StageIs(c.store, i, Blocked) && ActivateStage(cfg, c, i, at) == (c', more)
    ensures ActivateFrom(cfg, c, i, at) == if more then ActivateFrom(cfg, c', i + 1, at) else c'
  {
  }

  lemma {:induction false} ActivateFromGrows(cfg: Config, c: Controller, i: int, at: int)
    ensures QueueGrows(c.store, ActivateFrom(cfg, c, i, at).store)
    decreases LastStage(c.store.steps) - i
  {
    if StageIs(c.store, i, Blocked) {
      var (c', more) := ActivateStage(cfg, c, i, at);
      ActivateFromTurn(cfg, c, i, at, c', more);
      ActivateStageGrows(cfg, c, i, at);
      if more {
        FoundStageBounded(c.store, i, Blocked);
        ActivateFromGrows(cfg, c', i + 1, at);
      }
    }
  }

  lemma ActivateNextGrows(cfg: Config, c: Controller, i: int, at: int)
    ensures QueueGrows(c.store, ActivateNext(cfg, c, i, at).store)
  {
    ActivateFromGrows(cfg, c, i + 1, at);
  }
}

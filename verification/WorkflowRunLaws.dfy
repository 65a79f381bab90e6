/** Every call keeps the invariant of a workflow run: claims, requeues, expired attempts, and
    completion and failure reports, in runs that have failed and in runs that have not. */
module WorkflowRunLaws {
  import opened PlanModel
  import opened DependencyStore
  import opened StoreLaws
  import opened StoreView
  import opened WorkflowRun
  import opened WorkflowRunInv
  import opened WorkflowRunParts
  import opened WorkflowRunRelease
  import opened WorkflowRunStages
  import opened WorkflowRunOpening

  // ---------------------------------------------------------------------------------------
  // Runs that have failed

  ghost predicate Broken(cfg: Config, c: Controller) {
    Setting(cfg, c.store) && SavedMeansFailed(c.store) && Always(cfg, c) && Failing(c)
  }

  lemma BrokenGrows(cfg: Config, c: Controller, c': Controller)
    requires Broken(cfg, c) && Grows(c.store, c'.store) && c.work <= c'.work && SavedMeansFailed(c'.store) && Always(cfg, c')
    ensures Broken(cfg, c')
  {
    SettingBySteps(cfg, c.store, c'.store);
    FailingGrows(c, c');
  }

  lemma BrokenRelease(cfg: Config, c: Controller, done: string, at: int)
    requires Broken(cfg, c) && Touched(c.store, done)
    ensures Broken(cfg, EnqueueReady(c, done, at).0)
  {
    ReleaseKeepsAlways(cfg, c, done, at);
    BrokenGrows(cfg, c, EnqueueReady(c, done, at).0);
  }

  lemma BrokenReport(cfg: Config, c: Controller, id: string, terminal: MemberState, reason: string)
    requires Broken(cfg, c) && IsTerminal(terminal)
    ensures Broken(cfg, c.(store := RecordTerminal(c.store, id, terminal, reason)))
  {
    var c' := c.(store := RecordTerminal(c.store, id, terminal, reason));
    RecordTerminalGrows(c.store, id, terminal, reason);
    AlwaysByQueue(cfg, c, c');
    BrokenGrows(cfg, c, c');
  }

  lemma BrokenOutput(cfg: Config, c: Controller, id: string, json: string, sha256: string)
    requires Broken(cfg, c)
    ensures Broken(cfg, c.(store := RecordOutput(c.store, id, json, sha256, cfg.aggregate).0))
  {
    var c' := c.(store := RecordOutput(c.store, id, json, sha256, cfg.aggregate).0);
    RecordOutputGrows(c.store, id, json, sha256, cfg.aggregate);
    AlwaysByQueue(cfg, c, c');
    BrokenGrows(cfg, c, c');
  }

  lemma BrokenActivatesNothing(cfg: Config, c: Controller, completed: int, at: int)
    requires Broken(cfg, c)
    ensures ActivateNext(cfg, c, completed, at) == c
  {
    RebuiltFailedIff(c.store);
  }

  lemma BrokenOutputTaken(cfg: Config, c: Controller, x: Item, skipped: bool, at: int)
    requires Broken(cfg, c) && Touched(c.store, x.id)
    ensures Broken(cfg, OutputTaken(cfg, c, x, skipped, at))
  {
    var state := if skipped then MemberState.Skipped else MemberState.Completed;
    BrokenReport(cfg, c, x.id, state, "");
    var c' := BrokenReleaseTries(cfg, c.(store := RecordTerminal(c.store, x.id, state, "")), x.id, x.stageIndex, at);
    TakenOnly(cfg, c, x, skipped, at, c');
  }

  /** In a broken run a release may queue items, but no stage is opened after it. */
  lemma BrokenReleaseTries(cfg: Config, c: Controller, done: string, completed: int, at: int) returns (c': Controller)
    requires Broken(cfg, c) && Touched(c.store, done)
    ensures c' == EnqueueReady(c, done, at).0 && Broken(cfg, c') && ActivateNext(cfg, c', completed, at) == c'
  {
    c' := EnqueueReady(c, done, at).0;
    BrokenRelease(cfg, c, done, at);
    BrokenActivatesNothing(cfg, c', completed, at);
  }

  lemma TakenOnly(cfg: Config, c: Controller, x: Item, skipped: bool, at: int, c': Controller)
    requires
      var s := RecordTerminal(c.store, x.id, if skipped then MemberState.Skipped else MemberState.Completed, "");
      c' == EnqueueReady(c.(store := s), x.id, at).0
    requires ActivateNext(cfg, c', x.stageIndex, at) == c'
    ensures OutputTaken(cfg, c, x, skipped, at) == c'
  {
  }

  lemma BrokenLog(cfg: Config, c: Controller, refused: set<string>)
    requires Broken(cfg, c)
    ensures Broken(cfg, c.(refused := refused))
  {
    var c' := c.(refused := refused);
    AlwaysByQueue(cfg, c, c');
    FailingGrows(c, c');
  }

  lemma BrokenRefused(cfg: Config, c: Controller, x: Item)
    requires Broken(cfg, c)
    ensures Broken(cfg, c.(store := RecordTerminal(c.store, x.id, MemberState.Failed, OUTPUT_REFUSED), refused := c.refused + {x.id}))
  {
    BrokenReport(cfg, c, x.id, MemberState.Failed, OUTPUT_REFUSED);
    BrokenLog(cfg, c.(store := RecordTerminal(c.store, x.id, MemberState.Failed, OUTPUT_REFUSED)), c.refused + {x.id});
  }

  lemma BrokenWorkCompleted(cfg: Config, c: Controller, x: Item, attempt: Terminal, at: int)
    requires Broken(cfg, c) && Touched(c.store, x.id)
    ensures Broken(cfg, WorkCompleted(cfg, c, x, attempt, at))
  {
    if cfg.resolves(attempt.outputJson) {
      var (s, ok) := RecordOutput(c.store, x.id, attempt.outputJson, attempt.outputSha256, cfg.aggregate);
      BrokenOutput(cfg, c, x.id, attempt.outputJson, attempt.outputSha256);
      if ok {
        BrokenOutputTaken(cfg, c.(store := s), x, attempt.skipped, at);
      } else {
        BrokenRefused(cfg, c.(store := s), x);
      }
    } else {
      BrokenRefused(cfg, c, x);
    }
  }

  lemma BrokenFinish(cfg: Config, c: Controller, x: Item, attempt: Terminal)
    requires Broken(cfg, c) && x in c.work && x.id in c.store.running
    ensures Broken(cfg, Finish(c, x.id, attempt))
  {
    var c' := Finish(c, x.id, attempt);
    FinishKeepsAlways(cfg, c, x, attempt);
    SettingBySteps(cfg, c.store, c'.store);
    FinishKeepsFailing(cfg, c, x, attempt);
  }

  /** An item that has failed is not running, unless it is an asset item. */
  lemma FinishKeepsFailing(cfg: Config, c: Controller, x: Item, attempt: Terminal)
    requires Always(cfg, c) && Failing(c) && x in c.work && x.id in c.store.running
    ensures Failing(Finish(c, x.id, attempt))
  {
    if c.store.saved.None? {
      var r, y :| TrackedFailure(c, r, y);
      assert InOnePlace(c.store, y.id);
      assert TrackedFailure(Finish(c, x.id, attempt), r, y);
    }
  }

  lemma BrokenComplete(cfg: Config, c: Controller, x: Item, attempt: Terminal, at: int)
    requires Broken(cfg, c)
    ensures Broken(cfg, Complete(cfg, c, x, attempt, at))
  {
    if Complete(cfg, c, x, attempt, at) != c {
      var c' := if x.id in c.store.running then Finish(c, x.id, attempt) else c;
      if x.id in c.store.running {
        BrokenFinish(cfg, c, x, attempt);
      }
      if x.asset {
        BrokenRelease(cfg, c', x.id, at);
      } else {
        BrokenWorkCompleted(cfg, c', x, attempt, at);
      }
    }
  }

  // ---------------------------------------------------------------------------------------
  // Runs without a failure

  predicate OnStep(x: Item, r: StepRecord) {
    !x.asset && x.stageIndex == r.stageIndex && x.stepIndex == r.stepIndex
  }

  ghost predicate IsUniform(cfg: Config, r: StepRecord) {
    cfg.compile(r.stageIndex).Some? && Uniform(cfg.compile(r.stageIndex).value, r.stepIndex)
  }

  /** The items of a uniform step have all been queued, or none has. */
  ghost predicate AllOrNone(cfg: Config, c: Controller) {
    forall r, x, y :: r in c.store.steps && IsUniform(cfg, r) && x in c.work && y in c.work && OnStep(x, r) && OnStep(y, r) ==>
      (Touched(c.store, x.id) ==> Touched(c.store, y.id))
  }

  /** Whatever a queued item waited for has succeeded, directly and through other items. */
  lemma {:induction false} ChainSucceeds(cfg: Config, c: Controller, i: int, path: seq<string>, x: Item)
    requires Always(cfg, c) && cfg.compile(i).Some? && Chain(cfg.compile(i).value, path)
    requires x in c.work && x.stageIndex == i && x.id == path[0] && Touched(c.store, x.id)
    ensures Succeeds(c.store, path[|path| - 1])
    decreases |path|
  {
    var compiled := cfg.compile(i).value;
    LinkSucceeds(cfg, c, i, x, path[1]);
    if |path| > 2 {
      var rest := path[1..];
      assert Link(compiled, path[1], path[2]);
      var z :| z in compiled && z.id == path[1] && IsDeferred(compiled, z) && path[2] in z.dependsOn;
      var y := CompiledItem(cfg, c, i, x, z);
      assert Chain(compiled, rest) by {
        forall k | 0 <= k < |rest| - 1
          ensures Link(compiled, rest[k], rest[k + 1])
        {
          assert Link(compiled, path[k + 1], path[k + 2]);
        }
      }
      ChainSucceeds(cfg, c, i, rest, y);
    }
  }

  /** The item of a compiled entry, once an item of its stage is known. */
  lemma CompiledItem(cfg: Config, c: Controller, i: int, x: Item, z: Compiled) returns (y: Item)
    requires WorkSound(cfg, c.work) && cfg.compile(i).Some? && x in c.work && x.stageIndex == i && z in cfg.compile(i).value
    ensures y in c.work && y.stageIndex == i && Compiled(y.id, y.stepIndex, y.dependsOn, y.asset) == z
  {
    var k :| 0 <= k < |cfg.compile(i).value| && cfg.compile(i).value[k] == z;
    assert WholeStage(cfg, c.work, x) && InWork(c.work, i, k);
    y :| y in c.work && y.stageIndex == i && y.index == k;
    assert IsCompiled(cfg, y);
  }

  lemma LinkSucceeds(cfg: Config, c: Controller, i: int, x: Item, d: string)
    requires Always(cfg, c) && cfg.compile(i).Some? && Link(cfg.compile(i).value, x.id, d)
    requires x in c.work && x.stageIndex == i && Touched(c.store, x.id)
    ensures Succeeds(c.store, d)
  {
    var compiled := cfg.compile(i).value;
    var z :| z in compiled && z.id == x.id && IsDeferred(compiled, z) && d in z.dependsOn;
    var y := CompiledItem(cfg, c, i, x, z);
    SameId(c.work, x, y);
    assert Deferred(cfg, x) && x.id in c.released;
    var k :| 0 <= k < |x.dependsOn| && x.dependsOn[k] == d;
    assert AllSucceed(c.store, x.dependsOn);
  }

  /** While no output has been refused, the items of a uniform step are released together. */
  lemma Together(cfg: Config, c: Controller)
    requires Always(cfg, c) && WaitersSound(c, {}) && c.refused == {}
    ensures AllOrNone(cfg, c)
  {
    forall r, x, y | r in c.store.steps && IsUniform(cfg, r) && x in c.work && y in c.work && OnStep(x, r) && OnStep(y, r)
                     && Touched(c.store, x.id)
      ensures Touched(c.store, y.id)
    {
      if !Touched(c.store, y.id) {
        UniformWaits(cfg, c, r, x, y);
      }
    }
  }

  lemma UniformWaits(cfg: Config, c: Controller, r: StepRecord, x: Item, y: Item)
    requires Always(cfg, c) && WaitersSound(c, {}) && c.refused == {}
    requires x in c.work && y in c.work && OnStep(x, r) && OnStep(y, r)
    requires IsUniform(cfg, r) && !Touched(c.store, y.id)
    ensures !Touched(c.store, x.id)
  {
    var compiled := cfg.compile(r.stageIndex).value;
    assert Waits(c, y, {});
    var k :| 0 <= k < |y.dependsOn| && !Succeeds(c.store, y.dependsOn[k]);
    assert IsCompiled(cfg, x) && IsCompiled(cfg, y) && Deferred(cfg, y);
    var a, b := compiled[x.index], compiled[y.index];
    assert TrackedOn(compiled, r.stepIndex, a) && TrackedOn(compiled, r.stepIndex, b) && y.dependsOn[k] in b.dependsOn;
    assert Needs(compiled, x.id, y.dependsOn[k]);
    var path :| Chain(compiled, path) && path[0] == x.id && path[|path| - 1] == y.dependsOn[k];
    if Touched(c.store, x.id) {
      ChainSucceeds(cfg, c, r.stageIndex, path, x);
    }
  }

  /** A release reaches no step of that kind that already has its output. */
  lemma ReleaseCover(cfg: Config, c: Controller, done: string, at: int)
    requires Setting(cfg, c.store) && Always(cfg, c) && MembersSound(c) && FactOrigin(cfg, c.store) && FactsCover(cfg, c)
    requires c.refused == {} ==> AllOrNone(cfg, c)
    ensures FactsCover(cfg, Opened(c, ReadyItems(c, done), at))
  {
    var ready := ReadyItems(c, done);
    var c' := Opened(c, ready, at);
    forall r | r in c'.store.steps && r.stepIndex in c'.store.facts && Covered(cfg, c'.refused, r)
      ensures AllTerminal(c'.store, r)
    {
      assert AllTerminal(c.store, r);
      forall m | m in c'.store.members && Matches(m, r)
        ensures m.id in c'.store.terminal
      {
        if m !in c.store.members {
          var x := OpenedMember(ready, m);
          ReleasedElsewhere(cfg, c, done, x, r);
        }
      }
    }
  }

  lemma StepHasDeferred(cfg: Config, x: Item, r: StepRecord)
    requires IsCompiled(cfg, x) && !x.asset && Deferred(cfg, x) && Matches(MemberOf(x), r)
    ensures cfg.compile(r.stageIndex).Some? && !NoneDeferred(cfg.compile(r.stageIndex).value, r.stepIndex)
    ensures !IsUncompiled(cfg, r)
  {
    var compiled := cfg.compile(r.stageIndex).value;
    var y := compiled[x.index];
    assert y in compiled && y.stepIndex == r.stepIndex && !y.asset && IsDeferred(compiled, y);
  }

  lemma TouchedMember(c: Controller, r: StepRecord) returns (z: Item)
    requires MembersSound(c) && HasMembers(c.store, r)
    ensures z in c.work && OnStep(z, r) && Touched(c.store, z.id) && MemberOf(z) in c.store.members
  {
    var m :| m in c.store.members && Matches(m, r);
    assert MemberKnown(c.work, m);
    z :| z in c.work && !z.asset && m == MemberOf(z);
  }

  lemma ReleasedElsewhere(cfg: Config, c: Controller, done: string, x: Item, r: StepRecord)
    requires Setting(cfg, c.store) && Always(cfg, c) && MembersSound(c) && FactOrigin(cfg, c.store)
    requires c.refused == {} ==> AllOrNone(cfg, c)
    requires x in ReadyItems(c, done) && r in c.store.steps && Matches(MemberOf(x), r) && r.stepIndex in c.store.facts
    ensures !Covered(cfg, c.refused, r)
  {
    ReadyOnStep(cfg, c, done, x, r);
    var z := TouchedMember(c, r);
    assert !AllOrNone(cfg, c) || !IsUniform(cfg, r);
    if SameDependencies(cfg.compile(r.stageIndex).value, r.stepIndex) {
      AlikeTouched(cfg, c, r, z, x);
      assert false;
    }
  }

  /** Of items that depend on the same ones all have been queued, or none has. */
  lemma AlikeTouched(cfg: Config, c: Controller, r: StepRecord, z: Item, x: Item)
    requires Always(cfg, c) && cfg.compile(r.stageIndex).Some? && SameDependencies(cfg.compile(r.stageIndex).value, r.stepIndex)
    requires z in c.work && OnStep(z, r) && Touched(c.store, z.id) && x in c.work && OnStep(x, r)
    ensures Touched(c.store, x.id)
  {
    var compiled := cfg.compile(r.stageIndex).value;
    assert IsCompiled(cfg, x) && IsCompiled(cfg, z);
    assert TrackedOn(compiled, r.stepIndex, compiled[x.index]) && TrackedOn(compiled, r.stepIndex, compiled[z.index]);
    assert Alike(x, z) && Alike(z, x);
    if Deferred(cfg, x) {
      AlikeDeferred(cfg, x, z);
    }
  }

  lemma ReadyOnStep(cfg: Config, c: Controller, done: string, x: Item, r: StepRecord)
    requires Setting(cfg, c.store) && Always(cfg, c) && x in ReadyItems(c, done) && Matches(MemberOf(x), r)
    ensures x in c.work && OnStep(x, r) && !Touched(c.store, x.id)
    ensures cfg.compile(r.stageIndex).Some? && !NoneDeferred(cfg.compile(r.stageIndex).value, r.stepIndex) && !IsUncompiled(cfg, r)
  {
    ReadyFacts(cfg, c, done, x);
    var q := StepOf(cfg, c, x);
    StepHasDeferred(cfg, x, r);
  }

  /** Between the parts of a completion handler. */
  ghost predicate Between(cfg: Config, c: Controller, f: int, x: Item, late: set<int>, moving: bool) {
    && Setting(cfg, c.store) && Always(cfg, c) && Clean(c, f, {x.id}, late) && Onward(cfg, c, f, moving)
    && x in c.work && x.id in c.store.terminal && (c.refused == {} ==> AllOrNone(cfg, c))
  }

  lemma ReleaseStep(cfg: Config, c: Controller, f: int, x: Item, moving: bool, at: int)
    requires Between(cfg, c, f, x, {}, moving)
    ensures
      var (c', ok) := EnqueueReady(c, x.id, at);
      ok && CleanAt(cfg, c', f) && Onward(cfg, c', f, moving) && StageKnown(c'.store, x.stageIndex)
  {
    ReleaseKeepsAlways(cfg, c, x.id, at);
    ReleaseKeepsClean(cfg, c, f, x.id, at);
    var c' := EnqueueReady(c, x.id, at).0;
    SettingBySteps(cfg, c.store, c'.store);
    ReleaseKeepsFacts(cfg, c, x.id, at);
    ReleaseStepCover(cfg, c, x.id, at);
    OnwardGrows(cfg, c, c', f, moving);
    var r := StepOf(cfg, c, x);
  }

  lemma ReleaseStepCover(cfg: Config, c: Controller, done: string, at: int)
    requires Setting(cfg, c.store) && Always(cfg, c) && AttemptsSound(c.store) && MembersSound(c)
    requires FactOrigin(cfg, c.store) && FactsCover(cfg, c) && (c.refused == {} ==> AllOrNone(cfg, c))
    ensures FactsCover(cfg, EnqueueReady(c, done, at).0)
  {
    ReleaseOutcome(cfg, c, done, at);
    ReleaseCover(cfg, c, done, at);
    var after := Opened(c, ReadyItems(c, done), at);
    CoverKept(cfg, after, after.(released := c.released + IdList(ReadyItems(c, done))));
  }

  lemma ReleaseKeepsFacts(cfg: Config, c: Controller, done: string, at: int)
    requires SavedMeansFailed(c.store)
    ensures EnqueueReady(c, done, at).0.store.facts == c.store.facts && EnqueueReady(c, done, at).0.work == c.work
  {
    RecordMembersKeepFacts(Enqueued(c, ReadyItems(c, done), at).store, ReadyItems(c, done));
  }

  lemma {:induction false} RecordMembersKeepFacts(s: Store, items: seq<Item>)
    ensures RecordMembers(s, items).0.facts == s.facts
    decreases |items|
  {
    if items != [] {
      RecordMembersKeepFacts(RecordMember(s, MemberOf(items[0])), items[1..]);
    }
  }

  lemma OutputTakenKeeps(cfg: Config, c: Controller, f: int, x: Item, skipped: bool, at: int)
    requires Between(cfg, c, f, x, {}, x.stageIndex == f) && !x.asset
    ensures Inv(cfg, OutputTaken(cfg, c, x, skipped, at))
  {
    SuccessKeeps(cfg, c, f, x, skipped);
    ReleaseStep(cfg, c, f, x, x.stageIndex == f, at);
    ActivateNextKeeps(cfg, EnqueueReady(c, x.id, at).0, f, x.stageIndex, at);
  }

  lemma RefusedKeeps(cfg: Config, c: Controller, f: int, x: Item)
    requires Between(cfg, c, f, x, {x.stepIndex}, false) && !x.asset
    ensures Inv(cfg, c.(store := RecordTerminal(c.store, x.id, MemberState.Failed, OUTPUT_REFUSED), refused := c.refused + {x.id}))
  {
    var s := RecordTerminal(c.store, x.id, MemberState.Failed, OUTPUT_REFUSED);
    RecordTerminalGrows(c.store, x.id, MemberState.Failed, OUTPUT_REFUSED);
    RefusalOutcome(cfg, c, f, x);
    RefusedWith(cfg, c, f, x, s);
  }

  lemma RefusedWith(cfg: Config, c: Controller, f: int, x: Item, s: Store)
    requires Between(cfg, c, f, x, {x.stepIndex}, false) && Frame(c.store, s) && SavedMeansFailed(s)
    requires s.saved.Some? || (s == c.store && FactsSound(c.store, f, {}))
    ensures Inv(cfg, c.(store := s, refused := c.refused + {x.id}))
  {
    var c' := c.(store := s, refused := c.refused + {x.id});
    AlwaysByQueue(cfg, c, c');
    SettingBySteps(cfg, c.store, s);
    if s.saved.None? {
      RefusedClean(c, f, x.id, {x.stepIndex});
      CoverKept(cfg, c, c');
      OnwardGrows(cfg, c, c', f, false);
    }
  }

  lemma WorkCompletedKeeps(cfg: Config, c: Controller, f: int, x: Item, attempt: Terminal, at: int)
    requires Between(cfg, c, f, x, {x.stepIndex}, false) && !x.asset && attempt.outputJson != ""
    ensures Inv(cfg, WorkCompleted(cfg, c, x, attempt, at))
  {
    OutputKeepsClean(cfg, c, f, x, attempt.outputJson, attempt.outputSha256);
    var (s, ok) := RecordOutput(c.store, x.id, attempt.outputJson, attempt.outputSha256, cfg.aggregate);
    if cfg.resolves(attempt.outputJson) && ok {
      var c' := c.(store := s);
      AlwaysByQueue(cfg, c, c');
      SettingBySteps(cfg, c.store, s);
      SameTouchedGroups(cfg, c, c');
      OutputTakenKeeps(cfg, c', f, x, attempt.skipped, at);
    } else {
      RefusedKeeps(cfg, c, f, x);
    }
  }

  /** Handling a completion starts from a state that is clean up to its item and step. */
  lemma CompletionStarts(cfg: Config, c: Controller, f: int, x: Item, attempt: Terminal)
    requires Setting(cfg, c.store) && Always(cfg, c) && Clean(c, f, {}, {}) && Onward(cfg, c, f, false) && x in c.work
    requires !attempt.failed && attempt.outputJson != ""
    requires x.id in c.store.running || x.id in c.store.terminal
    ensures
      var c' := if x.id in c.store.running then Finish(c, x.id, attempt) else c;
      Between(cfg, c', f, x, if x.asset then {} else {x.stepIndex}, false)
  {
    var c' := if x.id in c.store.running then Finish(c, x.id, attempt) else c;
    var late := if x.asset then {} else {x.stepIndex};
    if x.id in c.store.running {
      FinishKeepsAlways(cfg, c, x, attempt);
      FinishKeepsClean(cfg, c, f, x, attempt);
      SettingBySteps(cfg, c.store, c'.store);
    } else {
      CleanWeakens(c, f, x.id, late);
    }
    CoverKept(cfg, c, c');
    OnwardGrows(cfg, c, c', f, false);
    if c.refused == {} {
      Together(cfg, c);
      SameTouchedGroups(cfg, c, c');
    }
  }

  lemma SameTouchedGroups(cfg: Config, c: Controller, c': Controller)
    requires c.refused == {} ==> AllOrNone(cfg, c)
    requires c'.work == c.work && c'.refused == c.refused && c'.store.steps == c.store.steps
    requires forall id :: Touched(c.store, id) <==> Touched(c'.store, id)
    ensures c'.refused == {} ==> AllOrNone(cfg, c')
  {
  }

  lemma CleanWeakens(c: Controller, f: int, done: string, late: set<int>)
    requires Clean(c, f, {}, {})
    ensures Clean(c, f, {done}, late)
  {
    forall x | x in c.work && !Touched(c.store, x.id)
      ensures Waits(c, x, {done})
    {
      assert Waits(c, x, {});
    }
  }

  lemma CompleteKeepsInv(cfg: Config, c: Controller, x: Item, attempt: Terminal, at: int)
    requires Inv(cfg, c)
    ensures Inv(cfg, Complete(cfg, c, x, attempt, at))
  {
    if Failing(c) {
      BrokenComplete(cfg, c, x, attempt, at);
    } else if Complete(cfg, c, x, attempt, at) != c {
      var f :| Clean(c, f, {}, {}) && Onward(cfg, c, f, false);
      CompletionStarts(cfg, c, f, x, attempt);
      var c' := if x.id in c.store.running then Finish(c, x.id, attempt) else c;
      if x.asset {
        ReleaseStep(cfg, c', f, x, false, at);
        CleanAtInv(cfg, EnqueueReady(c', x.id, at).0, f);
      } else {
        WorkCompletedKeeps(cfg, c', f, x, attempt, at);
      }
    }
  }

  /** A failure report fails the run for good. */
  lemma FailBreaks(cfg: Config, c: Controller, x: Item, reason: string)
    requires Inv(cfg, c) && x in c.work
    requires x.id in c.store.running || (x.id in c.store.terminal && c.store.terminal[x.id].failed)
    ensures Broken(cfg, Fail(c, x, reason))
  {
    var c' := if x.id in c.store.running then Finish(c, x.id, FailedAttempt(reason)) else c;
    FailureStarts(cfg, c, x, reason);
    var why := if reason == "" then "asset_materialize failed" else reason;
    var c'' := if x.asset then FailOpening(c', x.stageIndex, why) else c';
    if x.asset {
      OpeningBreaks(cfg, c', x.stageIndex, why);
    }
    assert Broken(cfg, c'');
    BrokenReport(cfg, c'', x.id, MemberState.Failed, reason);
  }

  lemma OpeningBreaks(cfg: Config, c: Controller, i: int, reason: string)
    requires Setting(cfg, c.store) && SavedMeansFailed(c.store) && Always(cfg, c)
    ensures Broken(cfg, FailOpening(c, i, reason))
  {
    FailStageKeeps(cfg, c, i, reason);
  }

  lemma FailureStarts(cfg: Config, c: Controller, x: Item, reason: string)
    requires Inv(cfg, c) && x in c.work
    requires x.id in c.store.running || (x.id in c.store.terminal && c.store.terminal[x.id].failed)
    ensures
      var c' := if x.id in c.store.running then Finish(c, x.id, FailedAttempt(reason)) else c;
      && Setting(cfg, c'.store) && SavedMeansFailed(c'.store) && Always(cfg, c')
      && (!x.asset ==> Failing(c'))
  {
    var attempt := FailedAttempt(reason);
    var c' := if x.id in c.store.running then Finish(c, x.id, attempt) else c;
    if x.id in c.store.running {
      FinishKeepsAlways(cfg, c, x, attempt);
      SettingBySteps(cfg, c.store, c'.store);
    }
    if Failing(c) {
      if x.id in c.store.running {
        FinishKeepsFailing(cfg, c, x, attempt);
      }
    } else if !x.asset {
      var f :| Clean(c, f, {}, {}) && Onward(cfg, c, f, false);
      assert InOnePlace(c.store, x.id) && Touched(c.store, x.id);
      var r := StepOf(cfg, c, x);
      assert TrackedFailure(c', r, x);
    }
  }

  lemma FailKeepsInv(cfg: Config, c: Controller, x: Item, reason: string)
    requires Inv(cfg, c)
    ensures Inv(cfg, Fail(c, x, reason))
  {
    if x in c.work && (x.id in c.store.running || (x.id in c.store.terminal && c.store.terminal[x.id].failed)) {
      FailBreaks(cfg, c, x, reason);
    }
  }

  /** A failed attempt without a report fails the run for good, unless it is that of an asset item:
      then the run goes on as before. */
  lemma ExpireKeepsInv(cfg: Config, c: Controller, x: Item, reason: string)
    requires Inv(cfg, c)
    ensures Inv(cfg, Expire(c, x, reason))
  {
    if x in c.work && x.id in c.store.running {
      FailureStarts(cfg, c, x, reason);
      if Failing(c) {
        FinishKeepsFailing(cfg, c, x, FailedAttempt(reason));
      } else if x.asset {
        var f :| Clean(c, f, {}, {}) && Onward(cfg, c, f, false);
        AssetExpires(cfg, c, f, x, reason);
      }
    }
  }

  lemma AssetExpires(cfg: Config, c: Controller, f: int, x: Item, reason: string)
    requires Always(cfg, c) && Clean(c, f, {}, {}) && Onward(cfg, c, f, false)
    requires x in c.work && x.asset && x.id in c.store.running
    ensures Clean(Expire(c, x, reason), f, {}, {}) && Onward(cfg, Expire(c, x, reason), f, false)
  {
    var c' := Expire(c, x, reason);
    AssetAttempt(cfg, c, x, c');
    forall y | y in c'.work && !Touched(c'.store, y.id)
      ensures Waits(c', y, {})
    {
      assert Waits(c, y, {});
    }
    AssetAttemptFacts(c.store, c'.store, f);
    CoverKept(cfg, c, c');
    OnwardGrows(cfg, c, c', f, false);
  }

  /** The attempt of an asset item is no membership's. */
  lemma AssetAttempt(cfg: Config, c: Controller, x: Item, c': Controller)
    requires WorkSound(cfg, c.work) && MembersSound(c) && x in c.work && x.asset
    requires c'.store.members == c.store.members
    requires forall id :: id != x.id ==> (id in c.store.terminal <==> id in c'.store.terminal)
    ensures forall m :: m in c.store.members ==> m.id != x.id
    ensures forall m :: m in c.store.members ==> (m.id in c.store.terminal <==> m.id in c'.store.terminal)
  {
    forall m | m in c.store.members
      ensures m.id != x.id
    {
      assert MemberKnown(c.work, m);
      var y :| y in c.work && !y.asset && m == MemberOf(y);
      if y.id == x.id {
        SameId(c.work, x, y);
      }
    }
  }

  lemma AssetAttemptFacts(s: Store, s': Store, f: int)
    requires FactsSound(s, f, {}) && s'.steps == s.steps && s'.members == s.members && s'.facts == s.facts
    requires forall m :: m in s.members ==> (m.id in s.terminal <==> m.id in s'.terminal)
    ensures FactsSound(s', f, {})
  {
    forall k | k in s'.facts
      ensures FactKnown(s', k, f)
    {
      assert FactKnown(s, k, f);
    }
    forall r | r in s'.steps && HasMembers(s', r) && AllTerminal(s', r)
      ensures r.stepIndex in s'.facts
    {
      assert HasMembers(s, r) && AllTerminal(s, r);
    }
  }

  lemma NextKeepsInv(cfg: Config, c: Controller, e: Call)
    requires Inv(cfg, c)
    ensures Inv(cfg, Next(cfg, c, e))
  {
    match e
    case ClaimCall(id) => ClaimKeepsInv(cfg, c, id);
    case RequeueCall(id, at) => RequeueKeepsInv(cfg, c, id, at);
    case CompleteCall(x, attempt, at) => CompleteKeepsInv(cfg, c, x, attempt, at);
    case FailCall(x, reason) => FailKeepsInv(cfg, c, x, reason);
    case ExpireCall(x, reason) => ExpireKeepsInv(cfg, c, x, reason);
  }

  lemma {:induction false} RunKeepsInv(cfg: Config, c: Controller, calls: seq<Call>)
    requires Inv(cfg, c)
    ensures Inv(cfg, RunCalls(cfg, c, calls))
    decreases |calls|
  {
    if calls != [] {
      NextKeepsInv(cfg, c, calls[0]);
      RunKeepsInv(cfg, Next(cfg, c, calls[0]), calls[1..]);
    }
  }
}

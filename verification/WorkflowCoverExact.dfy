/** The condition under which an output means that a step has finished all its items is exact: for a
    step whose items wait for different items there is a run in which the step gets its output and
    one of its items has yet to run. */
module WorkflowCoverExact {
  import opened Wrappers
  import opened PlanModel
  import opened DependencyStore
  import opened StoreView
  import opened StoreEffects
  import opened WorkflowRun
  import opened WorkflowRunInv
  import opened WorkflowRunParts
  import opened WorkflowRunRelease
  import opened WorkflowRunStages
  import opened WorkflowRunOpening
  import opened WorkflowRunLaws
  import opened WorkflowRunTheorems
  import opened WorkflowCover

  /** The deferred items of the stage depend on items of the stage, without a cycle. */
  predicate RankedStage(compiled: seq<Compiled>, rank: string -> nat) {
    forall y, k :: y in compiled && IsDeferred(compiled, y) && 0 <= k < |y.dependsOn| ==>
      y.dependsOn[k] in CompiledIds(compiled) && rank(y.dependsOn[k]) < rank(y.id)
  }

  predicate StageInWork(cfg: Config, c: Controller, f: int) {
    && cfg.compile(f).Some?
    && forall k :: 0 <= k < |cfg.compile(f).value| ==> InWork(c.work, f, k)
  }

  /** The stage compiles to items with new ids. */
  predicate CompilesAnew(cfg: Config, work: seq<Item>, i: int) {
    && cfg.compile(i).Some?
    && (forall y :: y in cfg.compile(i).value ==> y.id !in Ids(work))
    && (forall a, b :: 0 <= a < b < |cfg.compile(i).value| ==> cfg.compile(i).value[a].id != cfg.compile(i).value[b].id)
  }

  /** So do all stages of the plan after this one. */
  ghost predicate LaterStagesNew(cfg: Config, c: Controller, f: int) {
    forall i :: i > f && StageKnown(c.store, i) ==> CompilesAnew(cfg, c.work, i)
  }

  /** The stage has been opened, nothing of it has run, nothing is running, and the stages after it can
      be opened. */
  ghost predicate JustOpened(cfg: Config, c: Controller, f: int) {
    && Reaches(cfg, c) && Rebuild(c.store).state != WorkflowState.Failed && c.refused == {} && c.store.running == {}
    && StageInWork(cfg, c, f) && LaterStagesNew(cfg, c, f)
    && (forall id :: id in CompiledIds(cfg.compile(f).value) ==> id !in c.store.terminal)
    && (forall r :: r in c.store.steps && r.stageIndex == f && r.stepIndex in c.store.facts ==> IsUncompiled(cfg, r))
  }

  // ---------------------------------------------------------------------------------------
  // Opening the stages that follow

  lemma AnewIsNew(cfg: Config, work: seq<Item>, i: int, at: int)
    requires CompilesAnew(cfg, work, i)
    ensures NewStage(cfg, work, i, at)
  {
    var compiled := cfg.compile(i).value;
    forall x | x in Records(i, compiled, at)
      ensures x.id !in Ids(work)
    {
      RecordsCompiled(cfg, i, at, x);
      assert compiled[x.index] in compiled;
    }
  }

  lemma NewIsQueueable(cfg: Config, c: Controller, i: int, at: int)
    requires Always(cfg, c) && NewStage(cfg, c.work, i, at)
    ensures
      var items := NewItems(cfg, i, at);
      QueueItems(c, items, Undeferred(items, Ids(items)), at).Some?
  {
    var items := NewItems(cfg, i, at);
    forall x | x in items
      ensures x.id !in Ids(c.work) && x.id !in c.store.queued
    {
      NewUntouched(cfg, c, i, at, x);
    }
    forall x, y | x in items && y in c.work
      ensures x.id != y.id
    {
      InIds(c.work, y);
    }
  }

  /** A new stage is queued as a whole. */
  lemma NewStageQueued(cfg: Config, c: Controller, i: int, at: int) returns (c': Controller)
    requires CleanAt(cfg, c, i) && NewStage(cfg, c.work, i, at)
    ensures QueueStage(c, i, cfg.compile(i).value, at) == c' && CleanAt(cfg, c', i) && c' == Opening(cfg, c, i, at)
  {
    NewIsQueueable(cfg, c, i, at);
    QueueNewStage(cfg, c, i, at);
    c' := Opening(cfg, c, i, at);
  }

  /** Nothing has failed or been refused, no attempt has changed and no fact was lost. */
  ghost predicate Kept(c: Controller, c': Controller) {
    && AttemptsSound(c'.store) && c'.refused == c.refused && c'.store.terminal == c.store.terminal
    && (forall k :: k in c.store.facts ==> k in c'.store.facts)
  }

  lemma EmptiesKept(cfg: Config, c: Controller, i: int)
    requires CleanAt(cfg, c, i) && StageKnown(c.store, i) && cfg.compile(i).Some?
    ensures
      var c' := c.(store := RecordEmptySteps(c.store, i, CompiledSteps(cfg.compile(i).value), cfg.empty).0);
      CleanAt(cfg, c', i) && Kept(c, c')
  {
    EmptiesKeepClean(cfg, c, i);
    CleanHealthy(c);
    EmptiesRecorded(c.store, i, CompiledSteps(cfg.compile(i).value), cfg.empty);
  }

  lemma QueueingKept(cfg: Config, c: Controller, i: int, at: int)
    requires CleanAt(cfg, c, i) && NewStage(cfg, c.work, i, at)
    ensures Kept(c, QueueStage(c, i, cfg.compile(i).value, at))
  {
    var c' := NewStageQueued(cfg, c, i, at);
  }

  /** One turn of the activation loop on a stage not yet begun. */
  lemma StageOpens(cfg: Config, c: Controller, i: int, at: int)
    requires CleanAt(cfg, c, i) && StageKnown(c.store, i) && !StageBegun(c.store, i) && NewStage(cfg, c.work, i, at)
    ensures
      var (c', more) := ActivateStage(cfg, c, i, at);
      && Kept(c, c')
      && (more ==> CleanAt(cfg, c', i) && FactsBelow(c'.store, i + 1) && c'.work == c.work && c'.store.steps == c.store.steps)
  {
    var compiled := cfg.compile(i).value;
    var (s, all) := RecordEmptySteps(c.store, i, CompiledSteps(compiled), cfg.empty);
    var c1 := c.(store := s);
    EmptiesKept(cfg, c, i);
    if all {
      EmptiesFinishStage(cfg, c.store, i, CompiledSteps(compiled));
    } else {
      NotBegunEmpties(cfg, c.store, i);
      QueueingKept(cfg, c1, i, at);
    }
  }

  lemma LaterStill(cfg: Config, c: Controller, c': Controller, f: int, f': int)
    requires LaterStagesNew(cfg, c, f) && c'.work == c.work && c'.store.steps == c.store.steps && f <= f'
    ensures LaterStagesNew(cfg, c', f')
  {
    forall i | i > f' && StageKnown(c'.store, i)
      ensures CompilesAnew(cfg, c'.work, i)
    {
      assert StageKnown(c.store, i);
    }
  }

  lemma MovesOn(cfg: Config, c: Controller, f: int)
    requires CleanAt(cfg, c, f) && FactsBelow(c.store, f + 1) && StageIs(c.store, f + 1, Blocked) && LaterStagesNew(cfg, c, f)
    ensures CleanAt(cfg, c, f + 1) && StageKnown(c.store, f + 1) && !StageBegun(c.store, f + 1)
    ensures CompilesAnew(cfg, c.work, f + 1)
  {
    CleanHealthy(c);
    BlockedStage(c.store, f + 1);
    FrontierMoves(c, f, f + 1);
  }

  lemma {:induction false} StagesOpen(cfg: Config, c: Controller, f: int, at: int)
    requires CleanAt(cfg, c, f) && FactsBelow(c.store, f + 1) && LaterStagesNew(cfg, c, f)
    ensures Kept(c, ActivateFrom(cfg, c, f + 1, at))
    decreases LastStage(c.store.steps) - f
  {
    if StageIs(c.store, f + 1, Blocked) {
      MovesOn(cfg, c, f);
      AnewIsNew(cfg, c.work, f + 1, at);
      StageOpens(cfg, c, f + 1, at);
      var (c', more) := ActivateStage(cfg, c, f + 1, at);
      ActivateFromTurn(cfg, c, f + 1, at, c', more);
      if more {
        FoundStageBounded(c.store, f + 1, Blocked);
        LaterStill(cfg, c, c', f, f + 1);
        StagesOpen(cfg, c', f + 1, at);
      }
    }
  }

  /** Trying the next stage fails nothing when the stages to come are new. */
  lemma NextOpens(cfg: Config, c: Controller, f: int, at: int)
    requires CleanAt(cfg, c, f) && LaterStagesNew(cfg, c, f)
    ensures Kept(c, ActivateNext(cfg, c, f, at))
  {
    if StageIs(c.store, f, Progress.Completed) {
      CompletedStageSettled(cfg, c, f, f);
      StagesOpen(cfg, c, f, at);
    }
  }

  /** While a step is open no further stage is opened. */
  lemma StageStaysOpen(cfg: Config, c: Controller, f: int, r: StepRecord, moving: bool, at: int)
    requires CleanAt(cfg, c, f) && Onward(cfg, c, f, moving) && r in c.store.steps && r.stageIndex == f && r.stepIndex !in c.store.facts
    ensures ActivateNext(cfg, c, f, at) == c && Onward(cfg, c, f, false)
  {
    if StageIs(c.store, f, Progress.Completed) {
      CompletedStageSettled(cfg, c, f, f);
    }
  }

  // ---------------------------------------------------------------------------------------
  // Running a set of items

  /** Of the items of the stage exactly these have run, successfully. */
  ghost predicate Ran(cfg: Config, c: Controller, f: int, ran: set<string>) {
    && CleanAt(cfg, c, f) && Onward(cfg, c, f, false) && c.refused == {} && c.store.running == {}
    && StageInWork(cfg, c, f) && LaterStagesNew(cfg, c, f)
    && (forall id :: id in ran ==> Succeeds(c.store, id))
    && (forall id :: id in CompiledIds(cfg.compile(f).value) && id in c.store.terminal ==> id in ran)
  }

  /** The step has got its output, nothing has failed or been refused, and no other items of the stage
      than these have finished. */
  ghost predicate Early(cfg: Config, c: Controller, r: StepRecord, ran: set<string>) {
    && AttemptsSound(c.store) && c.refused == {} && r.stepIndex in c.store.facts && cfg.compile(r.stageIndex).Some?
    && (forall id :: id in CompiledIds(cfg.compile(r.stageIndex).value) && id in c.store.terminal ==> id in ran)
  }

  /** These items of the stage have run, or the step has got its output on the way. */
  ghost predicate RanTo(cfg: Config, c: Controller, r: StepRecord, ran: set<string>) {
    Early(cfg, c, r, ran) || (Ran(cfg, c, r.stageIndex, ran) && r in c.store.steps && r.stepIndex !in c.store.facts)
  }

  /** The stage just opened is the last one opened. */
  lemma JustOpenedClean(cfg: Config, c: Controller, f: int)
    requires JustOpened(cfg, c, f) && cfg.compile(f).value != []
    ensures Ran(cfg, c, f, {})
  {
    ReachableInv(cfg, c);
    var g := RunningIsClean(cfg, c);
    assert InWork(c.work, f, 0);
    var x :| x in c.work && x.stageIndex == f && x.index == 0;
    var r := StepOf(cfg, c, x);
    assert IsCompiled(cfg, x) && cfg.compile(f).value[0] in cfg.compile(f).value;
    assert !IsUncompiled(cfg, r);
    assert g == f;
  }

  lemma EntryItem(cfg: Config, c: Controller, f: int, y: Compiled) returns (x: Item)
    requires WorkSound(cfg, c.work) && StageInWork(cfg, c, f) && y in cfg.compile(f).value
    ensures x in c.work && x.stageIndex == f && Compiled(x.id, x.stepIndex, x.dependsOn, x.asset) == y
  {
    var k :| 0 <= k < |cfg.compile(f).value| && cfg.compile(f).value[k] == y;
    assert InWork(c.work, f, k);
    x :| x in c.work && x.stageIndex == f && x.index == k;
    assert IsCompiled(cfg, x);
  }

  /** What a deferred item depends on is in the set. */
  predicate Readied(cfg: Config, x: Item, ran: set<string>) {
    Deferred(cfg, x) ==> forall k :: 0 <= k < |x.dependsOn| ==> x.dependsOn[k] in ran
  }

  /** An item whose dependencies have run is queued. */
  lemma NextIsQueued(cfg: Config, c: Controller, f: int, ran: set<string>, x: Item)
    requires Ran(cfg, c, f, ran) && x in c.work && x.stageIndex == f && x.id !in ran && Readied(cfg, x, ran)
    ensures x.id in c.store.queued && x.id !in c.store.terminal
  {
    assert IsCompiled(cfg, x) && cfg.compile(f).value[x.index] in cfg.compile(f).value;
    if Deferred(cfg, x) {
      ReadyIsQueued(cfg, c, x);
    } else {
      assert Touched(c.store, x.id);
    }
  }

  lemma RanOneMore(cfg: Config, c: Controller, f: int, ran: set<string>, x: Item, attempt: Terminal, c': Controller)
    requires Ran(cfg, c, f, ran) && TakenIn(c, c', x, attempt) && !attempt.failed
    requires CleanAt(cfg, c', f) && Onward(cfg, c', f, false)
    ensures Ran(cfg, c', f, ran + {x.id})
  {
    LaterStill(cfg, c, c', f, f);
    SucceedsOneMore(c.store, c'.store, ran, x.id, attempt);
  }

  lemma SucceedsOneMore(s: Store, s': Store, ran: set<string>, id: string, attempt: Terminal)
    requires (forall k :: k in ran ==> Succeeds(s, k)) && s'.terminal == s.terminal[id := attempt] && !attempt.failed
    ensures forall k :: k in ran + {id} ==> Succeeds(s', k)
  {
    forall k | k in ran + {id}
      ensures Succeeds(s', k)
    {
      assert k in ran ==> Succeeds(s, k);
    }
  }

  /** One more item of the stage runs; the step may get its output then, and the next stage opened. */
  lemma RunOne(cfg: Config, c: Controller, r: StepRecord, ran: set<string>, x: Item, attempt: Terminal, at: int) returns (c': Controller)
    requires Ran(cfg, c, r.stageIndex, ran) && r in c.store.steps && r.stepIndex !in c.store.facts && AcceptsAll(cfg) && IsSuccess(attempt)
    requires x in c.work && x.stageIndex == r.stageIndex && x.id !in ran && Readied(cfg, x, ran)
    ensures RunsTo(cfg, c, c') && RanTo(cfg, c', r, ran + {x.id})
    ensures OnStep(x, r) && LastOnStep(c.store, x) ==> r.stepIndex in c'.store.facts
  {
    NextIsQueued(cfg, c, r.stageIndex, ran, x);
    var mid := TakesIn(cfg, c, r.stageIndex, x, attempt, at);
    if r.stepIndex in mid.store.facts {
      c' := if x.asset then mid else ActivateNext(cfg, mid, x.stageIndex, at);
      OutputOpens(cfg, c, r, ran, x, attempt, at, mid, c');
    } else {
      c' := mid;
      StageStaysOpen(cfg, mid, r.stageIndex, r, !x.asset && x.stageIndex == r.stageIndex, at);
      RanOneMore(cfg, c, r.stageIndex, ran, x, attempt, mid);
    }
  }

  lemma OutputOpens(cfg: Config, c: Controller, r: StepRecord, ran: set<string>, x: Item, attempt: Terminal, at: int, mid: Controller, c': Controller)
    requires Ran(cfg, c, r.stageIndex, ran) && TakenIn(c, mid, x, attempt) && x.stageIndex == r.stageIndex
    requires CleanAt(cfg, mid, r.stageIndex) && r.stepIndex in mid.store.facts
    requires c' == if x.asset then mid else ActivateNext(cfg, mid, x.stageIndex, at)
    ensures Early(cfg, c', r, ran + {x.id})
  {
    LaterStill(cfg, c, mid, r.stageIndex, r.stageIndex);
    NextOpens(cfg, mid, r.stageIndex, at);
    assert Kept(mid, c');
  }

  lemma {:induction false} RunAppend(cfg: Config, c: Controller, first: seq<Call>, second: seq<Call>)
    ensures RunCalls(cfg, c, first + second) == RunCalls(cfg, RunCalls(cfg, c, first), second)
    decreases |first|
  {
    if first == [] {
      assert first + second == second;
    } else {
      assert (first + second)[1..] == first[1..] + second;
      RunAppend(cfg, Next(cfg, c, first[0]), first[1..], second);
    }
  }

  lemma RunsOn(cfg: Config, c: Controller, c1: Controller, c2: Controller)
    requires RunsTo(cfg, c, c1) && RunsTo(cfg, c1, c2)
    ensures RunsTo(cfg, c, c2)
  {
    var before :| c1 == RunCalls(cfg, c, before);
    var calls :| c2 == RunCalls(cfg, c1, calls);
    RunAppend(cfg, c, before, calls);
  }

  /** Some id of the set has the highest rank. */
  lemma {:induction false} Highest(ids: set<string>, rank: string -> nat) returns (top: string)
    requires ids != {}
    ensures top in ids && forall id :: id in ids ==> rank(id) <= rank(top)
    decreases ids
  {
    var id :| id in ids;
    if ids == {id} {
      top := id;
    } else {
      var other := Highest(ids - {id}, rank);
      top := if rank(id) <= rank(other) then other else id;
    }
  }

  /** Everything the item waits for is in the set. */
  predicate DependsIn(compiled: seq<Compiled>, id: string, ran: set<string>) {
    forall y, k :: y in compiled && y.id == id && IsDeferred(compiled, y) && 0 <= k < |y.dependsOn| ==> y.dependsOn[k] in ran
  }

  /** Whatever an item of the set waits for is in the set. */
  predicate DownClosed(compiled: seq<Compiled>, ran: set<string>) {
    ran <= CompiledIds(compiled) && forall id :: id in ran ==> DependsIn(compiled, id, ran)
  }

  /** Without an item of the highest rank the set is still closed. */
  lemma WithoutHighest(compiled: seq<Compiled>, rank: string -> nat, ran: set<string>) returns (top: string, less: set<string>)
    requires RankedStage(compiled, rank) && DownClosed(compiled, ran) && ran != {}
    ensures ran == less + {top} && top !in less && |less| < |ran| && top in CompiledIds(compiled)
    ensures DependsIn(compiled, top, less) && DownClosed(compiled, less)
  {
    top := Highest(ran, rank);
    less := ran - {top};
    forall id | id in ran
      ensures DependsIn(compiled, id, less)
    {
      assert DependsIn(compiled, id, ran);
    }
  }

  /** The item of the stage that waits for others of the set alone. */
  lemma TopItem(cfg: Config, c: Controller, f: int, less: set<string>, top: string) returns (x: Item)
    requires Ran(cfg, c, f, less) && top in CompiledIds(cfg.compile(f).value)
    requires DependsIn(cfg.compile(f).value, top, less)
    ensures x in c.work && x.stageIndex == f && x.id == top && Readied(cfg, x, less)
  {
    var y :| y in cfg.compile(f).value && y.id == top;
    x := EntryItem(cfg, c, f, y);
  }

  /** These items of the stage can be run from here, unless the step gets its output before. */
  ghost predicate CanRun(cfg: Config, c: Controller, r: StepRecord, ran: set<string>) {
    exists c' :: RunsTo(cfg, c, c') && RanTo(cfg, c', r, ran)
  }

  lemma CanRunNone(cfg: Config, c: Controller, r: StepRecord)
    requires Ran(cfg, c, r.stageIndex, {}) && r in c.store.steps && r.stepIndex !in c.store.facts
    ensures CanRun(cfg, c, r, {})
  {
    assert c == RunCalls(cfg, c, []);
    assert RunsTo(cfg, c, c) && RanTo(cfg, c, r, {});
  }

  lemma EarlyStays(cfg: Config, c: Controller, r: StepRecord, less: set<string>, ran: set<string>)
    requires Early(cfg, c, r, less) && less <= ran
    ensures RanTo(cfg, c, r, ran)
  {
  }

  lemma CanRunMore(cfg: Config, c: Controller, r: StepRecord, less: set<string>, top: string, ran: set<string>, attempt: Terminal, at: int)
    requires CanRun(cfg, c, r, less) && AcceptsAll(cfg) && IsSuccess(attempt)
    requires cfg.compile(r.stageIndex).Some? && top in CompiledIds(cfg.compile(r.stageIndex).value) && ran == less + {top} && top !in less
    requires DependsIn(cfg.compile(r.stageIndex).value, top, less)
    ensures CanRun(cfg, c, r, ran)
  {
    var before :| RunsTo(cfg, c, before) && RanTo(cfg, before, r, less);
    if Early(cfg, before, r, less) {
      EarlyStays(cfg, before, r, less, ran);
    } else {
      var c' := RunTop(cfg, before, r, less, top, attempt, at);
      RunsOn(cfg, c, before, c');
    }
  }

  lemma RunTop(cfg: Config, c: Controller, r: StepRecord, less: set<string>, top: string, attempt: Terminal, at: int) returns (c': Controller)
    requires Ran(cfg, c, r.stageIndex, less) && r in c.store.steps && r.stepIndex !in c.store.facts && AcceptsAll(cfg) && IsSuccess(attempt)
    requires top in CompiledIds(cfg.compile(r.stageIndex).value) && top !in less && DependsIn(cfg.compile(r.stageIndex).value, top, less)
    ensures RunsTo(cfg, c, c') && RanTo(cfg, c', r, less + {top})
  {
    var x := TopItem(cfg, c, r.stageIndex, less, top);
    c' := RunOne(cfg, c, r, less, x, attempt, at);
  }

  /** Every set of items that waits for nothing else can be run, and nothing else of the stage, unless
      the step gets its output before. */
  lemma {:induction false} RunSet(cfg: Config, c: Controller, r: StepRecord, rank: string -> nat, ran: set<string>, attempt: Terminal, at: int)
    requires CanRun(cfg, c, r, {}) && AcceptsAll(cfg) && IsSuccess(attempt) && cfg.compile(r.stageIndex).Some?
    requires RankedStage(cfg.compile(r.stageIndex).value, rank) && DownClosed(cfg.compile(r.stageIndex).value, ran)
    ensures CanRun(cfg, c, r, ran)
    decreases |ran|
  {
    if ran != {} {
      var top, less := WithoutHighest(cfg.compile(r.stageIndex).value, rank, ran);
      RunSet(cfg, c, r, rank, less, attempt, at);
      CanRunMore(cfg, c, r, less, top, ran, attempt, at);
    }
  }

  // ---------------------------------------------------------------------------------------
  // Everything that does not need an item

  /** The ids of the stage that neither are `d` nor need it. */
  ghost function Without(compiled: seq<Compiled>, d: string): set<string> {
    set y | y in compiled && y.id != d && !Needs(compiled, y.id, d) :: y.id
  }

  lemma NeedsThrough(compiled: seq<Compiled>, z: Compiled, e: string, d: string)
    requires z in compiled && IsDeferred(compiled, z) && e in z.dependsOn && (e == d || Needs(compiled, e, d))
    ensures Needs(compiled, z.id, d)
  {
    assert Link(compiled, z.id, e);
    var path: seq<string>;
    if e == d {
      path := [z.id, d];
    } else {
      var rest :| Chain(compiled, rest) && rest[0] == e && rest[|rest| - 1] == d;
      path := [z.id] + rest;
      forall k | 0 <= k < |path| - 1
        ensures Link(compiled, path[k], path[k + 1])
      {
        assert k > 0 ==> Link(compiled, rest[k - 1], rest[k]);
      }
    }
    assert Chain(compiled, path);
  }

  lemma WithoutClosed(compiled: seq<Compiled>, rank: string -> nat, d: string)
    requires RankedStage(compiled, rank)
    ensures DownClosed(compiled, Without(compiled, d))
  {
    var ran := Without(compiled, d);
    forall id, z, k | id in ran && z in compiled && z.id == id && IsDeferred(compiled, z) && 0 <= k < |z.dependsOn|
      ensures z.dependsOn[k] in ran
    {
      var e := z.dependsOn[k];
      var y :| y in compiled && y.id == e;
      if e == d || Needs(compiled, e, d) {
        NeedsThrough(compiled, z, e, d);
        assert false;
      }
    }
  }

  lemma {:induction false} ChainRank(compiled: seq<Compiled>, rank: string -> nat, path: seq<string>)
    requires RankedStage(compiled, rank) && Chain(compiled, path)
    ensures rank(path[|path| - 1]) < rank(path[0])
    decreases |path|
  {
    LinkRank(compiled, rank, path[0], path[1]);
    if |path| > 2 {
      var rest := path[1..];
      forall k | 0 <= k < |rest| - 1
        ensures Link(compiled, rest[k], rest[k + 1])
      {
        assert Link(compiled, path[k + 1], path[k + 2]);
      }
      ChainRank(compiled, rank, rest);
    }
  }

  lemma LinkRank(compiled: seq<Compiled>, rank: string -> nat, id: string, d: string)
    requires RankedStage(compiled, rank) && Link(compiled, id, d)
    ensures rank(d) < rank(id)
  {
    var z :| z in compiled && z.id == id && IsDeferred(compiled, z) && d in z.dependsOn;
    var k :| 0 <= k < |z.dependsOn| && z.dependsOn[k] == d;
  }

  lemma NeedsRank(compiled: seq<Compiled>, rank: string -> nat, id: string, d: string)
    requires RankedStage(compiled, rank) && Needs(compiled, id, d)
    ensures rank(d) < rank(id)
  {
    var path :| Chain(compiled, path) && path[0] == id && path[|path| - 1] == d;
    ChainRank(compiled, rank, path);
  }

  /** What `d` waits for does not need it. */
  lemma BeforeIsWithout(compiled: seq<Compiled>, rank: string -> nat, d: string)
    requires RankedStage(compiled, rank)
    ensures DependsIn(compiled, d, Without(compiled, d))
  {
    forall z, k | z in compiled && z.id == d && IsDeferred(compiled, z) && 0 <= k < |z.dependsOn|
      ensures z.dependsOn[k] in Without(compiled, d)
    {
      var e := z.dependsOn[k];
      var y :| y in compiled && y.id == e;
      if Needs(compiled, e, d) {
        NeedsRank(compiled, rank, e, d);
      }
    }
  }

  // ---------------------------------------------------------------------------------------
  // The run that leaves an item behind

  /** Once everything that does not need `d` has run, nothing else has been queued but `d` itself. */
  lemma OnlyWithoutTouched(cfg: Config, c: Controller, f: int, d: string, z: Item)
    requires cfg.compile(f).Some? && Ran(cfg, c, f, Without(cfg.compile(f).value, d)) && d in CompiledIds(cfg.compile(f).value)
    requires z in c.work && z.stageIndex == f && Touched(c.store, z.id) && z.id != d
    ensures z.id in c.store.terminal
  {
    var compiled := cfg.compile(f).value;
    assert IsCompiled(cfg, z) && compiled[z.index] in compiled;
    if Needs(compiled, z.id, d) {
      var path :| Chain(compiled, path) && path[0] == z.id && path[|path| - 1] == d;
      ChainSucceeds(cfg, c, f, path, z);
      assert false;
    }
    assert z.id in Without(compiled, d);
  }

  /** A recorded membership of the step belongs to an item touched. */
  lemma MemberTouched(c: Controller, m: MemberRecord) returns (z: Item)
    requires MembersSound(c) && m in c.store.members
    ensures z in c.work && !z.asset && m == MemberOf(z) && Touched(c.store, z.id)
  {
    assert MemberKnown(c.work, m);
    z :| z in c.work && !z.asset && m == MemberOf(z);
  }

  /** `y` is on the step and has run, and nobody on the step is `d`: the step has its output. */
  lemma OutputWithout(cfg: Config, c: Controller, f: int, d: string, r: StepRecord, y: Item)
    requires cfg.compile(f).Some? && Ran(cfg, c, f, Without(cfg.compile(f).value, d)) && d in CompiledIds(cfg.compile(f).value)
    requires r in c.store.steps && r.stageIndex == f && y in c.work && OnStep(y, r) && y.id in c.store.terminal
    requires forall z :: z in c.work && OnStep(z, r) ==> z.id != d
    ensures r.stepIndex in c.store.facts
  {
    assert Touched(c.store, y.id) && MemberOf(y) in c.store.members && Matches(MemberOf(y), r);
    forall m | m in c.store.members && Matches(m, r)
      ensures m.id in c.store.terminal
    {
      var z := MemberTouched(c, m);
      OnlyWithoutTouched(cfg, c, f, d, z);
    }
    assert AllTerminal(c.store, r);
  }

  /** `d` is the last on its step to finish. */
  lemma LastIsD(cfg: Config, c: Controller, f: int, x: Item)
    requires cfg.compile(f).Some? && Ran(cfg, c, f, Without(cfg.compile(f).value, x.id)) && x.id in CompiledIds(cfg.compile(f).value)
    requires x.stageIndex == f
    ensures LastOnStep(c.store, x)
  {
    forall m | m in c.store.members && m.stageIndex == x.stageIndex && m.stepIndex == x.stepIndex && m.id != x.id
      ensures m.id in c.store.terminal
    {
      var z := MemberTouched(c, m);
      OnlyWithoutTouched(cfg, c, f, x.id, z);
    }
  }

  /** One item of the step waits for `d` and another does not. */
  ghost predicate Uneven(compiled: seq<Compiled>, stepIndex: int, x: Compiled, y: Compiled, d: string) {
    && TrackedOn(compiled, stepIndex, x) && TrackedOn(compiled, stepIndex, y)
    && IsDeferred(compiled, x) && d in x.dependsOn && !Needs(compiled, y.id, d)
  }

  /** Everything that does not need `d` runs, and `d` itself if it is on the step; with that at the
      latest the step has its output. */
  lemma RunWithout(cfg: Config, c: Controller, r: StepRecord, rank: string -> nat, y: Compiled, d: string, attempt: Terminal, at: int)
      returns (c': Controller)
    requires Ran(cfg, c, r.stageIndex, {}) && r in c.store.steps && r.stepIndex !in c.store.facts && AcceptsAll(cfg) && IsSuccess(attempt)
    requires RankedStage(cfg.compile(r.stageIndex).value, rank) && d in CompiledIds(cfg.compile(r.stageIndex).value)
    requires TrackedOn(cfg.compile(r.stageIndex).value, r.stepIndex, y) && !Needs(cfg.compile(r.stageIndex).value, y.id, d)
    ensures RunsTo(cfg, c, c') && Early(cfg, c', r, Without(cfg.compile(r.stageIndex).value, d) + {d})
  {
    var ran := Without(cfg.compile(r.stageIndex).value, d);
    WithoutClosed(cfg.compile(r.stageIndex).value, rank, d);
    CanRunNone(cfg, c, r);
    RunSet(cfg, c, r, rank, ran, attempt, at);
    var mid :| RunsTo(cfg, c, mid) && RanTo(cfg, mid, r, ran);
    if Early(cfg, mid, r, ran) {
      c' := mid;
    } else {
      c' := RunLast(cfg, mid, r, rank, y, d, attempt, at);
      RunsOn(cfg, c, mid, c');
    }
  }

  lemma RunLast(cfg: Config, c: Controller, r: StepRecord, rank: string -> nat, y: Compiled, d: string, attempt: Terminal, at: int)
      returns (c': Controller)
    requires cfg.compile(r.stageIndex).Some? && Ran(cfg, c, r.stageIndex, Without(cfg.compile(r.stageIndex).value, d))
    requires r in c.store.steps && r.stepIndex !in c.store.facts && AcceptsAll(cfg) && IsSuccess(attempt)
    requires RankedStage(cfg.compile(r.stageIndex).value, rank) && d in CompiledIds(cfg.compile(r.stageIndex).value)
    requires TrackedOn(cfg.compile(r.stageIndex).value, r.stepIndex, y) && !Needs(cfg.compile(r.stageIndex).value, y.id, d)
    ensures RunsTo(cfg, c, c') && Early(cfg, c', r, Without(cfg.compile(r.stageIndex).value, d) + {d})
  {
    var z := OnThisStep(cfg, c, r, y, d);
    BeforeIsWithout(cfg.compile(r.stageIndex).value, rank, d);
    DependsReadied(cfg, c, r.stageIndex, z, Without(cfg.compile(r.stageIndex).value, d));
    LastIsD(cfg, c, r.stageIndex, z);
    c' := RunOne(cfg, c, r, Without(cfg.compile(r.stageIndex).value, d), z, attempt, at);
  }

  lemma DependsReadied(cfg: Config, c: Controller, f: int, z: Item, ran: set<string>)
    requires WorkSound(cfg, c.work) && z in c.work && z.stageIndex == f && cfg.compile(f).Some? && DependsIn(cfg.compile(f).value, z.id, ran)
    ensures Readied(cfg, z, ran)
  {
    assert IsCompiled(cfg, z) && cfg.compile(f).value[z.index] in cfg.compile(f).value;
  }

  /** As long as the step has no output, `d` itself is on it. */
  lemma OnThisStep(cfg: Config, c: Controller, r: StepRecord, y: Compiled, d: string) returns (z: Item)
    requires cfg.compile(r.stageIndex).Some? && Ran(cfg, c, r.stageIndex, Without(cfg.compile(r.stageIndex).value, d))
    requires r in c.store.steps && r.stepIndex !in c.store.facts && d in CompiledIds(cfg.compile(r.stageIndex).value)
    requires TrackedOn(cfg.compile(r.stageIndex).value, r.stepIndex, y) && !Needs(cfg.compile(r.stageIndex).value, y.id, d)
    ensures z in c.work && OnStep(z, r) && z.id == d
  {
    if forall x :: x in c.work && OnStep(x, r) ==> x.id != d {
      var item := EntryItem(cfg, c, r.stageIndex, y);
      assert OnStep(item, r) && item.id in Without(cfg.compile(r.stageIndex).value, d);
      OutputWithout(cfg, c, r.stageIndex, d, r, item);
      assert false;
    }
    z :| z in c.work && OnStep(z, r) && z.id == d;
  }

  lemma UnevenLeavesItem(cfg: Config, c: Controller, rank: string -> nat, r: StepRecord,
                         x: Compiled, y: Compiled, d: string, attempt: Terminal, at: int)
      returns (c': Controller)
    requires Ran(cfg, c, r.stageIndex, {}) && r in c.store.steps && r.stepIndex !in c.store.facts && AcceptsAll(cfg) && IsSuccess(attempt)
    requires RankedStage(cfg.compile(r.stageIndex).value, rank) && Uneven(cfg.compile(r.stageIndex).value, r.stepIndex, x, y, d)
    ensures RunsTo(cfg, c, c') && r.stepIndex in c'.store.facts && x.id !in c'.store.terminal
    ensures c'.refused == {} && AttemptsSound(c'.store)
  {
    UnevenWaits(cfg.compile(r.stageIndex).value, rank, r.stepIndex, x, y, d);
    c' := RunWithout(cfg, c, r, rank, y, d, attempt, at);
    assert x.id in CompiledIds(cfg.compile(r.stageIndex).value);
  }

  lemma UnevenWaits(compiled: seq<Compiled>, rank: string -> nat, stepIndex: int, x: Compiled, y: Compiled, d: string)
    requires RankedStage(compiled, rank) && Uneven(compiled, stepIndex, x, y, d)
    ensures d in CompiledIds(compiled) && x in compiled && x.id !in Without(compiled, d) + {d}
  {
    NeedsThrough(compiled, x, d, d);
    NeedsRank(compiled, rank, x.id, d);
    var k :| 0 <= k < |x.dependsOn| && x.dependsOn[k] == d;
  }

  lemma CleanIsNotFailed(c: Controller)
    requires AttemptsSound(c.store)
    ensures Rebuild(c.store).state != WorkflowState.Failed
  {
    CleanHealthy(c);
    HealthyPlanState(c.store);
  }

  lemma RunsAreReached(cfg: Config, c: Controller, c': Controller)
    requires Reaches(cfg, c) && RunsTo(cfg, c, c')
    ensures Reaches(cfg, c')
  {
    var start, at, before :| ReachedBy(cfg, start, at, before, c);
    var calls :| c' == RunCalls(cfg, c, calls);
    RunAppend(cfg, Submit(cfg, start, at).value, before, calls);
    assert ReachedBy(cfg, start, at, before + calls, c');
  }

  /** A run still going and without a refused output in which the step has its output. */
  ghost predicate HasOutput(cfg: Config, c: Controller, c': Controller, r: StepRecord) {
    && RunsTo(cfg, c, c') && Rebuild(c'.store).state != WorkflowState.Failed && c'.refused == {}
    && r.stepIndex in c'.store.facts
  }

  /** The promise for one step: in every such run from here all its items have finished. */
  ghost predicate OutputCovers(cfg: Config, c: Controller, r: StepRecord) {
    forall c' :: HasOutput(cfg, c, c', r) ==> StepFinished(cfg, c', r)
  }

  lemma UniformFinishes(cfg: Config, c: Controller, r: StepRecord, c': Controller)
    requires Reaches(cfg, c) && r in c.store.steps && HasOutput(cfg, c, c', r)
    requires cfg.compile(r.stageIndex).Some? && Uniform(cfg.compile(r.stageIndex).value, r.stepIndex)
    ensures StepFinished(cfg, c', r)
  {
    RunsAreReached(cfg, c, c');
    RunKeepsSteps(cfg, c, c');
    OutputMeansFinished(cfg, c', r);
  }

  lemma ReleaseKeepsSteps(c: Controller, done: string, at: int)
    ensures EnqueueReady(c, done, at).0.store.steps == c.store.steps
  {
    RecordMembersFrame(Enqueued(c, ReadyItems(c, done), at).store, ReadyItems(c, done));
  }

  lemma OutputTakenKeepsSteps(cfg: Config, c: Controller, x: Item, skipped: bool, at: int)
    ensures OutputTaken(cfg, c, x, skipped, at).store.steps == c.store.steps
  {
    var s := RecordTerminal(c.store, x.id, if skipped then MemberState.Skipped else MemberState.Completed, "");
    ReleaseKeepsSteps(c.(store := s), x.id, at);
    ActivateNextGrows(cfg, EnqueueReady(c.(store := s), x.id, at).0, x.stageIndex, at);
  }

  lemma WorkCompletedKeepsSteps(cfg: Config, c: Controller, x: Item, attempt: Terminal, at: int)
    ensures WorkCompleted(cfg, c, x, attempt, at).store.steps == c.store.steps
  {
    var s := RecordOutput(c.store, x.id, attempt.outputJson, attempt.outputSha256, cfg.aggregate).0;
    OutputTakenKeepsSteps(cfg, c.(store := s), x, attempt.skipped, at);
  }

  lemma CompleteKeepsSteps(cfg: Config, c: Controller, x: Item, attempt: Terminal, at: int)
    ensures Complete(cfg, c, x, attempt, at).store.steps == c.store.steps
  {
    var c' := if x.id in c.store.running then Finish(c, x.id, attempt) else c;
    ReleaseKeepsSteps(c', x.id, at);
    WorkCompletedKeepsSteps(cfg, c', x, attempt, at);
  }

  lemma NextKeepsSteps(cfg: Config, c: Controller, e: Call)
    ensures Next(cfg, c, e).store.steps == c.store.steps
  {
    match e
    case CompleteCall(x, attempt, at) => CompleteKeepsSteps(cfg, c, x, attempt, at);
    case _ =>
  }

  lemma {:induction false} CallsKeepSteps(cfg: Config, c: Controller, calls: seq<Call>)
    ensures RunCalls(cfg, c, calls).store.steps == c.store.steps
    decreases |calls|
  {
    if calls != [] {
      NextKeepsSteps(cfg, c, calls[0]);
      CallsKeepSteps(cfg, Next(cfg, c, calls[0]), calls[1..]);
    }
  }

  lemma RunKeepsSteps(cfg: Config, c: Controller, c': Controller)
    requires RunsTo(cfg, c, c')
    ensures c'.store.steps == c.store.steps
  {
    var calls :| c' == RunCalls(cfg, c, calls);
    CallsKeepSteps(cfg, c, calls);
  }

  lemma NotUniform(compiled: seq<Compiled>, stepIndex: int) returns (x: Compiled, y: Compiled, d: string)
    requires !Uniform(compiled, stepIndex)
    ensures Uneven(compiled, stepIndex, x, y, d)
  {
    x, y, d :| TrackedOn(compiled, stepIndex, x) && TrackedOn(compiled, stepIndex, y) && IsDeferred(compiled, x) && d in x.dependsOn
      && !Needs(compiled, y.id, d);
  }

  /** The promise holds for a step of any stage just opened if and only if its items wait for the same
      items. */
  lemma OutputCoversIff(cfg: Config, c: Controller, f: int, rank: string -> nat, r: StepRecord)
    requires JustOpened(cfg, c, f) && RankedStage(cfg.compile(f).value, rank) && AcceptsAll(cfg)
    requires r in c.store.steps && r.stageIndex == f
    ensures OutputCovers(cfg, c, r) == Uniform(cfg.compile(f).value, r.stepIndex)
  {
    if Uniform(cfg.compile(f).value, r.stepIndex) {
      UniformCovers(cfg, c, r);
    } else {
      var x, y, d := NotUniform(cfg.compile(f).value, r.stepIndex);
      UnevenBreaks(cfg, c, rank, r, x, y, d);
    }
  }

  lemma UniformCovers(cfg: Config, c: Controller, r: StepRecord)
    requires Reaches(cfg, c) && r in c.store.steps
    requires cfg.compile(r.stageIndex).Some? && Uniform(cfg.compile(r.stageIndex).value, r.stepIndex)
    ensures OutputCovers(cfg, c, r)
  {
    forall c' | HasOutput(cfg, c, c', r)
      ensures StepFinished(cfg, c', r)
    {
      UniformFinishes(cfg, c, r, c');
    }
  }

  lemma UnevenBreaks(cfg: Config, c: Controller, rank: string -> nat, r: StepRecord, x: Compiled, y: Compiled, d: string)
    requires JustOpened(cfg, c, r.stageIndex) && RankedStage(cfg.compile(r.stageIndex).value, rank) && AcceptsAll(cfg)
    requires r in c.store.steps && Uneven(cfg.compile(r.stageIndex).value, r.stepIndex, x, y, d)
    ensures !OutputCovers(cfg, c, r)
  {
    JustOpenedClean(cfg, c, r.stageIndex);
    assert !IsUncompiled(cfg, r);
    var c' := UnevenLeavesItem(cfg, c, rank, r, x, y, d, Terminal(false, false, "{}", "", ""), 0);
    CleanIsNotFailed(c');
    assert HasOutput(cfg, c, c', r) && !EntryFinished(c', r.stageIndex, x);
  }

  // ---------------------------------------------------------------------------------------
  // A plan just submitted

  /** What a submission leaves of the first stage once its empty steps are completed. */
  lemma EmptiesLeaveOpened(cfg: Config, c: Controller, at: int, s: Store)
    requires Submitted(cfg, c, at) && s == RecordEmptySteps(c.store, 0, CompiledSteps(cfg.compile(0).value), cfg.empty).0
    ensures CleanAt(cfg, c.(store := s), 0) && s == c.store.(facts := s.facts)
    ensures forall r :: r in s.steps && r.stageIndex == 0 && r.stepIndex in s.facts ==> IsUncompiled(cfg, r)
  {
    var compiled := CompiledSteps(cfg.compile(0).value);
    EmptiesKeepClean(cfg, c, 0);
    CleanHealthy(c);
    EmptiesRecorded(c.store, 0, compiled, cfg.empty);
    forall r | r in s.steps && r.stageIndex == 0 && r.stepIndex in s.facts
      ensures IsUncompiled(cfg, r)
    {
      EmptyFactsExact(c.store, 0, compiled, cfg.empty, r);
    }
  }

  /** A first stage with items is not complete at once. */
  lemma FirstStageOpen(cfg: Config, c: Controller, at: int)
    requires Submitted(cfg, c, at) && cfg.compile(0).value != []
    ensures !RecordEmptySteps(c.store, 0, CompiledSteps(cfg.compile(0).value), cfg.empty).1
  {
    var (s, all) := RecordEmptySteps(c.store, 0, CompiledSteps(cfg.compile(0).value), cfg.empty);
    EmptiesLeaveOpened(cfg, c, at, s);
    var y := cfg.compile(0).value[0];
    assert y in cfg.compile(0).value && HasStep(c.store.steps, 0, y.stepIndex);
    var r :| r in c.store.steps && r.stageIndex == 0 && r.stepIndex == y.stepIndex;
    assert !IsUncompiled(cfg, r);
    if all {
      SubmittedFlag(cfg, c, at);
    }
  }

  /** The first stage is open once a plan has been submitted, if it has items. */
  lemma SubmittedOutcome(cfg: Config, start: Controller, at: int) returns (c: Controller, s: Store)
    requires IsNew(start) && Setting(cfg, start.store) && Submit(cfg, start, at).Some? && cfg.compile(0).value != []
    ensures Submitted(cfg, c, at) && c.store.running == {} && c.refused == {} && c.store.steps == start.store.steps
    ensures s == RecordEmptySteps(c.store, 0, CompiledSteps(cfg.compile(0).value), cfg.empty).0
    ensures Submit(cfg, start, at).value == c.(store := s)
  {
    FirstStageQueued(cfg, start, at);
    c := Opening(cfg, start, 0, at);
    s := RecordEmptySteps(c.store, 0, CompiledSteps(cfg.compile(0).value), cfg.empty).0;
    FirstStageOpen(cfg, c, at);
  }

  lemma SubmittedJustOpened(cfg: Config, start: Controller, at: int)
    requires IsNew(start) && Setting(cfg, start.store) && Submit(cfg, start, at).Some? && cfg.compile(0).value != []
    requires forall i :: i > 0 && StageKnown(start.store, i) ==> CompilesAnew(cfg, NewItems(cfg, 0, at), i)
    ensures JustOpened(cfg, Submit(cfg, start, at).value, 0)
    ensures Submit(cfg, start, at).value.store.steps == start.store.steps
  {
    var c, s := SubmittedOutcome(cfg, start, at);
    EmptiesLeaveOpened(cfg, c, at, s);
    var c' := c.(store := s);
    CleanIsNotFailed(c');
    forall i | i > 0 && StageKnown(c'.store, i)
      ensures CompilesAnew(cfg, c'.work, i)
    {
      assert StageKnown(start.store, i);
    }
    assert ReachedBy(cfg, start, at, [], c');
    ItemsInWork(cfg, c', at);
  }

  lemma ItemsInWork(cfg: Config, c: Controller, at: int)
    requires cfg.compile(0).Some? && c.work == NewItems(cfg, 0, at)
    ensures StageInWork(cfg, c, 0)
  {
    forall k | 0 <= k < |cfg.compile(0).value|
      ensures InWork(c.work, 0, k)
    {
      assert c.work[k] in c.work;
    }
  }

  lemma SubmitKeepsSteps(cfg: Config, start: Controller, at: int)
    requires Submit(cfg, start, at).Some?
    ensures Submit(cfg, start, at).value.store.steps == start.store.steps
  {
    var items := NewItems(cfg, 0, at);
    var queued := Undeferred(items, Ids(items));
    var c := (if items == [] then Some(start) else QueueItems(start, items, queued, at)).value;
    RecordMembersFrame(c.store, Tracked(queued));
    var s := RecordMembers(c.store, Tracked(queued)).0;
    var s' := RecordEmptySteps(s, 0, CompiledSteps(cfg.compile(0).value), cfg.empty).0;
    ActivateNextGrows(cfg, c.(store := s'), 0, at);
  }

  /** For every plan whose first stage has deferred items that depend on each other without a cycle and
      whose later stages compile to new items, submitted to a controller that refuses no output: in all
      its runs the output of a step of the first stage means that all its items have finished, if and
      only if they all wait for the same items. */
  lemma SubmittedCoversIff(cfg: Config, start: Controller, at: int, rank: string -> nat, r: StepRecord)
    requires IsNew(start) && Setting(cfg, start.store) && Submit(cfg, start, at).Some?
    requires forall i :: i > 0 && StageKnown(start.store, i) ==> CompilesAnew(cfg, NewItems(cfg, 0, at), i)
    requires AcceptsAll(cfg) && RankedStage(cfg.compile(0).value, rank) && r in start.store.steps && r.stageIndex == 0
    ensures OutputCovers(cfg, Submit(cfg, start, at).value, r) == Uniform(cfg.compile(0).value, r.stepIndex)
  {
    var c := Submit(cfg, start, at).value;
    SubmitKeepsSteps(cfg, start, at);
    if cfg.compile(0).value == [] {
      assert ReachedBy(cfg, start, at, [], c);
      UniformCovers(cfg, c, r);
    } else {
      SubmittedJustOpened(cfg, start, at);
      OutputCoversIff(cfg, c, 0, rank, r);
    }
  }
}

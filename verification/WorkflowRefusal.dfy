/** A run in which an output is refused, and a step whose items all wait for the same items, though not
    all of them directly, gets its output before one of them has run. An item whose last dependency was
    refused is passed over; repeating the report of another dependency releases only the items that
    depend on that one directly. */
module WorkflowRefusal {
  import opened Wrappers
  import opened PlanModel
  import opened DependencyStore
  import opened StoreView
  import opened StoreEffects
  import opened WorkflowRun
  import opened WorkflowRunInv
  import opened WorkflowRunRelease
  import opened WorkflowRunStages
  import opened WorkflowRunOpening
  import opened WorkflowRunLaws
  import opened WorkflowRunTheorems
  import opened WorkflowReplay
  import opened WorkflowCover
  import opened WorkflowCoverExact
  import opened WorkflowFirstStage

  // ---------------------------------------------------------------------------------------
  // A refused output and a repeated report

  /** The first stage is the last one opened, and nothing is running. */
  ghost predicate Going(cfg: Config, c: Controller) {
    Reaches(cfg, c) && CleanAt(cfg, c, 0) && Onward(cfg, c, 0, false) && c.store.running == {}
  }

  lemma StillFirst(cfg: Config, c: Controller, r: StepRecord)
    requires Reaches(cfg, c) && AttemptsSound(c.store) && r in c.store.steps && r.stageIndex == 0 && r.stepIndex !in c.store.facts
    ensures CleanAt(cfg, c, 0) && Onward(cfg, c, 0, false)
  {
    ReachableInv(cfg, c);
    CleanIsNotFailed(c);
    var f := RunningIsClean(cfg, c);
    assert f == 0;
  }

  /** The refusal of an output whose step has its output already changes nothing. */
  lemma RefusedInStore(cfg: Config, c: Controller, f: int, x: Item)
    requires Setting(cfg, c.store) && Always(cfg, c) && Clean(c, f, {x.id}, {x.stepIndex})
    requires x in c.work && !x.asset && x.id in c.store.terminal && x.stepIndex in c.store.facts
    ensures RecordTerminal(c.store, x.id, MemberState.Failed, OUTPUT_REFUSED) == c.store
  {
    var r := StepOf(cfg, c, x);
    assert Touched(c.store, x.id);
    CleanHealthy(c);
    CleanUniqueIds(cfg, c);
    assert FactKnown(c.store, r.stepIndex, f);
    RefusalIgnored(c.store, r, MemberOf(x), OUTPUT_REFUSED);
  }

  lemma RefusedHandled(cfg: Config, c: Controller, x: Item, bad: Terminal, at: int, claimed: Controller)
    requires IsClaimed(c, x, claimed) && !x.asset && IsSuccess(bad) && !cfg.resolves(bad.outputJson)
    requires Finish(claimed, x.id, bad) == Claimed(c, x, bad)
    requires RecordTerminal(Claimed(c, x, bad).store, x.id, MemberState.Failed, OUTPUT_REFUSED) == Claimed(c, x, bad).store
    ensures RunsTo(cfg, c, Claimed(c, x, bad).(refused := c.refused + {x.id}))
  {
    ClaimThenComplete(cfg, c, x, bad, at, claimed);
  }

  /** One more item has finished, and its output was refused. */
  ghost predicate RefusedOne(c: Controller, c': Controller, x: Item, bad: Terminal) {
    && c'.work == c.work && c'.store.steps == c.store.steps && c'.store.facts == c.store.facts && c'.store.running == c.store.running
    && c'.store.terminal == c.store.terminal[x.id := bad] && c'.store.queued <= c.store.queued && c'.refused == c.refused + {x.id}
  }

  lemma RefusedRuns(cfg: Config, c: Controller, x: Item, bad: Terminal, at: int) returns (c': Controller)
    requires Live(cfg, c) && CanGo(c, x) && IsSuccess(bad) && !cfg.resolves(bad.outputJson) && x.stepIndex in c.store.facts
    ensures RunsTo(cfg, c, c') && AttemptsSound(c'.store) && RefusedOne(c, c', x, bad)
  {
    ReadyIsQueued(cfg, c, x);
    var claimed := ClaimedAndFinished(cfg, c, 0, x, bad);
    RefusedInStore(cfg, Claimed(c, x, bad), 0, x);
    RefusedHandled(cfg, c, x, bad, at, claimed);
    c' := Claimed(c, x, bad).(refused := c.refused + {x.id});
  }

  /** A queued item completes and its output is refused. */
  lemma OutputRefused(cfg: Config, c: Controller, x: Item, bad: Terminal, at: int, r: StepRecord) returns (c': Controller)
    requires Live(cfg, c) && CanGo(c, x) && IsSuccess(bad) && !cfg.resolves(bad.outputJson) && x.stepIndex in c.store.facts
    requires r in c.store.steps && r.stageIndex == 0 && r.stepIndex !in c.store.facts
    ensures Going(cfg, c') && RefusedOne(c, c', x, bad)
  {
    c' := RefusedRuns(cfg, c, x, bad, at);
    RunsAreReached(cfg, c, c');
    StillFirst(cfg, c', r);
  }

  lemma RepeatedBetween(cfg: Config, c: Controller, x: Item)
    requires CleanAt(cfg, c, 0) && Onward(cfg, c, 0, false) && x in c.work && x.id in c.store.terminal && c.refused != {}
    ensures Between(cfg, c, 0, x, {}, false)
  {
    CleanWeakens(c, 0, x.id, {});
  }

  /** Once the output is taken in again: whoever is ready is released, and no stage is opened. */
  lemma RestReleases(cfg: Config, c1: Controller, x: Item, at: int, r: StepRecord) returns (mid: Controller)
    requires CleanAt(cfg, c1, 0) && Onward(cfg, c1, 0, false) && c1.refused != {}
    requires x in c1.work && x.stageIndex == 0 && x.id in c1.store.terminal
    requires r in c1.store.steps && r.stageIndex == 0 && r.stepIndex !in c1.store.facts
    ensures mid == Rest(cfg, c1, x, at) && CleanAt(cfg, mid, 0) && Onward(cfg, mid, 0, false)
    ensures mid.work == c1.work && mid.refused == c1.refused && mid.store.facts == c1.store.facts && mid.store.steps == c1.store.steps
    ensures mid.store.terminal == c1.store.terminal && mid.store.running == c1.store.running
    ensures mid.store.queued == c1.store.queued + Ids(ReadyItems(c1, x.id))
  {
    RepeatedBetween(cfg, c1, x);
    mid := ReleasedAfter(cfg, c1, 0, x, false, at);
    ReleaseOutcome(cfg, c1, x.id, at);
    StageStaysOpen(cfg, mid, 0, r, false, at);
  }

  /** Repeating a report while a step is open releases whoever is ready and does no more. */
  lemma ReportRepeated(cfg: Config, c: Controller, x: Item, attempt: Terminal, at: int, r: StepRecord) returns (c': Controller)
    requires Going(cfg, c) && c.refused != {} && x in c.work && !x.asset && x.stageIndex == 0 && IsSuccess(attempt)
    requires x.id in c.store.terminal && c.store.terminal[x.id] == attempt && Accepts(cfg, attempt)
    requires r in c.store.steps && r.stageIndex == 0 && r.stepIndex !in c.store.facts
    ensures Going(cfg, c') && c'.work == c.work && c'.refused == c.refused && c'.store.steps == c.store.steps
    ensures c'.store.terminal == c.store.terminal && c'.store.queued == c.store.queued + Ids(ReadyItems(c, x.id))
  {
    AcceptedHere(cfg, c, x, attempt);
    var c1 := ReplayTakesIn(cfg, c, 0, x, attempt, at);
    SameReady(c, c1, x.id);
    c' := RestReleases(cfg, c1, x, at, r);
    RepeatIsCall(cfg, c, x, attempt, at, c');
  }

  lemma RepeatIsCall(cfg: Config, c: Controller, x: Item, attempt: Terminal, at: int, c': Controller)
    requires Reaches(cfg, c) && Complete(cfg, c, x, attempt, at) == c'
    ensures Reaches(cfg, c')
  {
    OneMoreCall(cfg, c, CompleteCall(x, attempt, at));
  }

  lemma AcceptedHere(cfg: Config, c: Controller, x: Item, attempt: Terminal)
    requires CleanAt(cfg, c, 0) && x in c.work && !x.asset && x.id in c.store.terminal && Accepts(cfg, attempt)
    ensures Accepted(cfg, c, x, attempt)
  {
    var r := StepOf(cfg, c, x);
    assert Touched(c.store, x.id);
    CleanHealthy(c);
    CleanUniqueIds(cfg, c);
    OutputAccepted(c.store, r, MemberOf(x), attempt.outputJson, attempt.outputSha256, cfg.aggregate);
  }

  /** Of two items with the same last dependency refused, the repeated report releases the one that
      depends on its item. */
  lemma OneReleased(c: Controller, c': Controller, done: string, x: Item, y: Item)
    requires DistinctIds(c.work) && x in c.work && y in c.work && IsReady(c, done, x) && done !in y.dependsOn
    requires c'.store.queued == c.store.queued + Ids(ReadyItems(c, done)) && y.id !in c.store.queued
    ensures x.id in c'.store.queued && y.id !in c'.store.queued
  {
    var ready := ReadyItems(c, done);
    InIds(ready, x);
    forall z | z in ready
      ensures z.id != y.id
    {
      if z.id == y.id {
        SameId(c.work, y, z);
      }
    }
  }

  /** The last item of the open step runs: the step has its output. */
  lemma StepCloses(cfg: Config, c: Controller, x: Item, y: Item, attempt: Terminal, at: int, r: StepRecord) returns (c': Controller)
    requires Going(cfg, c) && Accepts(cfg, attempt) && IsSuccess(attempt) && !StageKnown(c.store, 1)
    requires x in c.work && x.id in c.store.queued && x.id !in c.store.terminal && OnStep(x, r) && r.stageIndex == 0
    requires (forall z :: z in c.work && OnStep(z, r) ==> z == x || z == y) && !Touched(c.store, y.id) && y.id != x.id
    ensures Reaches(cfg, c') && Rebuild(c'.store).state != WorkflowState.Failed && c'.refused == c.refused
    ensures r.stepIndex in c'.store.facts && y.id !in c'.store.terminal && c'.store.steps == c.store.steps
  {
    OneOfTwo(c, r, x, y);
    c' := TakesIn(cfg, c, 0, x, attempt, at);
    NothingToOpen(cfg, c', 0, at);
    RunsAreReached(cfg, c, c');
    CleanIsNotFailed(c');
  }

  /** Without a further stage there is none to open. */
  lemma NothingToOpen(cfg: Config, c: Controller, i: int, at: int)
    requires !StageKnown(c.store, i + 1)
    ensures ActivateNext(cfg, c, i, at) == c
  {
    StageFound(c.store, i + 1);
  }

  // ---------------------------------------------------------------------------------------
  // The run

  /** One step with an item and one that waits for `b`, the step of `b`, and a step with an item that
      waits for both of these and one that waits for the first. */
  datatype Trio = Trio(
    cfg: Config, steps: seq<StepRecord>, work: seq<Item>, at: int,
    shared: StepRecord, single: StepRecord, late: StepRecord,
    e: Item, a: Item, b: Item, x: Item, y: Item)

  ghost predicate First(p: Trio) {
    && p.shared in p.steps && p.shared.stageIndex == 0
    && p.e in p.work && p.a in p.work && OnStep(p.e, p.shared) && OnStep(p.a, p.shared)
    && (forall z :: z in p.work && OnStep(z, p.shared) ==> z == p.e || z == p.a)
    && p.e.dependsOn == [] && p.a.dependsOn == [p.b.id] && Deferred(p.cfg, p.a)
  }

  ghost predicate Second(p: Trio) {
    && p.single in p.steps && p.single.stageIndex == 0 && p.b in p.work && OnStep(p.b, p.single) && p.b.dependsOn == []
  }

  ghost predicate Third(p: Trio) {
    && p.late in p.steps && p.late.stageIndex == 0 && !(exists r :: r in p.steps && r.stageIndex == 1)
    && p.x in p.work && p.y in p.work && OnStep(p.x, p.late) && OnStep(p.y, p.late)
    && (forall z :: z in p.work && OnStep(z, p.late) ==> z == p.x || z == p.y)
    && p.x.dependsOn == [p.a.id, p.b.id] && p.y.dependsOn == [p.a.id] && Deferred(p.cfg, p.x) && Deferred(p.cfg, p.y)
  }

  ghost predicate Apart(p: Trio) {
    && p.shared.stepIndex != p.late.stepIndex && p.single.stepIndex != p.late.stepIndex && p.shared.stepIndex != p.single.stepIndex
    && p.a.id != p.b.id && p.e.id != p.a.id && p.e.id != p.b.id && p.x.id != p.a.id && p.y.id != p.a.id && p.x.id != p.y.id
  }

  ghost predicate At(p: Trio, c: Controller) {
    c.work == p.work && c.store.steps == p.steps && p.late.stepIndex !in c.store.facts
  }

  /** Neither `a` nor `b` has finished. */
  predicate BothOpen(p: Trio, s: Store) {
    p.a.id !in s.terminal && p.b.id !in s.terminal
  }

  /** `b` has finished, `a` has not. */
  predicate OneOpen(p: Trio, s: Store, ok: Terminal) {
    p.a.id !in s.terminal && p.b.id in s.terminal && s.terminal[p.b.id] == ok
  }

  /** Both have finished. */
  predicate NoneOpen(p: Trio, s: Store, ok: Terminal) {
    p.a.id in s.terminal && !s.terminal[p.a.id].failed && p.b.id in s.terminal && s.terminal[p.b.id] == ok
  }

  /** The item beside the deferred one completes their step. */
  lemma SharedCloses(p: Trio, c: Controller, ok: Terminal) returns (c': Controller)
    requires First(p) && p.late in p.steps && p.late.stageIndex == 0 && p.shared.stepIndex != p.late.stepIndex
    requires p.e.id != p.a.id && p.e.id != p.b.id && p.e.id !in c.store.terminal && BothOpen(p, c.store)
    requires Live(p.cfg, c) && At(p, c) && Accepts(p.cfg, ok) && IsSuccess(ok)
    ensures Live(p.cfg, c') && At(p, c') && p.shared.stepIndex in c'.store.facts && BothOpen(p, c'.store)
  {
    Unreleased(p.cfg, c, p.a, p.b.id);
    OneOfTwo(c, p.shared, p.e, p.a);
    c' := GoesOnBeside(p.cfg, c, p.e, ok, p.at, p.late);
  }

  /** `b` completes. */
  lemma SingleDone(p: Trio, c: Controller, ok: Terminal) returns (c': Controller)
    requires Second(p) && p.late in p.steps && p.late.stageIndex == 0 && p.single.stepIndex != p.late.stepIndex && p.a.id != p.b.id
    requires Live(p.cfg, c) && At(p, c) && Accepts(p.cfg, ok) && IsSuccess(ok) && p.shared.stepIndex in c.store.facts && BothOpen(p, c.store)
    ensures Live(p.cfg, c') && At(p, c') && p.shared.stepIndex in c'.store.facts && OneOpen(p, c'.store, ok)
  {
    c' := GoesOnBeside(p.cfg, c, p.b, ok, p.at, p.late);
  }

  /** The items of the late step have not been released. */
  lemma LateWaits(p: Trio, c: Controller)
    requires Third(p) && Always(p.cfg, c) && MembersSound(c) && c.work == p.work && p.a.id !in c.store.terminal
    ensures !Touched(c.store, p.x.id) && !Touched(c.store, p.y.id)
  {
    Unreleased(p.cfg, c, p.x, p.a.id);
    Unreleased(p.cfg, c, p.y, p.a.id);
  }

  lemma AfterOne(c: Controller, x: Item, d: string)
    requires x.dependsOn == [d] && Succeeds(c.store, d)
    ensures AllSucceed(c.store, x.dependsOn)
  {
  }

  /** The deferred item completes with an output that is refused, and nobody is released by it. */
  lemma DeferredRefused(p: Trio, c: Controller, ok: Terminal, bad: Terminal) returns (c': Controller)
    requires First(p) && p.late in p.steps && p.late.stageIndex == 0 && OneOpen(p, c.store, ok) && !ok.failed
    requires Live(p.cfg, c) && At(p, c) && p.shared.stepIndex in c.store.facts && IsSuccess(bad) && !p.cfg.resolves(bad.outputJson)
    ensures Going(p.cfg, c') && RefusedOne(c, c', p.a, bad)
  {
    AfterOne(c, p.a, p.b.id);
    c' := OutputRefused(p.cfg, c, p.a, bad, p.at, p.late);
  }

  lemma AfterDeferred(p: Trio, c: Controller, c': Controller, ok: Terminal, bad: Terminal)
    requires At(p, c) && c.refused == {} && c.store.running == {} && OneOpen(p, c.store, ok) && RefusedOne(c, c', p.a, bad) && !bad.failed
    requires Apart(p) && !Touched(c.store, p.x.id) && !Touched(c.store, p.y.id)
    ensures At(p, c') && c'.refused == {p.a.id} && NoneOpen(p, c'.store, ok)
    ensures !Touched(c'.store, p.x.id) && !Touched(c'.store, p.y.id)
  {
  }

  /** What the refusal leaves: the first of the late items is ready, and neither has been queued. */
  lemma LateReady(p: Trio, c: Controller, ok: Terminal)
    requires Third(p) && p.a.id != p.b.id && NoneOpen(p, c.store, ok) && !ok.failed
    requires !Touched(c.store, p.x.id)
    ensures IsReady(c, p.b.id, p.x) && p.b.id !in p.y.dependsOn
  {
    assert Succeeds(c.store, p.a.id) && Succeeds(c.store, p.b.id);
  }

  /** The report of `b` is repeated, and releases one of the late items. */
  lemma OneLateReleased(p: Trio, c: Controller, ok: Terminal) returns (c': Controller)
    requires Second(p) && Third(p) && p.a.id != p.b.id && Going(p.cfg, c) && At(p, c) && c.refused == {p.a.id}
    requires Accepts(p.cfg, ok) && IsSuccess(ok) && NoneOpen(p, c.store, ok)
    requires !Touched(c.store, p.x.id) && !Touched(c.store, p.y.id)
    ensures Going(p.cfg, c') && c'.work == p.work && c'.store.steps == p.steps && c'.refused == {p.a.id}
    ensures p.x.id in c'.store.queued && p.x.id !in c'.store.terminal && !Touched(c'.store, p.y.id)
  {
    LateReady(p, c, ok);
    c' := ReportRepeated(p.cfg, c, p.b, ok, p.at, p.late);
    OneReleased(c, c', p.b.id, p.x, p.y);
  }

  /** The late step has its output, and its second item has not run. */
  ghost predicate LeftOut(p: Trio, c: Controller) {
    && Reaches(p.cfg, c) && Rebuild(c.store).state != WorkflowState.Failed && c.refused == {p.a.id}
    && p.late.stepIndex in c.store.facts && p.y.id !in c.store.terminal && c.store.steps == p.steps
  }

  /** The late item released completes its step. */
  lemma LateCloses(p: Trio, c: Controller, ok: Terminal) returns (c': Controller)
    requires Third(p) && p.x.id != p.y.id && Going(p.cfg, c) && Accepts(p.cfg, ok) && IsSuccess(ok)
    requires c.work == p.work && c.store.steps == p.steps && c.refused == {p.a.id}
    requires p.x.id in c.store.queued && p.x.id !in c.store.terminal && !Touched(c.store, p.y.id)
    ensures LeftOut(p, c')
  {
    c' := StepCloses(p.cfg, c, p.x, p.y, ok, p.at, p.late);
  }

  /** From the repeated report on. */
  lemma AfterRefusal(p: Trio, c: Controller, ok: Terminal) returns (c': Controller)
    requires Second(p) && Third(p) && Apart(p) && Going(p.cfg, c) && At(p, c) && c.refused == {p.a.id}
    requires Accepts(p.cfg, ok) && IsSuccess(ok) && NoneOpen(p, c.store, ok)
    requires !Touched(c.store, p.x.id) && !Touched(c.store, p.y.id)
    ensures LeftOut(p, c')
  {
    var released := OneLateReleased(p, c, ok);
    c' := LateCloses(p, released, ok);
  }

  /** From the refusal on. */
  lemma FromRefusal(p: Trio, c: Controller, ok: Terminal, bad: Terminal) returns (c': Controller)
    requires First(p) && Second(p) && Third(p) && Apart(p) && Accepts(p.cfg, ok) && IsSuccess(ok)
    requires IsSuccess(bad) && !p.cfg.resolves(bad.outputJson)
    requires Live(p.cfg, c) && At(p, c) && p.shared.stepIndex in c.store.facts && OneOpen(p, c.store, ok)
    ensures LeftOut(p, c')
  {
    LateWaits(p, c);
    var refused := DeferredRefused(p, c, ok, bad);
    AfterDeferred(p, c, refused, ok, bad);
    c' := AfterRefusal(p, refused, ok);
  }

  /** From the submission on. */
  lemma FromStart(p: Trio, c: Controller, ok: Terminal) returns (c': Controller)
    requires First(p) && Second(p) && Apart(p) && p.late in p.steps && p.late.stageIndex == 0 && Accepts(p.cfg, ok) && IsSuccess(ok)
    requires Live(p.cfg, c) && At(p, c) && c.store.terminal == map[]
    ensures Live(p.cfg, c') && At(p, c') && p.shared.stepIndex in c'.store.facts && OneOpen(p, c'.store, ok)
  {
    var shared := SharedCloses(p, c, ok);
    c' := SingleDone(p, shared, ok);
  }

  lemma Opens(p: Trio, start: Controller) returns (c: Controller)
    requires IsNew(start) && Setting(p.cfg, start.store) && start.store.steps == p.steps && p.cfg.compile(0).Some?
    requires NewItems(p.cfg, 0, p.at) == p.work && DistinctIds(p.work) && p.work != [] && p.late in p.steps && p.late.stageIndex == 0
    requires forall q :: q in p.steps && q.stageIndex == 0 ==> q.stepIndex in CompiledSteps(p.cfg.compile(0).value)
    ensures Live(p.cfg, c) && At(p, c) && c.store.terminal == map[]
  {
    c := SubmittedOpen(p.cfg, start, p.at, p.late);
  }

  /** Such a plan has a run in which the late step gets its output and its second item has not run. */
  lemma LateItemPassedOver(p: Trio, start: Controller, ok: Terminal, bad: Terminal) returns (c: Controller)
    requires First(p) && Second(p) && Third(p) && Apart(p) && Accepts(p.cfg, ok) && IsSuccess(ok)
    requires IsSuccess(bad) && !p.cfg.resolves(bad.outputJson)
    requires IsNew(start) && Setting(p.cfg, start.store) && start.store.steps == p.steps && p.cfg.compile(0).Some?
    requires NewItems(p.cfg, 0, p.at) == p.work && DistinctIds(p.work)
    requires forall q :: q in p.steps && q.stageIndex == 0 ==> q.stepIndex in CompiledSteps(p.cfg.compile(0).value)
    ensures LeftOut(p, c) && !StepFinished(p.cfg, c, p.late)
  {
    var opening := Opens(p, start);
    var middle := FromStart(p, opening, ok);
    c := FromRefusal(p, middle, ok, bad);
    RecordsCompiled(p.cfg, 0, p.at, p.y);
    Unfinished(p.cfg, c, p.late, p.y);
  }

  // ---------------------------------------------------------------------------------------
  // The plan in full

  const SHARED := StepRecord(0, 0, "shared", "")
  const SINGLE := StepRecord(0, 1, "single", "shared")
  const LATE := StepRecord(0, 2, "late", "shared")

  const E := Item("e", 0, 0, 0, [], false, 7)
  const A := Item("a", 0, 0, 1, ["b"], false, 7)
  const B := Item("b", 0, 1, 2, [], false, 7)
  const X := Item("x", 0, 2, 3, ["a", "b"], false, 7)
  const Y := Item("y", 0, 2, 4, ["a"], false, 7)

  const COMPILED := [Compiled("e", 0, [], false), Compiled("a", 0, ["b"], false), Compiled("b", 1, [], false),
                     Compiled("x", 2, ["a", "b"], false), Compiled("y", 2, ["a"], false)]

  const RESULT := Output("[]", "digest", 2, false)

  const CONFIG := Config(
    (i: int) => if i == 0 then Some(COMPILED) else None, (step: Step) => Some(RESULT), (text: string) => text == "{}", RESULT)

  const PLAN := Trio(CONFIG, [SHARED, SINGLE, LATE], [E, A, B, X, Y], 7, SHARED, SINGLE, LATE, E, A, B, X, Y)

  const START := Controller(Store("run", "workflow", PLAN.steps, [], {}, {}, map[], map[], None), [], map[], [], {})

  lemma StartSetting()
    ensures IsNew(START) && Setting(CONFIG, START.store)
  {
    var s := START.store;
    assert SHARED in s.steps && SINGLE in s.steps && LATE in s.steps;
    assert StageKnown(s, 0);
    forall i | CONFIG.compile(i).Some?
      ensures SoundStage(s.steps, i, CONFIG.compile(i).value)
    {
    }
  }

  lemma PlanItems()
    ensures NewItems(CONFIG, 0, 7) == PLAN.work && DistinctIds(PLAN.work)
    ensures forall q :: q in PLAN.steps && q.stageIndex == 0 ==> q.stepIndex in CompiledSteps(COMPILED)
  {
    assert COMPILED[0] in COMPILED && COMPILED[2] in COMPILED && COMPILED[3] in COMPILED;
  }

  /** The ids that items wait for are those of items of the stage. */
  lemma PlanDeferred()
    ensures Deferred(CONFIG, A) && Deferred(CONFIG, X) && Deferred(CONFIG, Y)
  {
    assert COMPILED[1] in COMPILED && COMPILED[2] in COMPILED;
    assert A.dependsOn[0] == "b" && X.dependsOn[0] == "a" && Y.dependsOn[0] == "a";
  }

  lemma PlanFits()
    ensures First(PLAN) && Second(PLAN) && Third(PLAN) && Apart(PLAN)
  {
    PlanDeferred();
    assert SHARED in PLAN.steps && SINGLE in PLAN.steps && LATE in PLAN.steps;
    assert E in PLAN.work && A in PLAN.work && B in PLAN.work && X in PLAN.work && Y in PLAN.work;
  }

  /** Two items that wait for the same ones, one of them through another item. */
  lemma UniformPair(compiled: seq<Compiled>, stepIndex: int, x: Compiled, y: Compiled, z: Compiled, b: string)
    requires x in compiled && y in compiled && z in compiled && IsDeferred(compiled, x) && IsDeferred(compiled, y) && IsDeferred(compiled, z)
    requires x.dependsOn == [z.id, b] && y.dependsOn == [z.id] && z.dependsOn == [b]
    requires forall w :: TrackedOn(compiled, stepIndex, w) ==> w == x || w == y
    ensures Uniform(compiled, stepIndex)
  {
    assert z.id in x.dependsOn && b in x.dependsOn && z.id in y.dependsOn && b in z.dependsOn;
    NeedsThrough(compiled, x, z.id, z.id);
    NeedsThrough(compiled, x, b, b);
    NeedsThrough(compiled, y, z.id, z.id);
    NeedsThrough(compiled, z, b, b);
    NeedsThrough(compiled, y, z.id, b);
  }

  lemma PlanUniform()
    ensures Uniform(COMPILED, 2)
  {
    PlanDeferred();
    assert COMPILED[1] in COMPILED && COMPILED[3] in COMPILED && COMPILED[4] in COMPILED;
    UniformPair(COMPILED, 2, COMPILED[3], COMPILED[4], COMPILED[1], "b");
  }

  /** With a refused output the output of a step does not mean that its items have finished, although
      they all wait for the same items: this run has not failed. */
  lemma UniformIsNotEnough() returns (c: Controller)
    ensures Reaches(CONFIG, c) && Rebuild(c.store).state != WorkflowState.Failed && c.refused == {"a"}
    ensures Uniform(COMPILED, 2) && LATE in c.store.steps && 2 in c.store.facts && !StepFinished(CONFIG, c, LATE)
  {
    StartSetting();
    PlanItems();
    PlanFits();
    PlanUniform();
    c := LateItemPassedOver(PLAN, START, Terminal(false, false, "{}", "digest", ""), Terminal(false, false, "[]", "digest", ""));
  }
}

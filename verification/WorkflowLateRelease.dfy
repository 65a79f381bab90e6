/** Workflow runs in which a stage is completed, and the next one opened, before all its items have
    run. The first stage fetches two inputs and commits each of them as soon as it is there; the
    commit step gets its output from the first commit, because the second has not been released. */
module WorkflowLateRelease {
  import opened Wrappers
  import opened PlanModel
  import opened DependencyStore
  import opened StoreView
  import opened WorkflowRun
  import opened WorkflowRunInv
  import opened WorkflowRunStages
  import opened WorkflowRunOpening
  import opened WorkflowRunLaws
  import opened WorkflowRunTheorems
  import opened WorkflowCover
  import opened WorkflowCoverExact
  import opened WorkflowFirstStage

  // ---------------------------------------------------------------------------------------
  // The state of the run once the second stage is open

  lemma SecondStates(cfg: Config, c: Controller, r: StepRecord, d: Item)
    requires CleanAt(cfg, c, 1) && StageKnown(c.store, 0) && Settled(c.store, 0)
    requires r in c.store.steps && r.stageIndex == 1 && OnStep(d, r) && MemberOf(d) in c.store.members
    ensures StageIs(c.store, 0, Progress.Completed) && !StageIs(c.store, 1, Blocked)
    ensures Rebuild(c.store).state != WorkflowState.Failed
  {
    CleanHealthy(c);
    CleanIsNotFailed(c);
    assert Matches(MemberOf(d), r);
    assert Begun(c.store, r);
    assert StageKnown(c.store, 1);
    StageFound(c.store, 0);
    StageFound(c.store, 1);
    StageStates(c.store, 0);
    StageStates(c.store, 1);
    assert StageDone(c.store, 0);
  }

  /** The new item of the second stage is queued and recorded. */
  lemma NewQueued(cfg: Config, c: Controller, at: int, c': Controller, d: Item)
    requires Always(cfg, c) && NewStage(cfg, c.work, 1, at) && c' == Opening(cfg, c, 1, at) && CleanAt(cfg, c', 1)
    requires c.refused == {} && c.store.running == {} && d in NewItems(cfg, 1, at) && d.dependsOn == [] && !d.asset
    ensures d in c'.work && d.id in c'.store.queued && MemberOf(d) in c'.store.members
  {
    NewUntouched(cfg, c, 1, at, d);
    ReadyIsQueued(cfg, c', d);
    assert Touched(c'.store, d.id);
  }

  /** The first stage is completed and the second one open with its item queued, while an item tracked
      by the first stage is still queued. */
  ghost predicate LeftBehind(c: Controller, z: Item, d: Item) {
    && Rebuild(c.store).state == WorkflowState.Running && c.refused == {}
    && StageIs(c.store, 0, Progress.Completed) && !StageIs(c.store, 1, Blocked) && d in c.work && d.id in c.store.queued
    && z in c.work && !z.asset && z.stageIndex == 0 && z.id in c.store.queued && z.id !in c.store.terminal
  }

  lemma Leaves(cfg: Config, c: Controller, at: int, c': Controller, z: Item, r: StepRecord, d: Item)
    requires CleanAt(cfg, c, 0) && c.refused == {} && c.store.running == {} && CanGo(c, z) && Settled(c.store, 0) && CanOpen(cfg, c, at)
    requires r in c.store.steps && r.stageIndex == 1 && OnStep(d, r) && d in NewItems(cfg, 1, at) && d.dependsOn == []
    requires c' == Opening(cfg, c, 1, at) && CleanAt(cfg, c', 1)
    ensures LeftBehind(c', z, d)
  {
    ReadyIsQueued(cfg, c, z);
    NewQueued(cfg, c, at, c', d);
    SecondStates(cfg, c', r, d);
    NewUntouched(cfg, c, 1, at, d);
    StillRunning(cfg, c, c', r, d);
  }

  /** The step of the new item is not done, so the plan is not completed. */
  lemma StillRunning(cfg: Config, c: Controller, c': Controller, r: StepRecord, d: Item)
    requires CleanAt(cfg, c, 0) && CleanAt(cfg, c', 1) && c'.store.facts == c.store.facts && c'.store.steps == c.store.steps
    requires r in c.store.steps && r.stageIndex == 1 && OnStep(d, r) && MemberOf(d) in c'.store.members && d.id !in c'.store.terminal
    ensures Rebuild(c'.store).state == WorkflowState.Running
  {
    assert r.stepIndex in c.store.facts ==> FactKnown(c.store, r.stepIndex, 0);
    assert Matches(MemberOf(d), r) && !AllTerminal(c'.store, r);
    CleanHealthy(c');
    HealthyPlanState(c'.store);
    if Rebuild(c'.store).state == WorkflowState.Completed {
      CompletedStepDone(c'.store, r);
    }
  }

  // ---------------------------------------------------------------------------------------
  // Two fetches with a commit each

  /** The first stage has two items on a step and a commit of each on another step; the second stage
      has one item. */
  datatype Pairs = Pairs(
    cfg: Config, steps: seq<StepRecord>, work: seq<Item>, at: int,
    fetch: StepRecord, commit: StepRecord, report: StepRecord,
    a1: Item, a2: Item, c1: Item, c2: Item, d1: Item)

  ghost predicate Fetches(p: Pairs) {
    && p.fetch in p.steps && p.fetch.stageIndex == 0 && p.cfg.compile(0).Some?
    && NoneDeferred(p.cfg.compile(0).value, p.fetch.stepIndex)
    && p.a1 in p.work && p.a2 in p.work && OnStep(p.a1, p.fetch) && OnStep(p.a2, p.fetch)
    && (forall z :: z in p.work && OnStep(z, p.fetch) ==> z == p.a1 || z == p.a2)
    && p.a1.dependsOn == [] && p.a2.dependsOn == [] && p.a1.id != p.a2.id
  }

  ghost predicate Commits(p: Pairs) {
    && p.commit in p.steps && p.commit.stageIndex == 0 && p.commit.stepIndex != p.fetch.stepIndex
    && p.c1 in p.work && p.c2 in p.work && OnStep(p.c1, p.commit) && OnStep(p.c2, p.commit)
    && (forall z :: z in p.work && OnStep(z, p.commit) ==> z == p.c1 || z == p.c2)
    && p.c1.dependsOn == [p.a1.id] && p.c2.dependsOn == [p.a2.id] && Deferred(p.cfg, p.c2)
    && p.c1.id != p.a1.id && p.c1.id != p.a2.id && p.c2.id !in {p.a1.id, p.a2.id, p.c1.id}
    && (forall r :: r in p.steps && r.stageIndex == 0 ==> r == p.fetch || r == p.commit)
  }

  ghost predicate Reports(p: Pairs) {
    && NewStage(p.cfg, p.work, 1, p.at) && p.report in p.steps && p.report.stageIndex == 1
    && (forall r :: r in p.steps && r.stageIndex == 1 ==> r.stepIndex in CompiledSteps(p.cfg.compile(1).value))
    && p.d1 in NewItems(p.cfg, 1, p.at) && OnStep(p.d1, p.report) && p.d1.dependsOn == []
  }

  /** The first stage is open, and this is what has finished. */
  ghost predicate At(p: Pairs, c: Controller, terminal: map<string, Terminal>) {
    Live(p.cfg, c) && c.work == p.work && c.store.steps == p.steps && c.store.terminal == terminal
  }

  lemma FirstFetched(p: Pairs, c: Controller, attempt: Terminal) returns (c': Controller)
    requires Fetches(p) && At(p, c, map[]) && AcceptsAll(p.cfg) && IsSuccess(attempt)
    ensures At(p, c', map[p.a1.id := attempt])
  {
    c' := GoesOn(p.cfg, c, p.a1, attempt, p.at, p.fetch, p.a2);
  }

  /** Of two commits on a step only the first can have been released. */
  predicate FirstOfTwo(cfg: Config, c: Controller, r: StepRecord, x: Item, y: Item, d: string) {
    && OnStep(x, r) && OnStep(y, r) && (forall z :: z in c.work && OnStep(z, r) ==> z == x || z == y)
    && y in c.work && Deferred(cfg, y) && y.dependsOn == [d] && d !in c.store.terminal
  }

  lemma CommitIsLast(cfg: Config, c: Controller, r: StepRecord, x: Item, y: Item, d: string)
    requires FirstOfTwo(cfg, c, r, x, y, d) && Always(cfg, c) && MembersSound(c)
    ensures LastOnStep(c.store, x) && MemberOf(y) !in c.store.members
  {
    Unreleased(cfg, c, y, d);
    OneOfTwo(c, r, x, y);
  }

  /** The first commit finishes while the second fetch is outstanding. */
  lemma CommitGoes(cfg: Config, c: Controller, r: StepRecord, x: Item, y: Item, attempt: Terminal, at: int, fetch: StepRecord, z: Item)
      returns (c': Controller)
    requires Live(cfg, c) && CanGo(c, x) && Outstanding(cfg, c, fetch, z) && z.id != x.id && AcceptsAll(cfg) && IsSuccess(attempt)
    requires FirstOfTwo(cfg, c, r, x, y, z.id)
    ensures Live(cfg, c') && TakenIn(c, c', x, attempt)
    ensures r.stepIndex in c'.store.facts && MemberOf(y) !in c'.store.members
  {
    CommitIsLast(cfg, c, r, x, y, z.id);
    c' := GoesOn(cfg, c, x, attempt, at, fetch, z);
    CommitIsLast(cfg, c', r, x, y, z.id);
  }

  /** The commit step has its output, and the second commit no membership. */
  ghost predicate Committed(p: Pairs, c: Controller) {
    p.commit.stepIndex in c.store.facts && MemberOf(p.c2) !in c.store.members
  }

  lemma CommitReady(p: Pairs, c: Controller, attempt: Terminal)
    requires Fetches(p) && Commits(p) && c.work == p.work && c.store.steps == p.steps
    requires c.store.terminal == map[p.a1.id := attempt] && !attempt.failed
    ensures CanGo(c, p.c1) && FirstOfTwo(p.cfg, c, p.commit, p.c1, p.c2, p.a2.id) && Outstanding(p.cfg, c, p.fetch, p.a2)
  {
    assert Succeeds(c.store, p.a1.id);
  }

  lemma FirstCommitted(p: Pairs, c: Controller, attempt: Terminal) returns (c': Controller)
    requires Fetches(p) && Commits(p) && At(p, c, map[p.a1.id := attempt]) && AcceptsAll(p.cfg) && IsSuccess(attempt)
    ensures At(p, c', map[p.a1.id := attempt][p.c1.id := attempt]) && Committed(p, c')
  {
    CommitReady(p, c, attempt);
    c' := CommitGoes(p.cfg, c, p.commit, p.c1, p.c2, attempt, p.at, p.fetch, p.a2);
  }

  predicate SameFact(before: Controller, c: Controller, k: int) {
    k in before.store.facts && k in c.store.facts && c.store.facts[k] == before.store.facts[k]
  }

  /** The second fetch finishes: both steps have their output. */
  lemma SecondFetched(cfg: Config, c: Controller, r: StepRecord, x: Item, y: Item, attempt: Terminal, at: int, commit: StepRecord)
      returns (mid: Controller)
    requires Live(cfg, c) && CanGo(c, x) && AcceptsAll(cfg) && IsSuccess(attempt)
    requires OnStep(x, r) && (forall z :: z in c.work && OnStep(z, r) ==> z == x || z == y) && y.id in c.store.terminal
    requires (forall q :: q in c.store.steps && q.stageIndex == 0 ==> q == r || q == commit) && commit.stepIndex in c.store.facts
    ensures RunsTo(cfg, c, ActivateNext(cfg, mid, 0, at))
    ensures CleanAt(cfg, mid, 0) && TakenIn(c, mid, x, attempt) && Settled(mid.store, 0)
  {
    OneOfTwo(c, r, x, y);
    mid := ItemFinishes(cfg, c, x, attempt, at);
    BothSettled(c, mid, r, x, attempt, commit);
  }

  lemma BothSettled(c: Controller, mid: Controller, r: StepRecord, x: Item, attempt: Terminal, commit: StepRecord)
    requires TakenIn(c, mid, x, attempt) && OnStep(x, r) && x.stepIndex in mid.store.facts && commit.stepIndex in c.store.facts
    requires forall q :: q in c.store.steps && q.stageIndex == 0 ==> q == r || q == commit
    ensures Settled(mid.store, 0)
  {
  }

  lemma ThenOpens(p: Pairs, c: Controller)
    requires Fetches(p) && Reports(p) && c.work == p.work && c.store.steps == p.steps
    ensures CanOpen(p.cfg, c, p.at)
  {
  }

  lemma SecondReady(p: Pairs, c: Controller, attempt: Terminal)
    requires Fetches(p) && Commits(p) && c.work == p.work && c.store.steps == p.steps
    requires c.store.terminal == map[p.a1.id := attempt][p.c1.id := attempt]
    ensures CanGo(c, p.a2) && p.a1.id in c.store.terminal
    ensures forall z :: z in c.work && OnStep(z, p.fetch) ==> z == p.a2 || z == p.a1
    ensures forall q :: q in c.store.steps && q.stageIndex == 0 ==> q == p.fetch || q == p.commit
  {
  }

  lemma SecondReleased(p: Pairs, c: Controller, mid: Controller, attempt: Terminal)
    requires Fetches(p) && Commits(p) && c.work == p.work && TakenIn(c, mid, p.a2, attempt) && !attempt.failed
    requires c.store.terminal == map[p.a1.id := attempt][p.c1.id := attempt] && p.commit.stepIndex in c.store.facts
    ensures CanGo(mid, p.c2) && SameFact(c, mid, p.commit.stepIndex)
  {
    assert Succeeds(mid.store, p.a2.id);
  }

  /** That completes the stage, while the second commit is only just released. */
  lemma StageLeaves(cfg: Config, c: Controller, at: int, z: Item, r: StepRecord, d: Item) returns (c': Controller)
    requires CleanAt(cfg, c, 0) && c.refused == {} && c.store.running == {} && CanGo(c, z) && Settled(c.store, 0) && CanOpen(cfg, c, at)
    requires r in c.store.steps && r.stageIndex == 1 && OnStep(d, r) && d in NewItems(cfg, 1, at) && d.dependsOn == []
    ensures c' == ActivateNext(cfg, c, 0, at) && LeftBehind(c', z, d) && c'.store.facts == c.store.facts
  {
    c' := SecondOpens(cfg, c, at);
    Leaves(cfg, c, at, c', z, r, d);
  }

  lemma SecondLeft(p: Pairs, c: Controller, attempt: Terminal) returns (c': Controller)
    requires Fetches(p) && Commits(p) && Reports(p)
    requires At(p, c, map[p.a1.id := attempt][p.c1.id := attempt]) && Committed(p, c)
    requires AcceptsAll(p.cfg) && IsSuccess(attempt)
    ensures Reaches(p.cfg, c') && LeftBehind(c', p.c2, p.d1) && SameFact(c, c', p.commit.stepIndex)
  {
    SecondReady(p, c, attempt);
    var mid := SecondFetched(p.cfg, c, p.fetch, p.a2, p.a1, attempt, p.at, p.commit);
    ThenOpens(p, mid);
    SecondReleased(p, c, mid, attempt);
    c' := StageLeaves(p.cfg, mid, p.at, p.c2, p.report, p.d1);
    RunsAreReached(p.cfg, c, c');
  }

  /** Such a plan has a run in which the commit step gets its output before the second commit gets a
      membership, and keeps it while the second stage is opened. */
  lemma StageCompletedWithoutItem(p: Pairs, start: Controller, attempt: Terminal) returns (before: Controller, c: Controller)
    requires Fetches(p) && Commits(p) && Reports(p) && AcceptsAll(p.cfg) && IsSuccess(attempt)
    requires IsNew(start) && Setting(p.cfg, start.store) && start.store.steps == p.steps
    requires NewItems(p.cfg, 0, p.at) == p.work && DistinctIds(p.work)
    ensures Reaches(p.cfg, before) && Committed(p, before)
    ensures Reaches(p.cfg, c) && LeftBehind(c, p.c2, p.d1) && SameFact(before, c, p.commit.stepIndex)
    ensures !StepFinished(p.cfg, c, p.commit)
  {
    var c0 := SubmittedAt(p, start);
    var c1 := FirstFetched(p, c0, attempt);
    before := FirstCommitted(p, c1, attempt);
    c := SecondLeft(p, before, attempt);
    RecordsCompiled(p.cfg, 0, p.at, p.c2);
    Unfinished(p.cfg, c, p.commit, p.c2);
  }

  // ---------------------------------------------------------------------------------------
  // Submission

  lemma FirstStepsCompiled(p: Pairs, r: StepRecord)
    requires Fetches(p) && Commits(p) && NewItems(p.cfg, 0, p.at) == p.work && r in p.steps && r.stageIndex == 0
    ensures r.stepIndex in CompiledSteps(p.cfg.compile(0).value)
  {
    var x := if r == p.fetch then p.a1 else p.c1;
    RecordsCompiled(p.cfg, 0, p.at, x);
    assert p.cfg.compile(0).value[x.index] in p.cfg.compile(0).value;
  }

  lemma SubmittedAt(p: Pairs, start: Controller) returns (c: Controller)
    requires Fetches(p) && Commits(p)
    requires IsNew(start) && Setting(p.cfg, start.store) && start.store.steps == p.steps
    requires NewItems(p.cfg, 0, p.at) == p.work && DistinctIds(p.work)
    ensures At(p, c, map[])
  {
    forall r | r in p.steps && r.stageIndex == 0
      ensures r.stepIndex in CompiledSteps(p.cfg.compile(0).value)
    {
      FirstStepsCompiled(p, r);
    }
    c := SubmittedOpen(p.cfg, start, p.at, p.fetch);
  }

  // ---------------------------------------------------------------------------------------
  // The plan in full

  const FETCH := StepRecord(0, 0, "fetch", "")
  const COMMIT := StepRecord(0, 1, "commit", "fetch")
  const REPORT := StepRecord(1, 2, "report", "")

  const A1 := Item("a1", 0, 0, 0, [], false, 7)
  const A2 := Item("a2", 0, 0, 1, [], false, 7)
  const C1 := Item("c1", 0, 1, 2, ["a1"], false, 7)
  const C2 := Item("c2", 0, 1, 3, ["a2"], false, 7)
  const D1 := Item("d1", 1, 2, 0, [], false, 7)

  const RESULT := Output("[]", "digest", 2, false)

  const FETCHED := [Compiled("a1", 0, [], false), Compiled("a2", 0, [], false),
                    Compiled("c1", 1, ["a1"], false), Compiled("c2", 1, ["a2"], false)]

  const REPORTED := [Compiled("d1", 2, [], false)]

  function Compile(stageIndex: int): Option<seq<Compiled>> {
    if stageIndex == 0 then Some(FETCHED) else if stageIndex == 1 then Some(REPORTED) else None
  }

  const CONFIG := Config(Compile, (step: Step) => Some(RESULT), (text: string) => true, RESULT)

  const PLAN := Pairs(CONFIG, [FETCH, COMMIT, REPORT], [A1, A2, C1, C2], 7, FETCH, COMMIT, REPORT, A1, A2, C1, C2, D1)

  const START := Controller(Store("run", "workflow", PLAN.steps, [], {}, {}, map[], map[], None), [], map[], [], {})

  lemma StartSetting()
    ensures IsNew(START) && Setting(CONFIG, START.store) && AcceptsAll(CONFIG)
  {
    var s := START.store;
    assert FETCH in s.steps && COMMIT in s.steps && REPORT in s.steps;
    assert StageKnown(s, 0);
    forall i | Compile(i).Some?
      ensures SoundStage(s.steps, i, Compile(i).value)
    {
    }
  }

  lemma PlanItems()
    ensures NewItems(CONFIG, 0, 7) == [A1, A2, C1, C2] && NewItems(CONFIG, 1, 7) == [D1]
    ensures DistinctIds([A1, A2, C1, C2])
  {
  }

  lemma PlanFetches()
    ensures Fetches(PLAN)
  {
    assert FETCH in PLAN.steps && A1 in PLAN.work && A2 in PLAN.work;
  }

  lemma PlanCommits()
    ensures Commits(PLAN)
  {
    assert COMMIT in PLAN.steps && C1 in PLAN.work && C2 in PLAN.work;
    assert FETCHED[1] in FETCHED && C2.dependsOn[0] == "a2";
  }

  lemma PlanReports()
    ensures Reports(PLAN)
  {
    PlanItems();
    assert REPORT in PLAN.steps && REPORTED[0] in REPORTED && D1 in [D1];
    assert "d1" !in Ids(PLAN.work);
  }

  /** In a reachable run still going in which no output was refused, the first stage is
      completed and the item of the second one queued, while the second commit is still queued. The
      output of the commit step was recorded before the second commit had a membership. */
  lemma StageCompletedEarly() returns (before: Controller, c: Controller)
    ensures Reaches(CONFIG, before) && Committed(PLAN, before)
    ensures Reaches(CONFIG, c) && LeftBehind(c, C2, D1) && SameFact(before, c, 1) && !StepFinished(CONFIG, c, COMMIT)
  {
    StartSetting();
    PlanItems();
    PlanFetches();
    PlanCommits();
    PlanReports();
    before, c := StageCompletedWithoutItem(PLAN, START, Terminal(false, false, "{}", "digest", ""));
  }

  /** An item whose one dependency waits for nothing needs nothing else. */
  lemma NeedsOnlyOne(compiled: seq<Compiled>, id: string, d: string, other: string)
    requires forall z :: z in compiled && z.id == id ==> z.dependsOn == [d]
    requires forall z :: z in compiled && z.id == d ==> z.dependsOn == []
    requires Needs(compiled, id, other)
    ensures other == d
  {
    var path :| Chain(compiled, path) && path[0] == id && path[|path| - 1] == other;
    assert Link(compiled, path[0], path[1]);
    assert |path| > 2 ==> Link(compiled, path[1], path[2]);
    NoLink(compiled, d);
  }

  lemma NoLink(compiled: seq<Compiled>, d: string)
    requires forall z :: z in compiled && z.id == d ==> z.dependsOn == []
    ensures forall e :: !Link(compiled, d, e)
  {
  }

  lemma PlanUneven()
    ensures !Uniform(FETCHED, 1)
  {
    var x, y := FETCHED[2], FETCHED[3];
    assert FETCHED[0] in FETCHED && TrackedOn(FETCHED, 1, x) && TrackedOn(FETCHED, 1, y);
    assert x.dependsOn[0] == "a1" && "a1" in x.dependsOn && IsDeferred(FETCHED, x);
    if Needs(FETCHED, y.id, "a1") {
      NeedsOnlyOne(FETCHED, y.id, "a2", "a1");
    }
  }

  lemma PlanRanked()
    ensures RankedStage(FETCHED, (id: string) => if id == "c1" || id == "c2" then 1 else 0)
  {
    assert FETCHED[0] in FETCHED && FETCHED[1] in FETCHED;
  }

  /** A submission with an uneven step in its first stage. */
  lemma UnevenSubmission(cfg: Config, start: Controller, at: int, rank: string -> nat, r: StepRecord)
    requires IsNew(start) && Setting(cfg, start.store) && cfg.compile(0).Some? && DistinctIds(NewItems(cfg, 0, at)) && NewItems(cfg, 0, at) != []
    requires forall i :: i > 0 && StageKnown(start.store, i) ==> CompilesAnew(cfg, NewItems(cfg, 0, at), i)
    requires AcceptsAll(cfg) && RankedStage(cfg.compile(0).value, rank) && r in start.store.steps && r.stageIndex == 0
    requires !Uniform(cfg.compile(0).value, r.stepIndex)
    ensures Submit(cfg, start, at).Some? && !OutputCovers(cfg, Submit(cfg, start, at).value, r)
  {
    SubmitAccepted(cfg, start, at);
    SubmittedCoversIff(cfg, start, at, rank, r);
  }

  lemma SubmitAccepted(cfg: Config, start: Controller, at: int)
    requires IsNew(start) && Setting(cfg, start.store) && cfg.compile(0).Some? && DistinctIds(NewItems(cfg, 0, at)) && NewItems(cfg, 0, at) != []
    ensures Submit(cfg, start, at).Some?
  {
    FirstStageQueued(cfg, start, at);
    SubmitsIfRecorded(cfg, start, at, Opening(cfg, start, 0, at).store);
  }

  lemma SubmitsIfRecorded(cfg: Config, start: Controller, at: int, s: Store)
    requires cfg.compile(0).Some? && NewItems(cfg, 0, at) != []
    requires
      var items := NewItems(cfg, 0, at);
      var queued := Undeferred(items, Ids(items));
      var q := QueueItems(start, items, queued, at);
      q.Some? && RecordMembers(q.value.store, Tracked(queued)) == (s, true)
    ensures Submit(cfg, start, at).Some?
  {
  }

  lemma PlanLater()
    ensures CompilesAnew(CONFIG, PLAN.work, 1)
  {
    assert "d1" !in Ids(PLAN.work);
  }

  lemma PlanStages(i: int)
    requires i > 0 && StageKnown(START.store, i)
    ensures i == 1
  {
  }

  lemma PlanLaterStages()
    ensures forall i :: i > 0 && StageKnown(START.store, i) ==> CompilesAnew(CONFIG, PLAN.work, i)
  {
    forall i | i > 0 && StageKnown(START.store, i)
      ensures CompilesAnew(CONFIG, PLAN.work, i)
    {
      PlanStages(i);
      PlanLater();
    }
  }

  /** The exact condition applies to this plan: it does not keep the promise for its commit step. */
  lemma PlanBreaksPromise()
    ensures Submit(CONFIG, START, 7).Some? && !OutputCovers(CONFIG, Submit(CONFIG, START, 7).value, COMMIT)
  {
    StartSetting();
    PlanItems();
    PlanLaterStages();
    PlanUneven();
    PlanRanked();
    assert COMMIT in START.store.steps;
    UnevenSubmission(CONFIG, START, 7, (id: string) => if id == "c1" || id == "c2" then 1 else 0, COMMIT);
  }
}

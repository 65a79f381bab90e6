/** One workflow run in the controller: work items are compiled stage by stage, queued, claimed and
    reported, and each report handler updates the dependency store, releases deferred items and
    opens the next stage. */
module WorkflowRun {
  import opened Wrappers
  import opened PlanModel
  import opened DependencyStore
  import opened Sorting

  /** A compiled work item; an asset item materializes an input and is not tracked by the plan. */
  datatype Compiled = Compiled(id: string, stepIndex: int, dependsOn: seq<string>, asset: bool)

  datatype Item = Item(
    id: string, stageIndex: int, stepIndex: int, index: nat, dependsOn: seq<string>, asset: bool, createdAt: int)

  /** The compiler of a stage, the step aggregation and the output resolver, all of which may
      refuse, and the canonical output of an empty step. */
  datatype Config = Config(
    compile: int -> Option<seq<Compiled>>,
    aggregate: Step -> Option<Output>,
    resolves: string -> bool,
    empty: Output)

  /** `released` logs the items queued by a completion, `refused` those whose output was refused. */
  datatype Controller = Controller(
    store: Store, work: seq<Item>, queuedAt: map<string, int>, released: seq<string>, refused: set<string>)

  predicate Touched(s: Store, id: string) {
    id in s.queued || id in s.running || id in s.terminal
  }

  predicate Succeeds(s: Store, id: string) {
    id in s.terminal && !s.terminal[id].failed
  }

  function MemberOf(x: Item): MemberRecord {
    MemberRecord(x.stageIndex, x.stepIndex, x.id, x.index)
  }

  function MembersFor(items: seq<Item>): seq<MemberRecord> {
    seq(|items|, i requires 0 <= i < |items| => MemberOf(items[i]))
  }

  function Ids(items: seq<Item>): set<string> {
    set x | x in items :: x.id
  }

  function IdList(items: seq<Item>): seq<string> {
    seq(|items|, i requires 0 <= i < |items| => items[i].id)
  }

  function Keep(items: seq<Item>, p: Item -> bool): (r: seq<Item>)
    ensures forall x :: x in r <==> x in items && p(x)
  {
    if items == [] then []
    else
      var rest := Keep(items[1..], p);
      assert items == [items[0]] + items[1..];
      if p(items[0]) then [items[0]] + rest else rest
  }

  lemma {:induction false} KeepOneMore(items: seq<Item>, p: Item -> bool, k: nat)
    requires k < |items|
    ensures Keep(items[..k + 1], p) == Keep(items[..k], p) + (if p(items[k]) then [items[k]] else [])
    decreases k
  {
    if k > 0 {
      KeepOneMore(items[1..], p, k - 1);
      assert items[..k + 1][1..] == items[1..][..k] && items[..k][1..] == items[1..][..k - 1];
    }
  }

  // ---------------------------------------------------------------------------------------
  // Queueing a compiled stage

  function Records(stageIndex: int, compiled: seq<Compiled>, at: int): seq<Item> {
    seq(|compiled|, i requires 0 <= i < |compiled| =>
      Item(compiled[i].id, stageIndex, compiled[i].stepIndex, i, compiled[i].dependsOn, compiled[i].asset, at))
  }

  function CompiledIds(compiled: seq<Compiled>): set<string> {
    set y | y in compiled :: y.id
  }

  function CompiledSteps(compiled: seq<Compiled>): set<int> {
    set y | y in compiled :: y.stepIndex
  }

  /** Some dependency lies in the item's own stage. */
  predicate HasCurrentStageDependency(dependsOn: seq<string>, current: set<string>) {
    exists k :: 0 <= k < |dependsOn| && dependsOn[k] in current
  }

  function Undeferred(items: seq<Item>, current: set<string>): seq<Item> {
    Keep(items, (x: Item) => !HasCurrentStageDependency(x.dependsOn, current))
  }

  function Tracked(items: seq<Item>): seq<Item> {
    Keep(items, (x: Item) => !x.asset)
  }

  lemma UndeferredOneMore(items: seq<Item>, current: set<string>, i: nat)
    requires i < |items|
    ensures Undeferred(items[..i + 1], current) ==
            Undeferred(items[..i], current) + (if HasCurrentStageDependency(items[i].dependsOn, current) then [] else [items[i]])
  {
    KeepOneMore(items, (x: Item) => !HasCurrentStageDependency(x.dependsOn, current), i);
  }

  lemma TrackedOneMore(queued: seq<Item>, x: Item)
    ensures MembersFor(Tracked(queued + [x])) == MembersFor(Tracked(queued)) + (if x.asset then [] else [MemberOf(x)])
  {
    var all := queued + [x];
    assert all[..|queued| + 1] == all && all[..|queued|] == queued;
    KeepOneMore(all, (y: Item) => !y.asset, |queued|);
  }

  /** The loop that picks what to queue and what to record of a compiled stage. */
  method QueueableItems(items: seq<Item>) returns (queued: seq<Item>, memberships: seq<MemberRecord>)
    ensures queued == Undeferred(items, Ids(items))
    ensures memberships == MembersFor(Tracked(Undeferred(items, Ids(items))))
  {
    var current := Ids(items);
    queued, memberships := [], [];
    for i := 0 to |items|
      invariant queued == Undeferred(items[..i], current)
      invariant memberships == MembersFor(Tracked(queued))
    {
      UndeferredOneMore(items, current, i);
      if !HasCurrentStageDependency(items[i].dependsOn, current) {
        TrackedOneMore(queued, items[i]);
        queued := queued + [items[i]];
        if !items[i].asset {
          memberships := memberships + [MemberOf(items[i])];
        }
      }
    }
    assert items[..|items|] == items;
  }

  /** Inserting again is accepted only with equal values, and an id is inserted once. */
  predicate Insertable(work: seq<Item>, items: seq<Item>) {
    && (forall x, y :: x in items && y in work && x.id == y.id ==> x == y)
    && (forall i, j :: 0 <= i < j < |items| ==> items[i].id != items[j].id)
  }

  /** An item still queued may be enqueued again only with its own time. */
  predicate Enqueueable(c: Controller, items: seq<Item>, at: int) {
    forall x :: x in items && x.id in c.store.queued ==> x.id in c.queuedAt && c.queuedAt[x.id] == at
  }

  function Stamped(queuedAt: map<string, int>, ids: set<string>, at: int): map<string, int> {
    queuedAt + map id | id in ids :: at
  }

  function Enqueued(c: Controller, items: seq<Item>, at: int): Controller {
    c.(store := c.store.(queued := c.store.queued + Ids(items)), queuedAt := Stamped(c.queuedAt, Ids(items), at))
  }

  /** Inserts the items and enqueues some of them, as one transaction. */
  function QueueItems(c: Controller, items: seq<Item>, queued: seq<Item>, at: int): Option<Controller> {
    if Insertable(c.work, items) && Enqueueable(c, queued, at) then
      Some(Enqueued(c.(work := c.work + Keep(items, (x: Item) => x !in c.work)), queued, at))
    else None
  }

  /** Records memberships one after the other, up to the first refusal. */
  function RecordMembers(s: Store, items: seq<Item>): (Store, bool)
    decreases |items|
  {
    if items == [] then (s, true)
    else
      var s' := RecordMember(s, MemberOf(items[0]));
      if |s'.members| == |s.members| then (s, false) else RecordMembers(s', items[1..])
  }

  // ---------------------------------------------------------------------------------------
  // Activating stages

  function FailOpening(c: Controller, stageIndex: int, reason: string): Controller {
    c.(store := FailStageActivation(c.store, stageIndex, reason))
  }

  const QUEUE_FAILED := "queue activated stage work items"
  const MEMBERSHIP_FAILED := "record activated stage membership"
  const COMPILE_FAILED := "compile workflow stage"

  function QueueStage(c: Controller, stageIndex: int, compiled: seq<Compiled>, at: int): Controller {
    var items := Records(stageIndex, compiled, at);
    var queued := Undeferred(items, Ids(items));
    match QueueItems(c, items, queued, at)
    case None => FailOpening(c, stageIndex, QUEUE_FAILED)
    case Some(c') =>
      var (s, ok) := RecordMembers(c'.store, Tracked(queued));
      if ok then c'.(store := s) else FailOpening(c'.(store := s), stageIndex, MEMBERSHIP_FAILED)
  }

  /** One turn of the activation loop on a blocked stage; the flag says whether the stage turned
      out to be complete at once, so that the next one is tried. */
  function ActivateStage(cfg: Config, c: Controller, stageIndex: int, at: int): (r: (Controller, bool))
    ensures r.1 ==> r.0.store.steps == c.store.steps
  {
    match cfg.compile(stageIndex)
    case None => (FailOpening(c, stageIndex, COMPILE_FAILED), false)
    case Some(compiled) =>
      var (s, all) := RecordEmptySteps(c.store, stageIndex, CompiledSteps(compiled), cfg.empty);
      if all then (c.(store := s), true)
      else if compiled == [] then (c.(store := s), false)
      else (QueueStage(c.(store := s), stageIndex, compiled, at), false)
  }

  function LastStage(steps: seq<StepRecord>): int {
    if steps == [] then -1
    else
      var rest := LastStage(steps[1..]);
      if steps[0].stageIndex > rest then steps[0].stageIndex else rest
  }

  lemma {:induction false} LastStageBounds(steps: seq<StepRecord>, i: int)
    requires i in StageIndexes(steps)
    ensures i <= LastStage(steps)
  {
    var k := IndexOfStage(steps, i);
    StageBound(steps, k);
  }

  lemma {:induction false} IndexOfStage(steps: seq<StepRecord>, i: int) returns (k: nat)
    requires i in StageIndexes(steps)
    ensures k < |steps| && steps[k].stageIndex == i
  {
    var front := steps[..|steps| - 1];
    if i in StageIndexes(front) {
      k := IndexOfStage(front, i);
    } else {
      k := |steps| - 1;
    }
  }

  lemma {:induction false} StageBound(steps: seq<StepRecord>, k: nat)
    requires k < |steps|
    ensures steps[k].stageIndex <= LastStage(steps)
  {
    if k > 0 {
      StageBound(steps[1..], k - 1);
    }
  }

  predicate StageIs(s: Store, stageIndex: int, state: Progress) {
    var stages := Rebuild(s).stages;
    var g := StageAt(stages, stageIndex);
    g < |stages| && stages[g].state == state
  }

  lemma FoundStageBounded(s: Store, stageIndex: int, state: Progress)
    requires StageIs(s, stageIndex, state)
    ensures stageIndex <= LastStage(s.steps)
  {
    var g := StageAt(Rebuild(s).stages, stageIndex);
    assert StageIndexes(s.steps)[g] == stageIndex;
    LastStageBounds(s.steps, stageIndex);
  }

  /** Opens stages from this one on until one needs work. */
  function ActivateFrom(cfg: Config, c: Controller, stageIndex: int, at: int): Controller
    decreases LastStage(c.store.steps) - stageIndex
  {
    if !StageIs(c.store, stageIndex, Blocked) then c
    else
      var (c', more) := ActivateStage(cfg, c, stageIndex, at);
      FoundStageBounded(c.store, stageIndex, Blocked);
      if more then ActivateFrom(cfg, c', stageIndex + 1, at) else c'
  }

  function ActivateNext(cfg: Config, c: Controller, completed: int, at: int): Controller {
    if Rebuild(c.store).state != WorkflowState.Running || !StageIs(c.store, completed, Progress.Completed) then c
    else ActivateFrom(cfg, c, completed + 1, at)
  }

  /** The activation loop; it ends on every input. */
  method ActivateNextReadyStage(cfg: Config, c: Controller, completed: int, at: int) returns (r: Controller)
    ensures r == ActivateNext(cfg, c, completed, at)
  {
    r := c;
    if Rebuild(c.store).state != WorkflowState.Running || !StageIs(c.store, completed, Progress.Completed) {
      return;
    }
    var next := completed + 1;
    while StageIs(r.store, next, Blocked)
      invariant ActivateFrom(cfg, r, next, at) == ActivateFrom(cfg, c, completed + 1, at)
      decreases LastStage(r.store.steps) - next
    {
      FoundStageBounded(r.store, next, Blocked);
      var (c', more) := ActivateStage(cfg, r, next, at);
      if !more {
        return c';
      }
      r, next := c', next + 1;
    }
  }

  // ---------------------------------------------------------------------------------------
  // Releasing deferred items

  /** An item that waits for nothing more once `done` has completed. */
  predicate IsReady(c: Controller, done: string, x: Item) {
    && x.id != done && !Touched(c.store, x.id)
    && done in x.dependsOn
    && forall k :: 0 <= k < |x.dependsOn| ==> Succeeds(c.store, x.dependsOn[k])
  }

  function ReadyItems(c: Controller, done: string): seq<Item> {
    Keep(c.work, (x: Item) => IsReady(c, done, x))
  }

  /** The tests on one item: untouched, waiting for the completed one, and all dependencies completed. */
  method ReadyNow(c: Controller, done: string, x: Item) returns (ready: bool)
    ensures ready == IsReady(c, done, x)
  {
    if x.id == done || Touched(c.store, x.id) || done !in x.dependsOn {
      return false;
    }
    var k := 0;
    while k < |x.dependsOn|
      invariant 0 <= k <= |x.dependsOn|
      invariant forall j :: 0 <= j < k ==> Succeeds(c.store, x.dependsOn[j])
    {
      if !Succeeds(c.store, x.dependsOn[k]) {
        return false;
      }
      k := k + 1;
    }
    ready := true;
  }

  function QueueKey(x: Item): Key {
    Key(x.index, x.id)
  }

  /** The loop over all work that collects what a completion made ready: what to queue, by index and
      id, and what to record, in order of work. */
  method CollectReady(c: Controller, done: string) returns (toQueue: seq<Item>, memberships: seq<MemberRecord>)
    ensures InOrder(toQueue, QueueKey) && multiset(toQueue) == multiset(ReadyItems(c, done))
    ensures Ids(toQueue) == Ids(ReadyItems(c, done)) && memberships == MembersFor(ReadyItems(c, done))
  {
    ghost var p := (x: Item) => IsReady(c, done, x);
    toQueue, memberships := [], [];
    for i := 0 to |c.work|
      invariant toQueue == Keep(c.work[..i], p) && memberships == MembersFor(toQueue)
    {
      KeepOneMore(c.work, p, i);
      var ready := ReadyNow(c, done, c.work[i]);
      if ready {
        toQueue, memberships := toQueue + [c.work[i]], memberships + [MemberOf(c.work[i])];
      }
    }
    assert c.work[..|c.work|] == c.work;
    SortInOrder(toQueue, QueueKey);
    SameIds(toQueue, SortBy(toQueue, QueueKey));
    toQueue := SortBy(toQueue, QueueKey);
  }

  lemma SameIds(xs: seq<Item>, ys: seq<Item>)
    requires multiset(xs) == multiset(ys)
    ensures Ids(xs) == Ids(ys)
  {
    forall x
      ensures x in xs <==> x in ys
    {
      assert x in multiset(xs) <==> x in multiset(ys);
    }
  }

  predicate StepKnown(s: Store, x: Item) {
    exists r :: r in s.steps && r.stageIndex == x.stageIndex && r.stepIndex == x.stepIndex
  }

  /** Enqueues and records the items that a completion made ready; the flag is false on error. */
  function EnqueueReady(c: Controller, done: string, at: int): (Controller, bool) {
    var ready := ReadyItems(c, done);
    if exists x :: x in ready && !StepKnown(c.store, x) then (c, false)
    else
      var queued := Enqueued(c, ready, at);
      var (s, ok) := RecordMembers(queued.store, ready);
      (queued.(store := s, released := c.released + IdList(ready)), ok)
  }

  // ---------------------------------------------------------------------------------------
  // Handlers

  datatype Call =
    | ClaimCall(id: string)
    | RequeueCall(id: string, at: int)
    | CompleteCall(item: Item, attempt: Terminal, at: int)
    | FailCall(item: Item, reason: string)
    | ExpireCall(item: Item, reason: string)   // the retry ceiling after expired worker sessions

  /** Ends a running attempt; a success already recorded for the item stays. */
  function Finish(c: Controller, id: string, attempt: Terminal): Controller {
    c.(store := c.store.(running := c.store.running - {id},
                         terminal := if Succeeds(c.store, id) then c.store.terminal else c.store.terminal[id := attempt]))
  }

  const OUTPUT_REFUSED := "output refused"

  /** After an asset item completed. */
  function AssetCompleted(c: Controller, x: Item, at: int): Controller {
    EnqueueReady(c, x.id, at).0
  }

  /** After any other item completed and its output was taken in. */
  function OutputTaken(cfg: Config, c: Controller, x: Item, skipped: bool, at: int): Controller {
    var s := RecordTerminal(c.store, x.id, if skipped then MemberState.Skipped else MemberState.Completed, "");
    var (c', ok) := EnqueueReady(c.(store := s), x.id, at);
    if ok then ActivateNext(cfg, c', x.stageIndex, at) else c'
  }

  function WorkCompleted(cfg: Config, c: Controller, x: Item, attempt: Terminal, at: int): Controller {
    var (s, ok) :=
      if cfg.resolves(attempt.outputJson) then RecordOutput(c.store, x.id, attempt.outputJson, attempt.outputSha256, cfg.aggregate)
      else (c.store, false);
    if ok then OutputTaken(cfg, c.(store := s), x, attempt.skipped, at)
    else c.(store := RecordTerminal(s, x.id, MemberState.Failed, OUTPUT_REFUSED), refused := c.refused + {x.id})
  }

  /** A completion report; repeating one already recorded runs the same steps again. */
  function Complete(cfg: Config, c: Controller, x: Item, attempt: Terminal, at: int): Controller {
    if x !in c.work || attempt.failed || attempt.outputJson == "" then c
    else if x.id in c.store.running || (x.id in c.store.terminal && c.store.terminal[x.id] == attempt) then
      var c' := if x.id in c.store.running then Finish(c, x.id, attempt) else c;
      if x.asset then AssetCompleted(c', x, at) else WorkCompleted(cfg, c', x, attempt, at)
    else c
  }

  function Fail(c: Controller, x: Item, reason: string): Controller {
    if x !in c.work || !(x.id in c.store.running || (x.id in c.store.terminal && c.store.terminal[x.id].failed)) then c
    else
      var c' := if x.id in c.store.running then Finish(c, x.id, FailedAttempt(reason)) else c;
      var c'' := if x.asset then FailOpening(c', x.stageIndex, if reason == "" then "asset_materialize failed" else reason) else c';
      c''.(store := RecordTerminal(c''.store, x.id, MemberState.Failed, reason))
  }

  function FailedAttempt(reason: string): Terminal {
    Terminal(true, false, "", "", reason)
  }

  /** Recovery of an expired session at the retry ceiling: the attempt fails in the store, and the
      plan is told nothing. */
  function Expire(c: Controller, x: Item, reason: string): Controller {
    if x in c.work && x.id in c.store.running then Finish(c, x.id, FailedAttempt(reason)) else c
  }

  function Next(cfg: Config, c: Controller, e: Call): Controller {
    match e
    case ClaimCall(id) =>
      if id in c.store.queued && id !in c.store.running then
        c.(store := c.store.(queued := c.store.queued - {id}, running := c.store.running + {id}))
      else c
    case RequeueCall(id, at) =>
      if id in c.store.running then
        c.(store := c.store.(running := c.store.running - {id}, queued := c.store.queued + {id}),
           queuedAt := if id in c.store.queued then c.queuedAt else c.queuedAt[id := at])
      else c
    case CompleteCall(x, attempt, at) => Complete(cfg, c, x, attempt, at)
    case FailCall(x, reason) => Fail(c, x, reason)
    case ExpireCall(x, reason) => Expire(c, x, reason)
  }

  function RunCalls(cfg: Config, c: Controller, calls: seq<Call>): Controller
    decreases |calls|
  {
    if calls == [] then c else RunCalls(cfg, Next(cfg, c, calls[0]), calls[1..])
  }

  /** A fresh run: the step records exist, nothing else does. */
  predicate IsNew(c: Controller) {
    && c.store.members == [] && c.store.queued == {} && c.store.running == {} && c.store.terminal == map[]
    && c.store.facts == map[] && c.store.saved == None
    && c.work == [] && c.released == [] && c.refused == {}
  }

  /** Submission queues the first stage, then completes its empty steps; none if it is rejected. */
  function Submit(cfg: Config, c: Controller, at: int): Option<Controller> {
    match cfg.compile(0)
    case None => None
    case Some(compiled) =>
      var items := Records(0, compiled, at);
      var queued := Undeferred(items, Ids(items));
      match if items == [] then Some(c) else QueueItems(c, items, queued, at)
      case None => None
      case Some(c') =>
        var (s, ok) := RecordMembers(c'.store, Tracked(queued));
        if !ok then None
        else
          var (s', all) := RecordEmptySteps(s, 0, CompiledSteps(compiled), cfg.empty);
          if all then Some(ActivateNext(cfg, c'.(store := s'), 0, at)) else Some(c'.(store := s'))
  }
}

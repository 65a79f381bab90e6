/** What the records of a run say about its calls: when items were created and queued, and which
    reports the stored attempts come from. */
module WorkflowHistory {
  import opened Wrappers
  import opened PlanModel
  import opened DependencyStore
  import opened WorkflowRun
  import opened WorkflowRunInv
  import opened WorkflowRunParts
  import opened WorkflowRunOpening
  import opened WorkflowRunTheorems

  // ---------------------------------------------------------------------------------------
  // Submission

  /** A submission is accepted exactly when the first stage compiles, to items of which no two have the
      same id. */
  lemma SubmitAcceptedIff(cfg: Config, c: Controller, at: int)
    requires IsNew(c) && Setting(cfg, c.store)
    ensures Submit(cfg, c, at).Some? <==>
            && cfg.compile(0).Some?
            && forall i, j :: 0 <= i < j < |cfg.compile(0).value| ==> cfg.compile(0).value[i].id != cfg.compile(0).value[j].id
  {
    if cfg.compile(0).Some? {
      FirstInsertableIff(cfg, at);
      if Insertable([], NewItems(cfg, 0, at)) {
        FirstStageQueued(cfg, c, at);
        FirstAccepted(cfg, c, at, Opening(cfg, c, 0, at).store);
      } else {
        FirstRefused(cfg, c, at);
      }
    }
  }

  lemma FirstInsertableIff(cfg: Config, at: int)
    requires cfg.compile(0).Some?
    ensures Insertable([], NewItems(cfg, 0, at)) <==>
            forall i, j :: 0 <= i < j < |cfg.compile(0).value| ==> cfg.compile(0).value[i].id != cfg.compile(0).value[j].id
  {
    var compiled, items := cfg.compile(0).value, NewItems(cfg, 0, at);
    assert |items| == |compiled| && forall i :: 0 <= i < |items| ==> items[i].id == compiled[i].id;
  }

  lemma FirstAccepted(cfg: Config, c: Controller, at: int, s: Store)
    requires cfg.compile(0).Some? && IsNew(c)
    requires
      var items := NewItems(cfg, 0, at);
      var queued := Undeferred(items, Ids(items));
      var r := QueueItems(c, items, queued, at);
      r.Some? && RecordMembers(r.value.store, Tracked(queued)) == (s, true)
    ensures Submit(cfg, c, at).Some?
  {
    if cfg.compile(0).value == [] {
      assert Tracked(Undeferred([], {})) == [];
      assert Ids([]) == {};
    }
  }

  lemma FirstRefused(cfg: Config, c: Controller, at: int)
    requires cfg.compile(0).Some? && IsNew(c) && !Insertable([], NewItems(cfg, 0, at))
    ensures Submit(cfg, c, at).None?
  {
  }

  // ---------------------------------------------------------------------------------------
  // Times

  /** Every queued item has its time. */
  predicate Timed(c: Controller) {
    c.store.queued <= c.queuedAt.Keys
  }

  /** Items are only added, with the time of the call. */
  predicate WorkDated(c: Controller, c': Controller, at: int) {
    c.work <= c'.work && forall i :: |c.work| <= i < |c'.work| ==> c'.work[i].createdAt == at
  }

  /** What was queued stays so with its time; what is queued now has the time of the call. */
  predicate QueueDated(c: Controller, c': Controller, at: int)
    requires Timed(c)
  {
    && Timed(c') && c.store.queued <= c'.store.queued
    && forall id :: id in c'.store.queued ==> c'.queuedAt[id] == if id in c.store.queued then c.queuedAt[id] else at
  }

  /** A part of a handler adds work at the time of the call and leaves attempts alone. */
  predicate Adds(c: Controller, c': Controller, at: int)
    requires Timed(c)
  {
    WorkDated(c, c', at) && QueueDated(c, c', at) && c'.store.running == c.store.running && c'.store.terminal == c.store.terminal
  }

  lemma AddsMore(c: Controller, c1: Controller, c2: Controller, at: int)
    requires Timed(c) && Adds(c, c1, at) && Adds(c1, c2, at)
    ensures Adds(c, c2, at)
  {
  }

  lemma FrameAdds(c: Controller, s: Store, at: int)
    requires Timed(c) && Frame(c.store, s)
    ensures Adds(c, c.(store := s), at)
  {
  }

  lemma EnqueuedAdds(c: Controller, items: seq<Item>, at: int)
    requires Timed(c) && Enqueueable(c, items, at)
    ensures Adds(c, Enqueued(c, items, at), at)
  {
    forall id | id in Ids(items) && id in c.store.queued
      ensures c.queuedAt[id] == at
    {
      var x :| x in items && x.id == id;
    }
  }

  lemma RecordsDated(i: int, compiled: seq<Compiled>, at: int)
    ensures forall x :: x in Records(i, compiled, at) ==> x.createdAt == at
  {
  }

  lemma QueueItemsAdds(c: Controller, items: seq<Item>, queued: seq<Item>, at: int)
    requires Timed(c) && QueueItems(c, items, queued, at).Some? && (forall x :: x in items ==> x.createdAt == at)
    ensures Adds(c, QueueItems(c, items, queued, at).value, at)
  {
    var added := Keep(items, (x: Item) => x !in c.work);
    forall i | 0 <= i < |added|
      ensures added[i].createdAt == at
    {
      assert added[i] in added;
    }
    EnqueuedAdds(c.(work := c.work + added), queued, at);
  }

  lemma QueueStageAdds(c: Controller, i: int, compiled: seq<Compiled>, at: int)
    requires Timed(c)
    ensures Adds(c, QueueStage(c, i, compiled, at), at)
  {
    var items := Records(i, compiled, at);
    var queued := Undeferred(items, Ids(items));
    RecordsDated(i, compiled, at);
    if QueueItems(c, items, queued, at).Some? {
      var c' := QueueItems(c, items, queued, at).value;
      QueueItemsAdds(c, items, queued, at);
      var s := RecordMembers(c'.store, Tracked(queued)).0;
      RecordMembersFrame(c'.store, Tracked(queued));
      FrameAdds(c', s, at);
      FrameAdds(c', FailStageActivation(s, i, MEMBERSHIP_FAILED), at);
    }
  }

  lemma ActivateStageAdds(cfg: Config, c: Controller, i: int, at: int)
    requires Timed(c)
    ensures Adds(c, ActivateStage(cfg, c, i, at).0, at)
  {
    if cfg.compile(i).Some? {
      var compiled := cfg.compile(i).value;
      var s := RecordEmptySteps(c.store, i, CompiledSteps(compiled), cfg.empty).0;
      FrameAdds(c, s, at);
      QueueStageAdds(c.(store := s), i, compiled, at);
    }
  }

  lemma {:induction false} ActivateFromAdds(cfg: Config, c: Controller, i: int, at: int)
    requires Timed(c)
    ensures Adds(c, ActivateFrom(cfg, c, i, at), at)
    decreases LastStage(c.store.steps) - i
  {
    if StageIs(c.store, i, Blocked) {
      var (c', more) := ActivateStage(cfg, c, i, at);
      ActivateFromTurn(cfg, c, i, at, c', more);
      ActivateStageAdds(cfg, c, i, at);
      if more {
        FoundStageBounded(c.store, i, Blocked);
        ActivateFromAdds(cfg, c', i + 1, at);
      }
    }
  }

  lemma ActivateNextAdds(cfg: Config, c: Controller, completed: int, at: int)
    requires Timed(c)
    ensures Adds(c, ActivateNext(cfg, c, completed, at), at)
  {
    ActivateFromAdds(cfg, c, completed + 1, at);
  }

  lemma ReleaseAdds(c: Controller, done: string, at: int)
    requires Timed(c)
    ensures Adds(c, EnqueueReady(c, done, at).0, at)
  {
    var ready := ReadyItems(c, done);
    var queued := Enqueued(c, ready, at);
    EnqueuedAdds(c, ready, at);
    RecordMembersFrame(queued.store, ready);
  }

  lemma OutputTakenAdds(cfg: Config, c: Controller, x: Item, skipped: bool, at: int)
    requires Timed(c)
    ensures Adds(c, OutputTaken(cfg, c, x, skipped, at), at)
  {
    var s := RecordTerminal(c.store, x.id, if skipped then MemberState.Skipped else MemberState.Completed, "");
    FrameAdds(c, s, at);
    ReleaseAdds(c.(store := s), x.id, at);
    ActivateNextAdds(cfg, EnqueueReady(c.(store := s), x.id, at).0, x.stageIndex, at);
  }

  lemma WorkCompletedAdds(cfg: Config, c: Controller, x: Item, attempt: Terminal, at: int)
    requires Timed(c)
    ensures Adds(c, WorkCompleted(cfg, c, x, attempt, at), at)
  {
    var s := RecordOutput(c.store, x.id, attempt.outputJson, attempt.outputSha256, cfg.aggregate).0;
    FrameAdds(c, s, at);
    OutputTakenAdds(cfg, c.(store := s), x, attempt.skipped, at);
  }

  lemma CompletionAdds(cfg: Config, c: Controller, x: Item, attempt: Terminal, at: int)
    requires Timed(c)
    ensures Adds(c, if x.asset then AssetCompleted(c, x, at) else WorkCompleted(cfg, c, x, attempt, at), at)
  {
    ReleaseAdds(c, x.id, at);
    WorkCompletedAdds(cfg, c, x, attempt, at);
  }

  // ---------------------------------------------------------------------------------------
  // One call

  /** The time a call carries, if it can queue anything. */
  function TimeOf(e: Call): Option<int> {
    match e
    case RequeueCall(_, at) => Some(at)
    case CompleteCall(_, _, at) => Some(at)
    case _ => None
  }

  /** The item and the attempt a call reports. */
  function ReportOf(e: Call): Option<(Item, Terminal)> {
    match e
    case CompleteCall(x, attempt, _) => if attempt.failed || attempt.outputJson == "" then None else Some((x, attempt))
    case FailCall(x, reason) => Some((x, FailedAttempt(reason)))
    case ExpireCall(x, reason) => Some((x, FailedAttempt(reason)))
    case _ => None
  }

  /** The call ends a running attempt of this item. */
  predicate Ends(c: Controller, e: Call, id: string) {
    var r := ReportOf(e);
    r.Some? && r.value.0 in c.work && r.value.0.id == id && id in c.store.running
  }

  /** New items and newly queued ones have the time of the call. */
  predicate TimesExact(c: Controller, e: Call, c': Controller)
    requires Timed(c)
  {
    && Timed(c') && c.work <= c'.work
    && (forall i :: |c.work| <= i < |c'.work| ==> TimeOf(e) == Some(c'.work[i].createdAt))
    && (forall id :: id in c'.store.queued && id in c.store.queued ==> c'.queuedAt[id] == c.queuedAt[id])
    && (forall id :: id in c'.store.queued && id !in c.store.queued ==> TimeOf(e) == Some(c'.queuedAt[id]))
  }

  /** The call moves this item as its kind says and no other one: attempts begin by a claim and end by a
      requeue or a report, which is stored unless a success already is. */
  predicate MovesExactly(c: Controller, e: Call, c': Controller, id: string) {
    && (id in c'.store.running <==>
          || (e == ClaimCall(id) && id in c.store.queued)
          || (id in c.store.running && !Ends(c, e, id) && !(e.RequeueCall? && e.id == id)))
    && (id in c.store.queued && id !in c'.store.queued ==> e == ClaimCall(id) && id !in c.store.running)
    && (e.RequeueCall? && e.id == id && id in c.store.running ==> id in c'.store.queued)
    && (if Ends(c, e, id) && !Succeeds(c.store, id) then id in c'.store.terminal && c'.store.terminal[id] == ReportOf(e).value.1
        else id in c'.store.terminal <==> id in c.store.terminal)
    && (id in c.store.terminal && !(Ends(c, e, id) && !Succeeds(c.store, id)) ==> c'.store.terminal[id] == c.store.terminal[id])
  }

  lemma CompleteExact(cfg: Config, c: Controller, x: Item, attempt: Terminal, at: int, id: string)
    requires Timed(c)
    ensures TimesExact(c, CompleteCall(x, attempt, at), Complete(cfg, c, x, attempt, at))
    ensures MovesExactly(c, CompleteCall(x, attempt, at), Complete(cfg, c, x, attempt, at), id)
  {
    var c' := Complete(cfg, c, x, attempt, at);
    if Takes(c, x, attempt) {
      var mid := if x.id in c.store.running then Finish(c, x.id, attempt) else c;
      CompletionAdds(cfg, mid, x, attempt, at);
      assert c' == if x.asset then AssetCompleted(mid, x, at) else WorkCompleted(cfg, mid, x, attempt, at);
      CompletionMoves(c, x, attempt, at, mid, c', id);
    } else {
      assert c' == c;
    }
  }

  /** The completion report is heard: its item runs, or the same success is already stored. */
  predicate Takes(c: Controller, x: Item, attempt: Terminal) {
    && x in c.work && !attempt.failed && attempt.outputJson != ""
    && (x.id in c.store.running || (x.id in c.store.terminal && c.store.terminal[x.id] == attempt))
  }

  lemma CompletionMoves(c: Controller, x: Item, attempt: Terminal, at: int, mid: Controller, c': Controller, id: string)
    requires Timed(c) && Takes(c, x, attempt) && mid == (if x.id in c.store.running then Finish(c, x.id, attempt) else c)
    requires Timed(mid) && Adds(mid, c', at)
    ensures TimesExact(c, CompleteCall(x, attempt, at), c')
    ensures MovesExactly(c, CompleteCall(x, attempt, at), c', id)
  {
  }

  lemma FailExact(c: Controller, x: Item, reason: string, id: string)
    requires Timed(c)
    ensures TimesExact(c, FailCall(x, reason), Fail(c, x, reason))
    ensures MovesExactly(c, FailCall(x, reason), Fail(c, x, reason), id)
  {
    var s := FailFrame(c, x, reason);
    FailMoves(c, x, reason, s, id);
  }

  lemma FailFrame(c: Controller, x: Item, reason: string) returns (s: Store)
    ensures
      var mid := if x in c.work && x.id in c.store.running then Finish(c, x.id, FailedAttempt(reason)) else c;
      Frame(mid.store, s) && Fail(c, x, reason) == mid.(store := s)
  {
    s := Fail(c, x, reason).store;
  }

  lemma FailMoves(c: Controller, x: Item, reason: string, s: Store, id: string)
    requires Timed(c)
    requires
      var mid := if x in c.work && x.id in c.store.running then Finish(c, x.id, FailedAttempt(reason)) else c;
      Frame(mid.store, s)
    ensures TimesExact(c, FailCall(x, reason), c.(store := s))
    ensures MovesExactly(c, FailCall(x, reason), c.(store := s), id)
  {
  }

  /** What one call does to work, queue and attempts, whatever else it brings about. */
  lemma CallExact(cfg: Config, c: Controller, e: Call, id: string)
    requires Timed(c)
    ensures TimesExact(c, e, Next(cfg, c, e))
    ensures MovesExactly(c, e, Next(cfg, c, e), id)
  {
    match e
    case CompleteCall(x, attempt, at) => CompleteExact(cfg, c, x, attempt, at, id);
    case FailCall(x, reason) => FailExact(c, x, reason, id);
    case _ =>
  }

  // ---------------------------------------------------------------------------------------
  // Whole runs

  lemma SubmitAdds(cfg: Config, c: Controller, at: int)
    requires IsNew(c) && Submit(cfg, c, at).Some?
    ensures Timed(c) && Adds(c, Submit(cfg, c, at).value, at)
  {
    var items := Records(0, cfg.compile(0).value, at);
    var queued := Undeferred(items, Ids(items));
    RecordsDated(0, cfg.compile(0).value, at);
    var c' := if items == [] then c else QueueItems(c, items, queued, at).value;
    if items != [] {
      QueueItemsAdds(c, items, queued, at);
    }
    RecordMembersFrame(c'.store, Tracked(queued));
    var s := RecordMembers(c'.store, Tracked(queued)).0;
    var s' := RecordEmptySteps(s, 0, CompiledSteps(cfg.compile(0).value), cfg.empty).0;
    FrameAdds(c', s', at);
    AddsMore(c, c', c'.(store := s'), at);
    ActivateNextAdds(cfg, c'.(store := s'), 0, at);
  }

  /** A time at which something could be queued: that of the submission, or of one of the calls. */
  predicate KnownTime(at: int, calls: seq<Call>, time: int) {
    time == at || exists k :: 0 <= k < |calls| && TimeOf(calls[k]) == Some(time)
  }

  predicate TimesKnown(c: Controller, at: int, calls: seq<Call>) {
    && Timed(c)
    && (forall x :: x in c.work ==> KnownTime(at, calls, x.createdAt))
    && (forall id :: id in c.store.queued ==> KnownTime(at, calls, c.queuedAt[id]))
  }

  /** The stored attempt is one that a call reported for this item. */
  predicate Reported(calls: seq<Call>, id: string, attempt: Terminal) {
    exists k :: 0 <= k < |calls| && ReportOf(calls[k]).Some? && ReportOf(calls[k]).value.0.id == id && ReportOf(calls[k]).value.1 == attempt
  }

  /** Every stored attempt is that of a report, every time that of the submission or of a call. */
  predicate Recorded(c: Controller, at: int, calls: seq<Call>) {
    TimesKnown(c, at, calls) && forall id :: id in c.store.terminal ==> Reported(calls, id, c.store.terminal[id])
  }

  lemma KnownLater(at: int, calls: seq<Call>, e: Call, time: int)
    requires KnownTime(at, calls, time) || TimeOf(e) == Some(time)
    ensures KnownTime(at, calls + [e], time)
  {
    var all := calls + [e];
    if time != at && KnownTime(at, calls, time) {
      var k :| 0 <= k < |calls| && TimeOf(calls[k]) == Some(time);
      assert TimeOf(all[k]) == Some(time);
    } else if time != at {
      assert TimeOf(all[|calls|]) == Some(time);
    }
  }

  lemma ReportedLater(calls: seq<Call>, e: Call, id: string, attempt: Terminal)
    requires
      || Reported(calls, id, attempt)
      || (ReportOf(e).Some? && ReportOf(e).value.0.id == id && ReportOf(e).value.1 == attempt)
    ensures Reported(calls + [e], id, attempt)
  {
    var all := calls + [e];
    if Reported(calls, id, attempt) {
      var k :| 0 <= k < |calls| && ReportOf(calls[k]).Some? && ReportOf(calls[k]).value.0.id == id && ReportOf(calls[k]).value.1 == attempt;
      assert all[k] == calls[k];
    } else {
      assert all[|calls|] == e;
    }
  }

  lemma TimesOneMore(c: Controller, at: int, calls: seq<Call>, e: Call, c': Controller)
    requires TimesKnown(c, at, calls) && TimesExact(c, e, c')
    ensures TimesKnown(c', at, calls + [e])
  {
    forall x | x in c'.work
      ensures KnownTime(at, calls + [e], x.createdAt)
    {
      var i :| 0 <= i < |c'.work| && c'.work[i] == x;
      assert i < |c.work| ==> c.work[i] == x;
      KnownLater(at, calls, e, x.createdAt);
    }
    forall id | id in c'.store.queued
      ensures KnownTime(at, calls + [e], c'.queuedAt[id])
    {
      KnownLater(at, calls, e, c'.queuedAt[id]);
    }
  }

  lemma RecordedOneMore(cfg: Config, c: Controller, at: int, calls: seq<Call>, e: Call)
    requires Recorded(c, at, calls)
    ensures Recorded(Next(cfg, c, e), at, calls + [e])
  {
    var c' := Next(cfg, c, e);
    CallExact(cfg, c, e, "");
    TimesOneMore(c, at, calls, e, c');
    forall id | id in c'.store.terminal
      ensures Reported(calls + [e], id, c'.store.terminal[id])
    {
      CallExact(cfg, c, e, id);
      ReportedLater(calls, e, id, c'.store.terminal[id]);
    }
  }

  lemma {:induction false} CallsRecorded(cfg: Config, c: Controller, at: int, before: seq<Call>, calls: seq<Call>)
    requires Recorded(c, at, before)
    ensures Recorded(RunCalls(cfg, c, calls), at, before + calls)
    decreases |calls|
  {
    if calls == [] {
      assert before + calls == before;
    } else {
      RecordedOneMore(cfg, c, at, before, calls[0]);
      CallsRecorded(cfg, Next(cfg, c, calls[0]), at, before + [calls[0]], calls[1..]);
      assert before + [calls[0]] + calls[1..] == before + calls;
    }
  }

  lemma NewRecorded(start: Controller, first: Controller, at: int)
    requires start.work == [] && start.store.queued == {} && start.store.terminal == map[] && Timed(start) && Adds(start, first, at)
    ensures Recorded(first, at, [])
  {
    forall x | x in first.work
      ensures x.createdAt == at
    {
      var i :| 0 <= i < |first.work| && first.work[i] == x;
    }
  }

  /** In every reachable run each item was created and queued at the time of the submission or of one
      of the calls, and every stored attempt is one that a call reported for its item. */
  lemma RunIsRecorded(cfg: Config, start: Controller, at: int, calls: seq<Call>, c: Controller)
    requires ReachedBy(cfg, start, at, calls, c)
    ensures Recorded(c, at, calls)
  {
    SubmitAdds(cfg, start, at);
    NewRecorded(start, Submit(cfg, start, at).value, at);
    CallsRecorded(cfg, Submit(cfg, start, at).value, at, [], calls);
    assert [] + calls == calls;
  }

  /** A success once stored is never replaced, whatever is called. */
  lemma {:induction false} SuccessIsKept(cfg: Config, c: Controller, calls: seq<Call>, id: string)
    requires Timed(c) && Succeeds(c.store, id)
    ensures id in RunCalls(cfg, c, calls).store.terminal && RunCalls(cfg, c, calls).store.terminal[id] == c.store.terminal[id]
    decreases |calls|
  {
    if calls != [] {
      CallExact(cfg, c, calls[0], id);
      SuccessIsKept(cfg, Next(cfg, c, calls[0]), calls[1..], id);
    }
  }
}

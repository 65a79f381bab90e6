/** Worker start reservations.

    The capacity manager keeps the list of worker starts it has asked for and not yet seen
    register.  An evaluation prunes expired reservations, asks a planning pattern how many workers
    to start, reserves that many starts, launches, and takes the reservations back when the launch
    fails.  Time is in nanoseconds. */
module WorkerCapacity {
  import opened Wrappers
  import Decimal

  datatype Reservation = Reservation(id: string, createdAt: int)

  datatype Demand = Demand(pendingQueued: int, pendingClaimable: int, runningAttempts: int, liveWorkerSessions: int)

  datatype Config = Config(pattern: string, maxActiveWorkers: int, inflightStartTimeout: int)

  datatype StartPlan = StartPlan(startCount: int, reason: string)

  /** Custom stands for any implementation of the pattern interface handed to the manager. */
  datatype Pattern = OneByOne | Disabled | Custom(plan: (int, Demand, seq<Reservation>, Config) -> StartPlan)

  datatype Manager = Manager(inflight: seq<Reservation>, nextId: nat)

  const ONE_BY_ONE := "one_by_one_until_saturated"
  const NULL_PATTERN := "null"

  predicate Expired(r: Reservation, now: int, timeout: int) {
    timeout > 0 && now - r.createdAt > timeout
  }

  function Unexpired(rs: seq<Reservation>, now: int, timeout: int): seq<Reservation> {
    if rs == [] then []
    else (if Expired(rs[0], now, timeout) then [] else [rs[0]]) + Unexpired(rs[1..], now, timeout)
  }

  function PlanOneByOne(now: int, demand: Demand, inflight: seq<Reservation>, cfg: Config): StartPlan {
    var unexpired := Unexpired(inflight, now, cfg.inflightStartTimeout);
    var wanted := demand.runningAttempts + demand.pendingClaimable;
    var desired := if cfg.maxActiveWorkers > 0 && wanted > cfg.maxActiveWorkers then cfg.maxActiveWorkers else wanted;
    var observed := demand.liveWorkerSessions + |unexpired|;
    if demand.pendingClaimable <= 0 then StartPlan(0, "no_claimable_work")
    else if cfg.maxActiveWorkers > 0 && observed >= cfg.maxActiveWorkers then StartPlan(0, "max_active_workers_reached")
    else if desired - observed <= 0 then StartPlan(0, "active_capacity_satisfies_claimable_work")
    else if |unexpired| > 0 then StartPlan(0, "waiting_for_inflight_start_claim")
    else StartPlan(1, "active_capacity_below_claimable_work")
  }

  function PlanWith(p: Pattern, now: int, demand: Demand, inflight: seq<Reservation>, cfg: Config): StartPlan {
    match p
    case OneByOne => PlanOneByOne(now, demand, inflight, cfg)
    case Disabled => StartPlan(0, "worker_scheduling_disabled")
    case Custom(plan) => plan(now, demand, inflight, cfg)
  }

  /** The configured name selects the pattern; an override replaces the one-by-one pattern only. */
  function PatternFor(override: Option<Pattern>, name: string): Option<Pattern> {
    if name == "" || name == ONE_BY_ONE then (if override.Some? then override else Some(OneByOne))
    else if name == NULL_PATTERN then Some(Disabled)
    else None
  }

  function ReservationId(n: nat): string {
    "worker-start-" + Decimal.OfNat(n)
  }

  /** `count` reservations numbered after `used`. */
  function Fresh(used: nat, count: nat, now: int): seq<Reservation>
    decreases count
  {
    if count == 0 then []
    else [Reservation(ReservationId(used + 1), now)] + Fresh(used + 1, count - 1, now)
  }

  function Without(rs: seq<Reservation>, ids: set<string>): seq<Reservation> {
    if rs == [] then []
    else (if rs[0].id in ids then [] else [rs[0]]) + Without(rs[1..], ids)
  }

  function Ids(rs: seq<Reservation>): set<string> {
    set r | r in rs :: r.id
  }

  function Prune(m: Manager, now: int, timeout: int): Manager {
    m.(inflight := Unexpired(m.inflight, now, timeout))
  }

  datatype Evaluation = Evaluation(manager: Manager, plan: Option<StartPlan>, launched: bool)

  /** Acting on a plan: reserve, launch, and take the reservations back if the launch fails. */
  function Carry(pruned: Manager, plan: StartPlan, now: int, launchOk: bool): Evaluation {
    if plan.startCount <= 0 then Evaluation(pruned, Some(plan), false)
    else
      var added := Fresh(pruned.nextId, plan.startCount, now);
      var reserved := Manager(pruned.inflight + added, pruned.nextId + plan.startCount);
      if launchOk then Evaluation(reserved, Some(plan), true)
      else Evaluation(reserved.(inflight := Without(reserved.inflight, Ids(added))), Some(plan), false)
  }

  /** One evaluation; `launchOk` is what the launcher answers if it is asked. */
  function Evaluate(m: Manager, override: Option<Pattern>, now: int, cfg: Config, demand: Demand, launchOk: bool): Evaluation {
    match PatternFor(override, cfg.pattern)
    case None => Evaluation(m, None, false)
    case Some(pattern) =>
      var pruned := Prune(m, now, cfg.inflightStartTimeout);
      Carry(pruned, PlanWith(pattern, now, demand, pruned.inflight, cfg), now, launchOk)
  }

  /** A registering worker confirms the head of the list. */
  function Confirm(m: Manager): Manager {
    if m.inflight == [] then m else m.(inflight := m.inflight[1..])
  }

  datatype Event =
    | Evaluates(now: int, cfg: Config, demand: Demand, launchOk: bool)
    | Registers
    | Prunes(now: int, timeout: int)

  function Step(m: Manager, override: Option<Pattern>, e: Event): Manager {
    match e
    case Evaluates(now, cfg, demand, launchOk) => Evaluate(m, override, now, cfg, demand, launchOk).manager
    case Registers => Confirm(m)
    case Prunes(now, timeout) => Prune(m, now, timeout)
  }

  function Run(m: Manager, override: Option<Pattern>, events: seq<Event>): Manager
    decreases |events|
  {
    if events == [] then m else Run(Step(m, override, events[0]), override, events[1..])
  }

  const EMPTY := Manager([], 0)

  // ---------------------------------------------------------------------------------------
  // Reservation ids stay distinct

  ghost predicate IssuedBy(r: Reservation, nextId: nat) {
    exists n :: 1 <= n <= nextId && r.id == ReservationId(n)
  }

  ghost predicate Valid(m: Manager) {
    && (forall i :: 0 <= i < |m.inflight| ==> IssuedBy(m.inflight[i], m.nextId))
    && (forall i, j :: 0 <= i < j < |m.inflight| ==> m.inflight[i].id != m.inflight[j].id)
  }

  lemma ReservationIdInjective(m: nat, n: nat)
    requires ReservationId(m) == ReservationId(n)
    ensures m == n
  {
    assert ReservationId(m)[|"worker-start-"|..] == Decimal.OfNat(m);
    assert ReservationId(n)[|"worker-start-"|..] == Decimal.OfNat(n);
    Decimal.OfNatInjective(m, n);
  }

  lemma {:induction false} FreshLength(used: nat, count: nat, now: int)
    ensures |Fresh(used, count, now)| == count
    decreases count
  {
    if count > 0 {
      FreshLength(used + 1, count - 1, now);
    }
  }

  lemma {:induction false} FreshIth(used: nat, count: nat, now: int, i: nat)
    requires i < count == |Fresh(used, count, now)|
    ensures Fresh(used, count, now)[i] == Reservation(ReservationId(used + 1 + i), now)
    decreases count
  {
    if i > 0 {
      FreshIth(used + 1, count - 1, now, i - 1);
      assert used + 1 + 1 + (i - 1) == used + 1 + i;
    }
  }

  lemma FreshAt(used: nat, count: nat, now: int)
    ensures |Fresh(used, count, now)| == count
    ensures forall i :: 0 <= i < count ==> Fresh(used, count, now)[i] == Reservation(ReservationId(used + 1 + i), now)
  {
    FreshLength(used, count, now);
    forall i | 0 <= i < count
      ensures Fresh(used, count, now)[i] == Reservation(ReservationId(used + 1 + i), now)
    {
      FreshIth(used, count, now, i);
    }
  }

  /** Filters keep order, so they keep validity and sortedness: the result is given by an
      increasing choice of positions. */
  ghost predicate Selects(rs: seq<Reservation>, all: seq<Reservation>, at: seq<nat>) {
    && |at| == |rs|
    && (forall i :: 0 <= i < |at| ==> at[i] < |all| && rs[i] == all[at[i]])
    && (forall i, j :: 0 <= i < j < |at| ==> at[i] < at[j])
  }

  lemma {:induction false} UnexpiredSelects(rs: seq<Reservation>, now: int, timeout: int) returns (at: seq<nat>)
    ensures Selects(Unexpired(rs, now, timeout), rs, at)
    ensures forall r :: r in Unexpired(rs, now, timeout) <==> r in rs && !Expired(r, now, timeout)
  {
    if rs == [] {
      at := [];
    } else {
      var rest := UnexpiredSelects(rs[1..], now, timeout);
      var kept := Unexpired(rs[1..], now, timeout);
      var shifted := Shifted(rest);
      ShiftedSelects(kept, rs, rest);
      if Expired(rs[0], now, timeout) {
        at := shifted;
      } else {
        at := [0] + shifted;
        FirstSelects(kept, rs, shifted);
      }
      assert forall r :: r in rs <==> r == rs[0] || r in rs[1..];
    }
  }

  function Shifted(at: seq<nat>): seq<nat> {
    seq(|at|, i requires 0 <= i < |at| => at[i] + 1)
  }

  lemma ShiftedSelects(kept: seq<Reservation>, rs: seq<Reservation>, at: seq<nat>)
    requires rs != [] && Selects(kept, rs[1..], at)
    ensures Selects(kept, rs, Shifted(at)) && forall i :: 0 <= i < |at| ==> Shifted(at)[i] > 0
  {
  }

  lemma FirstSelects(kept: seq<Reservation>, rs: seq<Reservation>, at: seq<nat>)
    requires rs != [] && Selects(kept, rs, at) && forall i :: 0 <= i < |at| ==> at[i] > 0
    ensures Selects([rs[0]] + kept, rs, [0] + at)
  {
  }

  lemma {:induction false} SelectionNotLonger(rs: seq<Reservation>, all: seq<Reservation>, at: seq<nat>)
    requires Selects(rs, all, at)
    ensures |rs| <= |all|
  {
    if rs != [] {
      var last := at[|at| - 1];
      var front := at[..|at| - 1];
      assert Selects(rs[..|rs| - 1], all[..last], front);
      SelectionNotLonger(rs[..|rs| - 1], all[..last], front);
    }
  }

  lemma SelectionValid(m: Manager, rs: seq<Reservation>, at: seq<nat>)
    requires Valid(m) && Selects(rs, m.inflight, at)
    ensures Valid(m.(inflight := rs))
  {
    forall i, j | 0 <= i < j < |rs|
      ensures rs[i].id != rs[j].id
    {
      assert at[i] < at[j];
    }
  }

  /** Pruning keeps, in their order, exactly the reservations not older than the timeout; without a
      timeout it keeps them all. */
  lemma PruneExact(m: Manager, now: int, timeout: int) returns (at: seq<nat>)
    ensures Prune(m, now, timeout).nextId == m.nextId && Selects(Prune(m, now, timeout).inflight, m.inflight, at)
    ensures forall r :: r in Prune(m, now, timeout).inflight <==> r in m.inflight && (timeout <= 0 || now <= r.createdAt + timeout)
  {
    at := UnexpiredSelects(m.inflight, now, timeout);
  }

  lemma PruneValid(m: Manager, now: int, timeout: int)
    requires Valid(m)
    ensures Valid(Prune(m, now, timeout))
  {
    var at := UnexpiredSelects(m.inflight, now, timeout);
    SelectionValid(m, Unexpired(m.inflight, now, timeout), at);
  }

  /** Reservations numbered after the counter cannot clash with issued ones. */
  lemma FreshIsNew(m: Manager, n: nat, i: nat)
    requires Valid(m) && i < |m.inflight| && n > m.nextId
    ensures m.inflight[i].id != ReservationId(n)
  {
    assert IssuedBy(m.inflight[i], m.nextId);
    var k :| 1 <= k <= m.nextId && m.inflight[i].id == ReservationId(k);
    if m.inflight[i].id == ReservationId(n) {
      ReservationIdInjective(k, n);
    }
  }

  lemma ReservedIssued(m: Manager, count: nat, now: int, i: nat)
    requires Valid(m) && i < |m.inflight| + count
    ensures |Fresh(m.nextId, count, now)| == count
    ensures IssuedBy((m.inflight + Fresh(m.nextId, count, now))[i], m.nextId + count)
  {
    FreshAt(m.nextId, count, now);
    if i < |m.inflight| {
      assert IssuedBy(m.inflight[i], m.nextId);
    } else {
      var n := m.nextId + 1 + (i - |m.inflight|);
      assert (m.inflight + Fresh(m.nextId, count, now))[i].id == ReservationId(n) && 1 <= n <= m.nextId + count;
    }
  }

  lemma ReservedDistinct(m: Manager, count: nat, now: int, i: nat, j: nat)
    requires Valid(m) && i < j < |m.inflight| + count && |Fresh(m.nextId, count, now)| == count
    ensures
      var all := m.inflight + Fresh(m.nextId, count, now);
      all[i].id != all[j].id
  {
    FreshAt(m.nextId, count, now);
    var all := m.inflight + Fresh(m.nextId, count, now);
    if j >= |m.inflight| {
      var b := m.nextId + 1 + (j - |m.inflight|);
      if i < |m.inflight| {
        FreshIsNew(m, b, i);
      } else if all[i].id == all[j].id {
        ReservationIdInjective(m.nextId + 1 + (i - |m.inflight|), b);
      }
    }
  }

  lemma ReserveValid(m: Manager, count: nat, now: int)
    requires Valid(m)
    ensures Valid(Manager(m.inflight + Fresh(m.nextId, count, now), m.nextId + count))
  {
    FreshAt(m.nextId, count, now);
    var all := m.inflight + Fresh(m.nextId, count, now);
    forall i | 0 <= i < |all|
      ensures IssuedBy(all[i], m.nextId + count)
    {
      ReservedIssued(m, count, now, i);
    }
    forall i, j | 0 <= i < j < |all|
      ensures all[i].id != all[j].id
    {
      ReservedDistinct(m, count, now, i, j);
    }
  }

  lemma {:induction false} WithoutNone(rs: seq<Reservation>, ids: set<string>)
    requires forall r :: r in rs ==> r.id !in ids
    ensures Without(rs, ids) == rs
  {
    if rs != [] {
      assert rs == [rs[0]] + rs[1..];
      assert rs[0] in rs && forall r :: r in rs[1..] ==> r in rs;
      WithoutNone(rs[1..], ids);
    }
  }

  lemma {:induction false} WithoutAll(rs: seq<Reservation>, ids: set<string>)
    requires forall r :: r in rs ==> r.id in ids
    ensures Without(rs, ids) == []
  {
    if rs != [] {
      assert rs[0] in rs && forall r :: r in rs[1..] ==> r in rs;
      WithoutAll(rs[1..], ids);
    }
  }

  lemma {:induction false} WithoutConcat(rs: seq<Reservation>, ts: seq<Reservation>, ids: set<string>)
    ensures Without(rs + ts, ids) == Without(rs, ids) + Without(ts, ids)
  {
    if rs == [] {
      assert rs + ts == ts;
    } else {
      assert (rs + ts)[1..] == rs[1..] + ts;
      WithoutConcat(rs[1..], ts, ids);
    }
  }

  /** Taking the added reservations back leaves exactly what was there. */
  lemma RemoveUndoesReserve(m: Manager, count: nat, now: int)
    requires Valid(m)
    ensures
      var added := Fresh(m.nextId, count, now);
      Without(m.inflight + added, Ids(added)) == m.inflight
  {
    var added := Fresh(m.nextId, count, now);
    var ids := Ids(added);
    FreshAt(m.nextId, count, now);
    forall r | r in m.inflight
      ensures r.id !in ids
    {
      var i :| 0 <= i < |m.inflight| && m.inflight[i] == r;
      if r.id in ids {
        var f :| f in added && f.id == r.id;
        var j :| 0 <= j < |added| && added[j] == f;
        FreshIsNew(m, m.nextId + 1 + j, i);
      }
    }
    WithoutNone(m.inflight, ids);
    WithoutAll(added, ids);
    WithoutConcat(m.inflight, added, ids);
  }

  /** A failed launch restores the pruned list exactly, whatever the pattern planned. */
  lemma FailedLaunchRestores(m: Manager, override: Option<Pattern>, now: int, cfg: Config, demand: Demand)
    requires Valid(m) && PatternFor(override, cfg.pattern).Some?
    ensures Evaluate(m, override, now, cfg, demand, false).manager.inflight == Unexpired(m.inflight, now, cfg.inflightStartTimeout)
  {
    PruneValid(m, now, cfg.inflightStartTimeout);
    var pruned := Prune(m, now, cfg.inflightStartTimeout);
    var plan := PlanWith(PatternFor(override, cfg.pattern).value, now, demand, pruned.inflight, cfg);
    if plan.startCount > 0 {
      RemoveUndoesReserve(pruned, plan.startCount, now);
    }
  }

  lemma StepValid(m: Manager, override: Option<Pattern>, e: Event)
    requires Valid(m)
    ensures Valid(Step(m, override, e))
  {
    match e
    case Evaluates(now, cfg, demand, launchOk) =>
      PruneValid(m, now, cfg.inflightStartTimeout);
      if PatternFor(override, cfg.pattern).Some? {
        var pruned := Prune(m, now, cfg.inflightStartTimeout);
        var plan := PlanWith(PatternFor(override, cfg.pattern).value, now, demand, pruned.inflight, cfg);
        if plan.startCount > 0 {
          ReserveValid(pruned, plan.startCount, now);
          RemoveUndoesReserve(pruned, plan.startCount, now);
          forall i | 0 <= i < |pruned.inflight|
            ensures IssuedBy(pruned.inflight[i], pruned.nextId + plan.startCount)
          {
            assert IssuedBy(pruned.inflight[i], pruned.nextId);
          }
        }
      }
    case Registers =>
      if m.inflight != [] {
        SelectionValid(m, m.inflight[1..], seq(|m.inflight| - 1, i requires i >= 0 => i + 1));
      }
    case Prunes(now, timeout) =>
      PruneValid(m, now, timeout);
  }

  /** Over every run, with any pattern, the outstanding reservation ids are distinct. */
  lemma {:induction false} RunValid(m: Manager, override: Option<Pattern>, events: seq<Event>)
    requires Valid(m)
    ensures Valid(Run(m, override, events))
    decreases |events|
  {
    if events != [] {
      StepValid(m, override, events[0]);
      RunValid(Step(m, override, events[0]), override, events[1..]);
    }
  }

  // ---------------------------------------------------------------------------------------
  // The built-in patterns start one worker at a time, within the maximum

  /** The one-by-one pattern starts a worker only when nothing is in flight and there is both
      room and demand for it. */
  lemma OneByOneStarts(now: int, demand: Demand, inflight: seq<Reservation>, cfg: Config)
    ensures
      var plan := PlanOneByOne(now, demand, inflight, cfg);
      && 0 <= plan.startCount <= 1
      && (plan.startCount == 1 <==>
            && (forall r :: r in inflight ==> 0 < cfg.inflightStartTimeout && r.createdAt + cfg.inflightStartTimeout < now)
            && demand.pendingClaimable > 0
            && (cfg.maxActiveWorkers > 0 ==> demand.liveWorkerSessions < cfg.maxActiveWorkers)
            && demand.liveWorkerSessions < demand.runningAttempts + demand.pendingClaimable)
  {
    var at := UnexpiredSelects(inflight, now, cfg.inflightStartTimeout);
    var unexpired := Unexpired(inflight, now, cfg.inflightStartTimeout);
    assert unexpired != [] ==> unexpired[0] in unexpired;
  }

  lemma CarryOne(pruned: Manager, plan: StartPlan, now: int, launchOk: bool)
    requires Valid(pruned) && plan.startCount <= 1
    requires if plan.startCount == 1 then pruned.inflight == [] else |pruned.inflight| <= 1
    ensures
      var e := Carry(pruned, plan, now, launchOk);
      && |e.manager.inflight| <= 1
      && (e.launched ==> plan.startCount == 1 && |e.manager.inflight| == 1)
  {
    if plan.startCount == 1 {
      FreshAt(pruned.nextId, 1, now);
      RemoveUndoesReserve(pruned, 1, now);
    }
  }

  /** With no pattern override: an evaluation that launches leaves one reservation, and live
      sessions plus reservations within the configured maximum. */
  lemma BuiltInEvaluation(m: Manager, now: int, cfg: Config, demand: Demand, launchOk: bool)
    requires Valid(m) && |m.inflight| <= 1
    ensures
      var e := Evaluate(m, None, now, cfg, demand, launchOk);
      && |e.manager.inflight| <= 1
      && (e.launched ==>
            && |e.manager.inflight| == 1
            && (cfg.maxActiveWorkers > 0 ==> demand.liveWorkerSessions + |e.manager.inflight| <= cfg.maxActiveWorkers)
            && demand.liveWorkerSessions < demand.runningAttempts + demand.pendingClaimable)
  {
    PrunedOne(m, now, cfg.inflightStartTimeout);
    if PatternFor(None, cfg.pattern) == Some(OneByOne) {
      OneByOneCarried(Prune(m, now, cfg.inflightStartTimeout), now, cfg, demand, launchOk);
    }
  }

  lemma PrunedOne(m: Manager, now: int, timeout: int)
    requires Valid(m) && |m.inflight| <= 1
    ensures Valid(Prune(m, now, timeout)) && |Prune(m, now, timeout).inflight| <= 1
    ensures forall r :: r in Prune(m, now, timeout).inflight ==> timeout <= 0 || now <= r.createdAt + timeout
  {
    var at := PruneExact(m, now, timeout);
    SelectionNotLonger(Unexpired(m.inflight, now, timeout), m.inflight, at);
    PruneValid(m, now, timeout);
  }

  lemma OneByOneCarried(pruned: Manager, now: int, cfg: Config, demand: Demand, launchOk: bool)
    requires Valid(pruned) && |pruned.inflight| <= 1
    requires forall r :: r in pruned.inflight ==> cfg.inflightStartTimeout <= 0 || now <= r.createdAt + cfg.inflightStartTimeout
    ensures
      var e := Carry(pruned, PlanOneByOne(now, demand, pruned.inflight, cfg), now, launchOk);
      && |e.manager.inflight| <= 1
      && (e.launched ==>
            && |e.manager.inflight| == 1
            && (cfg.maxActiveWorkers > 0 ==> demand.liveWorkerSessions < cfg.maxActiveWorkers)
            && demand.liveWorkerSessions < demand.runningAttempts + demand.pendingClaimable)
  {
    OneByOneStarts(now, demand, pruned.inflight, cfg);
    assert pruned.inflight != [] ==> pruned.inflight[0] in pruned.inflight;
    CarryOne(pruned, PlanOneByOne(now, demand, pruned.inflight, cfg), now, launchOk);
  }

  /** What the configured names do when there is no override: the null pattern starts nobody, an unknown
      name changes nothing, and otherwise a worker is started exactly when the launcher agrees, nothing
      is in flight any more and there is room and demand. */
  lemma PatternsByName(m: Manager, now: int, cfg: Config, demand: Demand, launchOk: bool)
    ensures
      var e := Evaluate(m, None, now, cfg, demand, launchOk);
      && (cfg.pattern == "null" ==> !e.launched && e.manager == Prune(m, now, cfg.inflightStartTimeout))
      && (cfg.pattern !in {"", "null", "one_by_one_until_saturated"} ==> e == Evaluation(m, None, false))
      && (cfg.pattern in {"", "one_by_one_until_saturated"} ==>
            (e.launched <==>
               && launchOk
               && (forall r :: r in m.inflight ==> 0 < cfg.inflightStartTimeout && r.createdAt + cfg.inflightStartTimeout < now)
               && demand.pendingClaimable > 0
               && (cfg.maxActiveWorkers > 0 ==> demand.liveWorkerSessions < cfg.maxActiveWorkers)
               && demand.liveWorkerSessions < demand.runningAttempts + demand.pendingClaimable))
  {
    var at := PruneExact(m, now, cfg.inflightStartTimeout);
    OneByOneStarts(now, demand, Prune(m, now, cfg.inflightStartTimeout).inflight, cfg);
  }

  // ---------------------------------------------------------------------------------------
  // No second start while the first worker may still register

  /** The number of evaluations of a run that launch. */
  function Launches(m: Manager, override: Option<Pattern>, events: seq<Event>): nat
    decreases |events|
  {
    if events == [] then 0
    else
      var e := events[0];
      (if e.Evaluates? && Evaluate(m, override, e.now, e.cfg, e.demand, e.launchOk).launched then 1 else 0)
      + Launches(Step(m, override, e), override, events[1..])
  }

  /** Nobody registers, and no event comes when a reservation made at this time has expired. */
  predicate WithinTimeout(events: seq<Event>, created: int) {
    forall i :: 0 <= i < |events| ==>
      match events[i]
      case Evaluates(now, cfg, _, _) => cfg.inflightStartTimeout <= 0 || now <= created + cfg.inflightStartTimeout
      case Registers => false
      case Prunes(now, timeout) => timeout <= 0 || now <= created + timeout
  }

  lemma StepKeepsFresh(m: Manager, e: Event, r: Reservation)
    requires Valid(m) && r in m.inflight && WithinTimeout([e], r.createdAt)
    ensures r in Step(m, None, e).inflight
    ensures e.Evaluates? ==> !Evaluate(m, None, e.now, e.cfg, e.demand, e.launchOk).launched
  {
    assert [e][0] == e;
    match e
    case Evaluates(now, cfg, demand, launchOk) =>
      var at := PruneExact(m, now, cfg.inflightStartTimeout);
      PatternsByName(m, now, cfg, demand, launchOk);
      OneByOneStarts(now, demand, Prune(m, now, cfg.inflightStartTimeout).inflight, cfg);
    case Prunes(now, timeout) =>
      var at := PruneExact(m, now, timeout);
  }

  lemma {:induction false} FreshBlocksStarts(m: Manager, events: seq<Event>, r: Reservation)
    requires Valid(m) && r in m.inflight && WithinTimeout(events, r.createdAt)
    ensures Launches(m, None, events) == 0 && r in Run(m, None, events).inflight
    decreases |events|
  {
    if events != [] {
      assert WithinTimeout([events[0]], r.createdAt) && WithinTimeout(events[1..], r.createdAt);
      StepKeepsFresh(m, events[0], r);
      StepValid(m, None, events[0]);
      FreshBlocksStarts(Step(m, None, events[0]), events[1..], r);
    }
  }

  /** With the built-in patterns, after a launch no evaluation launches again until a worker registers
      or the timeout has passed. */
  lemma NoSecondStart(m: Manager, now: int, cfg: Config, demand: Demand, events: seq<Event>)
    requires Valid(m) && Evaluate(m, None, now, cfg, demand, true).launched && WithinTimeout(events, now)
    ensures Launches(Evaluate(m, None, now, cfg, demand, true).manager, None, events) == 0
  {
    var e := Evaluate(m, None, now, cfg, demand, true);
    var pruned := Prune(m, now, cfg.inflightStartTimeout);
    OneByOneStarts(now, demand, pruned.inflight, cfg);
    FreshAt(pruned.nextId, 1, now);
    StepValid(m, None, Evaluates(now, cfg, demand, true));
    var r := Fresh(pruned.nextId, 1, now)[0];
    assert r in e.manager.inflight && r.createdAt == now;
    FreshBlocksStarts(e.manager, events, r);
  }

  /** At most one start is ever in flight under the built-in patterns. */
  lemma {:induction false} RunKeepsOneInflight(m: Manager, events: seq<Event>)
    requires Valid(m) && |m.inflight| <= 1
    ensures |Run(m, None, events).inflight| <= 1
    decreases |events|
  {
    if events != [] {
      var e := events[0];
      StepValid(m, None, e);
      match e {
        case Evaluates(now, cfg, demand, launchOk) => BuiltInEvaluation(m, now, cfg, demand, launchOk);
        case Registers =>
        case Prunes(now, timeout) =>
          var at := UnexpiredSelects(m.inflight, now, timeout);
          SelectionNotLonger(Unexpired(m.inflight, now, timeout), m.inflight, at);
      }
      RunKeepsOneInflight(Step(m, None, e), events[1..]);
    }
  }

  // ---------------------------------------------------------------------------------------
  // Registration confirms the oldest reservation

  ghost predicate Ordered(m: Manager, latest: int) {
    && (forall i, j :: 0 <= i < j < |m.inflight| ==> m.inflight[i].createdAt <= m.inflight[j].createdAt)
    && (forall i :: 0 <= i < |m.inflight| ==> m.inflight[i].createdAt <= latest)
  }

  function TimeOf(e: Event, latest: int): int {
    match e
    case Evaluates(now, _, _, _) => now
    case Registers => latest
    case Prunes(now, _) => now
  }

  predicate MonotoneClock(events: seq<Event>, latest: int)
    decreases |events|
  {
    events == [] || (latest <= TimeOf(events[0], latest) && MonotoneClock(events[1..], TimeOf(events[0], latest)))
  }

  function LastTime(events: seq<Event>, latest: int): int
    decreases |events|
  {
    if events == [] then latest else LastTime(events[1..], TimeOf(events[0], latest))
  }

  lemma SelectionOrdered(m: Manager, rs: seq<Reservation>, at: seq<nat>, latest: int)
    requires Ordered(m, latest) && Selects(rs, m.inflight, at)
    ensures Ordered(m.(inflight := rs), latest)
  {
    forall i, j | 0 <= i < j < |rs|
      ensures rs[i].createdAt <= rs[j].createdAt
    {
      assert at[i] < at[j];
    }
  }

  lemma EvaluateOrdered(m: Manager, override: Option<Pattern>, now: int, cfg: Config, demand: Demand, launchOk: bool, latest: int)
    requires Valid(m) && Ordered(m, latest) && latest <= now
    ensures Ordered(Evaluate(m, override, now, cfg, demand, launchOk).manager, now)
  {
    if PatternFor(override, cfg.pattern).Some? {
      var pruned := Prune(m, now, cfg.inflightStartTimeout);
      assert Ordered(pruned, latest) by {
        var at := UnexpiredSelects(m.inflight, now, cfg.inflightStartTimeout);
        SelectionOrdered(m, pruned.inflight, at, latest);
      }
      assert Valid(pruned) by { PruneValid(m, now, cfg.inflightStartTimeout); }
      var plan := PlanWith(PatternFor(override, cfg.pattern).value, now, demand, pruned.inflight, cfg);
      if plan.startCount > 0 {
        FreshAt(pruned.nextId, plan.startCount, now);
        RemoveUndoesReserve(pruned, plan.startCount, now);
      }
    }
  }

  lemma StepOrdered(m: Manager, override: Option<Pattern>, e: Event, latest: int)
    requires Valid(m) && Ordered(m, latest) && latest <= TimeOf(e, latest)
    ensures Ordered(Step(m, override, e), TimeOf(e, latest))
  {
    match e
    case Evaluates(now, cfg, demand, launchOk) =>
      EvaluateOrdered(m, override, now, cfg, demand, launchOk, latest);
    case Registers =>
    case Prunes(now, timeout) =>
      var at := UnexpiredSelects(m.inflight, now, timeout);
      SelectionOrdered(m, Unexpired(m.inflight, now, timeout), at, latest);
  }

  /** If the clock never goes back then, with any pattern, the reservation a registering worker
      confirms is a longest-waiting one. */
  lemma {:induction false} ConfirmedIsOldest(m: Manager, override: Option<Pattern>, events: seq<Event>, latest: int)
    requires Valid(m) && Ordered(m, latest) && MonotoneClock(events, latest)
    ensures
      var m' := Run(m, override, events);
      m'.inflight != [] ==> forall r :: r in m'.inflight ==> m'.inflight[0].createdAt <= r.createdAt
    ensures Ordered(Run(m, override, events), LastTime(events, latest))
    decreases |events|
  {
    if events != [] {
      StepValid(m, override, events[0]);
      StepOrdered(m, override, events[0], latest);
      ConfirmedIsOldest(Step(m, override, events[0]), override, events[1..], TimeOf(events[0], latest));
    }
  }

  // ---------------------------------------------------------------------------------------
  // The manager object

  lemma {:induction false} UnexpiredConcat(rs: seq<Reservation>, ts: seq<Reservation>, now: int, timeout: int)
    ensures Unexpired(rs + ts, now, timeout) == Unexpired(rs, now, timeout) + Unexpired(ts, now, timeout)
  {
    if rs == [] {
      assert rs + ts == ts;
    } else {
      assert (rs + ts)[1..] == rs[1..] + ts;
      UnexpiredConcat(rs[1..], ts, now, timeout);
    }
  }

  lemma {:induction false} FreshConcat(used: nat, count: nat, now: int)
    ensures Fresh(used, count + 1, now) == Fresh(used, count, now) + [Reservation(ReservationId(used + count + 1), now)]
    decreases count
  {
    var last := Reservation(ReservationId(used + count + 1), now);
    if count > 0 {
      FreshConcat(used + 1, count - 1, now);
      var first := [Reservation(ReservationId(used + 1), now)];
      assert used + 1 + (count - 1) + 1 == used + count + 1;
      assert Fresh(used, count + 1, now) == first + Fresh(used + 1, count, now);
      assert first + (Fresh(used + 1, count - 1, now) + [last]) == (first + Fresh(used + 1, count - 1, now)) + [last];
    } else {
      assert Fresh(used + 1, 0, now) == [];
    }
  }

  class WorkerCapacityManager {
    var inflight: seq<Reservation>
    var nextId: nat
    const override: Option<Pattern>

    ghost function Contents(): Manager
      reads this
    {
      Manager(inflight, nextId)
    }

    constructor (override: Option<Pattern>)
      ensures Contents() == EMPTY && this.override == override
    {
      inflight, nextId := [], 0;
      this.override := override;
    }

    method PruneExpiredInflightStarts(now: int, timeout: int)
      modifies this
      ensures Contents() == Prune(old(Contents()), now, timeout)
      ensures forall r :: r in inflight <==> r in old(inflight) && (timeout <= 0 || now <= r.createdAt + timeout)
    {
      ghost var at := PruneExact(Contents(), now, timeout);
      if timeout <= 0 {
        KeepsAll(inflight, now, timeout);
        return;
      }
      var unexpired := [];
      var i := 0;
      while i < |inflight|
        invariant 0 <= i <= |inflight|
        invariant unexpired == Unexpired(inflight[..i], now, timeout)
        invariant Contents() == old(Contents())
      {
        assert inflight[..i + 1] == inflight[..i] + [inflight[i]];
        UnexpiredConcat(inflight[..i], [inflight[i]], now, timeout);
        if now - inflight[i].createdAt <= timeout {
          unexpired := unexpired + [inflight[i]];
        }
        i := i + 1;
      }
      assert inflight[..i] == inflight;
      inflight := unexpired;
    }

    method ReserveInflightStarts(now: int, count: nat) returns (reservations: seq<Reservation>)
      modifies this
      ensures reservations == Fresh(old(nextId), count, now)
      ensures Contents() == Manager(old(inflight) + reservations, old(nextId) + count)
    {
      reservations := [];
      var i := 0;
      while i < count
        invariant 0 <= i <= count
        invariant reservations == Fresh(old(nextId), i, now)
        invariant nextId == old(nextId) + i
        invariant inflight == old(inflight) + reservations
      {
        nextId := nextId + 1;
        var reservation := Reservation(ReservationId(nextId), now);
        FreshConcat(old(nextId), i, now);
        inflight := inflight + [reservation];
        reservations := reservations + [reservation];
        i := i + 1;
      }
    }

    method RemoveInflightReservations(reservations: seq<Reservation>)
      modifies this
      ensures Contents() == old(Contents()).(inflight := Without(old(inflight), Ids(reservations)))
    {
      var remove := set r | r in reservations :: r.id;
      var kept := [];
      var i := 0;
      while i < |inflight|
        invariant 0 <= i <= |inflight|
        invariant kept == Without(inflight[..i], remove)
        invariant Contents() == old(Contents())
      {
        assert inflight[..i + 1] == inflight[..i] + [inflight[i]];
        WithoutConcat(inflight[..i], [inflight[i]], remove);
        if inflight[i].id !in remove {
          kept := kept + [inflight[i]];
        }
        i := i + 1;
      }
      assert inflight[..i] == inflight;
      inflight := kept;
    }

    method EvaluateDemand(now: int, cfg: Config, demand: Demand, launchOk: bool) returns (plan: Option<StartPlan>, launched: bool)
      modifies this
      ensures Evaluation(Contents(), plan, launched) == Evaluate(old(Contents()), override, now, cfg, demand, launchOk)
    {
      var pattern := PatternFor(override, cfg.pattern);
      if pattern.None? {
        return None, false;
      }
      PruneExpiredInflightStarts(now, cfg.inflightStartTimeout);
      var chosen := PlanWith(pattern.value, now, demand, inflight, cfg);
      if chosen.startCount <= 0 {
        return Some(chosen), false;
      }
      var reservations := ReserveInflightStarts(now, chosen.startCount);
      if !launchOk {
        RemoveInflightReservations(reservations);
        return Some(chosen), false;
      }
      return Some(chosen), true;
    }

    method ConfirmOldestInflightStartRegistered() returns (confirmed: bool)
      modifies this
      ensures confirmed <==> old(inflight) != []
      ensures Contents() == Confirm(old(Contents()))
    {
      if inflight == [] {
        return false;
      }
      inflight := inflight[1..];
      return true;
    }
  }

  lemma {:induction false} KeepsAll(rs: seq<Reservation>, now: int, timeout: int)
    requires timeout <= 0
    ensures Unexpired(rs, now, timeout) == rs
  {
    if rs != [] {
      assert rs == [rs[0]] + rs[1..];
      KeepsAll(rs[1..], now, timeout);
    }
  }
}

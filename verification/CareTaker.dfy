/** The caretaker's reconcile pass: retry back-off and the choice of the next wake-up time.

    Durations are 64-bit nanosecond counts; doubling one wraps around like the machine integer it
    is.  Instants are integers with 0 for the zero time, which stands for "none". */
module CareTaker {
  import opened Wrappers
  import opened WorkerCapacity

  const MAX_INT64: int := 0x7fff_ffff_ffff_ffff
  const TWO_TO_64: int := 0x1_0000_0000_0000_0000

  predicate IsInt64(x: int) {
    -MAX_INT64 - 1 <= x <= MAX_INT64
  }

  /** The value a 64-bit signed integer holds after an operation whose exact result is x. */
  function Wrap64(x: int): int {
    var r := x % TWO_TO_64;
    if r > MAX_INT64 then r - TWO_TO_64 else r
  }

  datatype CareTakerConfig = CareTakerConfig(
    deadAfter: int, inflightStartTimeout: int, fallbackInterval: int, retryInitial: int, retryMaximum: int,
    workerExecution: WorkerCapacity.Config)

  function NextDelay(cfg: CareTakerConfig, delay: int): int {
    if cfg.retryInitial <= 0 then 0
    else if delay <= 0 then cfg.retryInitial
    else
      var doubled := Wrap64(delay * 2);
      if cfg.retryMaximum > 0 && doubled > cfg.retryMaximum then cfg.retryMaximum else doubled
  }

  /** The retry delay after a history of reconcile passes, oldest first; true is a failed one. */
  function DelayAfter(cfg: CareTakerConfig, failed: seq<bool>): int {
    if failed == [] then 0
    else if failed[|failed| - 1] then NextDelay(cfg, DelayAfter(cfg, failed[..|failed| - 1]))
    else 0
  }

  function TrailingFailures(failed: seq<bool>): nat {
    if failed != [] && failed[|failed| - 1] then TrailingFailures(failed[..|failed| - 1]) + 1 else 0
  }

  function Pow2(k: nat): nat {
    if k == 0 then 1 else 2 * Pow2(k - 1)
  }

  function Min(a: int, b: int): int {
    if a <= b then a else b
  }

  /** Capped exponential back-off: what the delay is meant to be after k failures in a row. */
  function CappedExponential(cfg: CareTakerConfig, k: nat): int {
    if k == 0 then 0 else Min(cfg.retryInitial * Pow2(k - 1), cfg.retryMaximum)
  }

  function Failures(k: nat): seq<bool> {
    seq(k, i => true)
  }

  lemma WrapIsIdentity(x: int)
    requires IsInt64(x)
    ensures Wrap64(x) == x
  {
  }

  lemma DoubleCapped(cfg: CareTakerConfig, k: nat)
    requires 0 < cfg.retryInitial <= cfg.retryMaximum && 2 * cfg.retryMaximum <= MAX_INT64 && k >= 1
    ensures NextDelay(cfg, CappedExponential(cfg, k)) == CappedExponential(cfg, k + 1)
  {
    var p := Pow2(k - 1);
    Pow2Positive(k - 1);
    DoubledProduct(cfg.retryInitial, p);
    assert Pow2(k) == 2 * p;
    DoubleMin(cfg, cfg.retryInitial * p);
  }

  lemma DoubledProduct(a: int, p: nat)
    requires a >= 1 && p >= 1
    ensures a * (2 * p) == 2 * (a * p) && a * p >= p
  {
    assert (a - 1) * p >= 0;
  }

  /** Doubling a capped delay and capping again. */
  lemma DoubleMin(cfg: CareTakerConfig, raw: int)
    requires 0 < cfg.retryInitial && 0 < cfg.retryMaximum && 2 * cfg.retryMaximum <= MAX_INT64 && raw >= 1
    ensures NextDelay(cfg, Min(raw, cfg.retryMaximum)) == Min(2 * raw, cfg.retryMaximum)
  {
    WrapIsIdentity(2 * Min(raw, cfg.retryMaximum));
  }

  lemma {:induction false} Pow2Positive(k: nat)
    ensures Pow2(k) >= 1 && Pow2(k) > k
  {
    if k > 0 {
      Pow2Positive(k - 1);
    }
  }

  /** After any history the delay is the capped exponential of the number of failures since the
      last success, when the cap is at least the initial delay and doubling it does not overflow. */
  lemma {:induction false} BackoffIsCappedExponential(cfg: CareTakerConfig, failed: seq<bool>)
    requires 0 < cfg.retryInitial <= cfg.retryMaximum && 2 * cfg.retryMaximum <= MAX_INT64
    ensures DelayAfter(cfg, failed) == CappedExponential(cfg, TrailingFailures(failed))
  {
    if failed != [] {
      var front := failed[..|failed| - 1];
      BackoffIsCappedExponential(cfg, front);
      if failed[|failed| - 1] && TrailingFailures(front) > 0 {
        DoubleCapped(cfg, TrailingFailures(front));
      }
    }
  }

  lemma {:induction false} TrailingAll(k: nat)
    ensures TrailingFailures(Failures(k)) == k
  {
    if k > 0 {
      assert Failures(k)[..k - 1] == Failures(k - 1);
      TrailingAll(k - 1);
    }
  }

  /** The condition is exact: with a smaller cap, or with a cap whose double overflows, some number
      of consecutive failures gives a delay other than the capped exponential. */
  lemma BackoffConditionIsExact(cfg: CareTakerConfig)
    requires 0 < cfg.retryInitial <= MAX_INT64 && 0 < cfg.retryMaximum <= MAX_INT64
    ensures (forall k: nat :: DelayAfter(cfg, Failures(k)) == CappedExponential(cfg, k))
            <==> (cfg.retryInitial <= cfg.retryMaximum && 2 * cfg.retryMaximum <= MAX_INT64)
  {
    if cfg.retryInitial <= cfg.retryMaximum && 2 * cfg.retryMaximum <= MAX_INT64 {
      forall k: nat
        ensures DelayAfter(cfg, Failures(k)) == CappedExponential(cfg, k)
      {
        BackoffIsCappedExponential(cfg, Failures(k));
        TrailingAll(k);
      }
    } else if cfg.retryInitial > cfg.retryMaximum {
      assert Failures(1)[..0] == [];
      assert DelayAfter(cfg, Failures(1)) != CappedExponential(cfg, 1);
    } else if DelayAfter(cfg, Failures(cfg.retryMaximum)) == CappedExponential(cfg, cfg.retryMaximum) {
      var k := cfg.retryMaximum;
      ReachesCap(cfg, k);
      assert Failures(k + 1)[..k] == Failures(k);
      DoublingOverflows(cfg);
      ReachesCap(cfg, k + 1);
      assert DelayAfter(cfg, Failures(k + 1)) != CappedExponential(cfg, k + 1);
    }
  }

  lemma ReachesCap(cfg: CareTakerConfig, k: nat)
    requires 0 < cfg.retryInitial && 0 < cfg.retryMaximum <= k
    ensures CappedExponential(cfg, k) == cfg.retryMaximum
  {
    Pow2Positive(k - 1);
    DoubledProduct(cfg.retryInitial, Pow2(k - 1));
  }

  lemma DoublingOverflows(cfg: CareTakerConfig)
    requires 0 < cfg.retryInitial && 0 < cfg.retryMaximum <= MAX_INT64 < 2 * cfg.retryMaximum
    ensures NextDelay(cfg, cfg.retryMaximum) < 0
  {
    assert Wrap64(cfg.retryMaximum * 2) == cfg.retryMaximum * 2 - TWO_TO_64;
  }

  // ---------------------------------------------------------------------------------------
  // The next wake-up

  datatype Wake = Wake(at: int, reason: string)

  const NO_WAKE := Wake(0, "")

  datatype Snapshot = Snapshot(demand: Demand, earliestHeartbeat: int)

  const EMPTY_SNAPSHOT := Snapshot(Demand(0, 0, 0, 0), 0)

  /** The delay the retry candidate uses: forced into [initial, maximum]. */
  function RetryIn(cfg: CareTakerConfig, delay: int): int {
    var capped := if cfg.retryMaximum > 0 && delay > cfg.retryMaximum then cfg.retryMaximum else delay;
    if cfg.retryInitial > 0 && capped < cfg.retryInitial then cfg.retryInitial else capped
  }

  function Expiries(cfg: CareTakerConfig, inflight: seq<Reservation>): seq<Wake> {
    seq(|inflight|, i requires 0 <= i < |inflight| => Wake(inflight[i].createdAt + cfg.inflightStartTimeout, "inflight_start_expiry"))
  }

  function When(condition: bool, wakes: seq<Wake>): seq<Wake> {
    if condition then wakes else []
  }

  function ExpiryCandidates(cfg: CareTakerConfig, snapshot: Snapshot, inflight: seq<Reservation>): seq<Wake> {
    When(cfg.deadAfter > 0 && snapshot.earliestHeartbeat != 0, [Wake(snapshot.earliestHeartbeat + cfg.deadAfter, "worker_expiry")])
    + When(cfg.inflightStartTimeout > 0, Expiries(cfg, inflight))
  }

  /** Everything the next wake-up has to take into account, in the order it is looked at. */
  function Candidates(now: int, cfg: CareTakerConfig, snapshot: Snapshot, inflight: seq<Reservation>, retryDelay: int): seq<Wake> {
    ExpiryCandidates(cfg, snapshot, inflight)
    + When(retryDelay > 0, [Wake(now + RetryIn(cfg, retryDelay), "retry")])
    + When(cfg.fallbackInterval > 0, [Wake(now + cfg.fallbackInterval, "fallback_sweep")])
  }

  function Clamp(now: int, at: int): int {
    if at < now then now else at
  }

  /** `next` is the earliest candidate, none counted before now, the first one in case of a tie;
      it is absent exactly when no candidate is a real instant. */
  ghost predicate IsEarliest(next: Wake, now: int, candidates: seq<Wake>) {
    if forall i :: 0 <= i < |candidates| ==> candidates[i].at == 0 then next == NO_WAKE
    else exists i :: 0 <= i < |candidates| && IsFirstMinimum(next, now, candidates, i)
  }

  ghost predicate IsFirstMinimum(next: Wake, now: int, candidates: seq<Wake>, i: int)
    requires 0 <= i < |candidates|
  {
    && candidates[i].at != 0
    && next == Wake(Clamp(now, candidates[i].at), candidates[i].reason)
    && (forall j :: 0 <= j < |candidates| && candidates[j].at != 0 ==> next.at <= Clamp(now, candidates[j].at))
    && (forall j :: 0 <= j < i && candidates[j].at != 0 ==> next.at < Clamp(now, candidates[j].at))
  }

  /** The instants at which something is due, and why: the longest-silent worker expires, a reservation
      expires, the retry delay, forced into [initial, maximum], is over, or the sweep comes round. */
  ghost predicate Due(at: int, reason: string, now: int, cfg: CareTakerConfig, snapshot: Snapshot, inflight: seq<Reservation>, retryDelay: int) {
    || (reason == "worker_expiry" && cfg.deadAfter > 0 && snapshot.earliestHeartbeat != 0 && at - cfg.deadAfter == snapshot.earliestHeartbeat)
    || (reason == "inflight_start_expiry" && cfg.inflightStartTimeout > 0
        && exists r :: r in inflight && at - cfg.inflightStartTimeout == r.createdAt)
    || (reason == "retry" && retryDelay > 0
        && var capped := if 0 < cfg.retryMaximum < retryDelay then cfg.retryMaximum else retryDelay;
           at - now == if capped < cfg.retryInitial then cfg.retryInitial else capped)
    || (reason == "fallback_sweep" && cfg.fallbackInterval > 0 && at - now == cfg.fallbackInterval)
  }

  lemma CandidatesAreDue(now: int, cfg: CareTakerConfig, snapshot: Snapshot, inflight: seq<Reservation>, retryDelay: int, w: Wake)
    ensures w in Candidates(now, cfg, snapshot, inflight, retryDelay) <==> Due(w.at, w.reason, now, cfg, snapshot, inflight, retryDelay)
  {
    ExpiriesListed(cfg, inflight, w);
  }

  lemma ExpiriesListed(cfg: CareTakerConfig, inflight: seq<Reservation>, w: Wake)
    ensures w in Expiries(cfg, inflight) <==>
            w.reason == "inflight_start_expiry" && exists r :: r in inflight && w.at - cfg.inflightStartTimeout == r.createdAt
  {
    if w.reason == "inflight_start_expiry" && exists r :: r in inflight && w.at - cfg.inflightStartTimeout == r.createdAt {
      var r :| r in inflight && w.at - cfg.inflightStartTimeout == r.createdAt;
      var i :| 0 <= i < |inflight| && inflight[i] == r;
      assert Expiries(cfg, inflight)[i] == w;
    }
  }

  /** The earliest instant due, or now if it has passed, with its reason; none if nothing is due. */
  ghost predicate IsNextWake(next: Wake, now: int, cfg: CareTakerConfig, snapshot: Snapshot, inflight: seq<Reservation>, retryDelay: int) {
    && (forall at, reason :: at != 0 && Due(at, reason, now, cfg, snapshot, inflight, retryDelay) ==> now <= next.at && (next.at <= now || next.at <= at))
    && (next == NO_WAKE || exists at :: at != 0 && Due(at, next.reason, now, cfg, snapshot, inflight, retryDelay)
                                       && next.at == if at < now then now else at)
  }

  lemma EarliestIsNextWake(next: Wake, now: int, cfg: CareTakerConfig, snapshot: Snapshot, inflight: seq<Reservation>, retryDelay: int)
    requires now > 0
    requires IsEarliest(next, now, Candidates(now, cfg, snapshot, inflight, retryDelay))
    ensures IsNextWake(next, now, cfg, snapshot, inflight, retryDelay)
  {
    var cs := Candidates(now, cfg, snapshot, inflight, retryDelay);
    forall at, reason | at != 0 && Due(at, reason, now, cfg, snapshot, inflight, retryDelay)
      ensures now <= next.at && (next.at <= now || next.at <= at)
    {
      CandidatesAreDue(now, cfg, snapshot, inflight, retryDelay, Wake(at, reason));
      assert Wake(at, reason) in cs;
    }
    if next != NO_WAKE {
      var i :| 0 <= i < |cs| && IsFirstMinimum(next, now, cs, i);
      CandidatesAreDue(now, cfg, snapshot, inflight, retryDelay, cs[i]);
    }
  }

  /** What a caller can rely on: a wake-up is never in the past and never later than the expiry of
      the longest-silent worker, of any outstanding reservation, the retry or the fallback sweep. */
  lemma WakeIsSoonEnough(next: Wake, now: int, cfg: CareTakerConfig, snapshot: Snapshot, inflight: seq<Reservation>, retryDelay: int)
    requires now > 0
    requires IsNextWake(next, now, cfg, snapshot, inflight, retryDelay)
    ensures next != NO_WAKE ==> next.at >= now
    ensures cfg.deadAfter > 0 && snapshot.earliestHeartbeat != 0 && snapshot.earliestHeartbeat + cfg.deadAfter != 0 ==>
      now <= next.at <= Clamp(now, snapshot.earliestHeartbeat + cfg.deadAfter)
    ensures cfg.inflightStartTimeout > 0 ==>
      forall r :: r in inflight && r.createdAt + cfg.inflightStartTimeout != 0 ==>
        now <= next.at <= Clamp(now, r.createdAt + cfg.inflightStartTimeout)
    ensures retryDelay > 0 && cfg.retryInitial <= retryDelay && (cfg.retryMaximum <= 0 || retryDelay <= cfg.retryMaximum) ==>
      next.at <= now + retryDelay
    ensures 0 < retryDelay < cfg.retryInitial ==> next.at <= now + cfg.retryInitial
    ensures 0 < cfg.retryMaximum < retryDelay && cfg.retryInitial <= cfg.retryMaximum ==> next.at <= now + cfg.retryMaximum
    ensures cfg.fallbackInterval > 0 ==> next.at <= now + cfg.fallbackInterval
    ensures next == NO_WAKE <==> forall at, reason :: Due(at, reason, now, cfg, snapshot, inflight, retryDelay) ==> at == 0
  {
    assert cfg.deadAfter > 0 && snapshot.earliestHeartbeat != 0 ==>
      Due(snapshot.earliestHeartbeat + cfg.deadAfter, "worker_expiry", now, cfg, snapshot, inflight, retryDelay);
    if cfg.inflightStartTimeout > 0 {
      forall r | r in inflight && r.createdAt + cfg.inflightStartTimeout != 0
        ensures now <= next.at <= Clamp(now, r.createdAt + cfg.inflightStartTimeout)
      {
        assert Due(r.createdAt + cfg.inflightStartTimeout, "inflight_start_expiry", now, cfg, snapshot, inflight, retryDelay);
      }
    }
    var capped := if 0 < cfg.retryMaximum < retryDelay then cfg.retryMaximum else retryDelay;
    var delay := if capped < cfg.retryInitial then cfg.retryInitial else capped;
    assert retryDelay > 0 ==> Due(now + delay, "retry", now, cfg, snapshot, inflight, retryDelay);
    assert cfg.fallbackInterval > 0 ==> Due(now + cfg.fallbackInterval, "fallback_sweep", now, cfg, snapshot, inflight, retryDelay);
  }

  /** One candidate folded into the running minimum. */
  function Consider(next: Wake, now: int, candidate: Wake): Wake {
    if candidate.at == 0 then next
    else
      var at := Clamp(now, candidate.at);
      if next.at == 0 || at < next.at then Wake(at, candidate.reason) else next
  }

  /** The running minimum after all of them. */
  function Folded(now: int, candidates: seq<Wake>): Wake {
    if candidates == [] then NO_WAKE
    else Consider(Folded(now, candidates[..|candidates| - 1]), now, candidates[|candidates| - 1])
  }

  /** The running minimum finds the earliest candidate. */
  lemma {:induction false} FoldedIsEarliest(now: int, candidates: seq<Wake>)
    requires now > 0
    ensures IsEarliest(Folded(now, candidates), now, candidates)
  {
    if candidates != [] {
      var seen, candidate := candidates[..|candidates| - 1], candidates[|candidates| - 1];
      FoldedIsEarliest(now, seen);
      var before, after := Folded(now, seen), Folded(now, candidates);
      if candidate.at != 0 && after != before {
        assert IsFirstMinimum(after, now, candidates, |seen|);
      } else if i :| 0 <= i < |seen| && seen[i].at != 0 {
        var k :| 0 <= k < |seen| && IsFirstMinimum(before, now, seen, k);
        assert candidates[k].at != 0 && IsFirstMinimum(after, now, candidates, k);
      }
    }
  }

  lemma FoldedAppend(now: int, seen: seq<Wake>, candidate: Wake)
    ensures Folded(now, seen + [candidate]) == Consider(Folded(now, seen), now, candidate)
  {
    assert (seen + [candidate])[..|seen|] == seen;
  }

  lemma FoldedNext(now: int, seen: seq<Wake>, more: seq<Wake>, i: nat)
    requires i < |more|
    ensures Folded(now, seen + more[..i + 1]) == Consider(Folded(now, seen + more[..i]), now, more[i])
  {
    FoldedAppend(now, seen + more[..i], more[i]);
    assert seen + more[..i] + [more[i]] == seen + more[..i + 1];
  }

  lemma FoldedOne(now: int, condition: bool, candidate: Wake)
    ensures Folded(now, When(condition, [candidate])) == if condition then Consider(NO_WAKE, now, candidate) else NO_WAKE
  {
    assert [candidate][..0] == [];
  }

  method ConsiderWhen(condition: bool, next: Wake, now: int, ghost seen: seq<Wake>, candidate: Wake) returns (next': Wake)
    requires next == Folded(now, seen)
    ensures next' == Folded(now, seen + When(condition, [candidate]))
  {
    next' := next;
    if condition {
      next' := Consider(next, now, candidate);
      FoldedAppend(now, seen, candidate);
    } else {
      assert seen + [] == seen;
    }
  }

  method ConsiderReservations(next: Wake, now: int, ghost seen: seq<Wake>, cfg: CareTakerConfig, inflight: seq<Reservation>)
    returns (next': Wake)
    requires next == Folded(now, seen)
    ensures next' == Folded(now, seen + When(cfg.inflightStartTimeout > 0, Expiries(cfg, inflight)))
  {
    next' := next;
    assert seen == seen + [];
    if cfg.inflightStartTimeout > 0 {
      ghost var expiries := Expiries(cfg, inflight);
      var i := 0;
      assert seen == seen + expiries[..0];
      while i < |inflight|
        invariant 0 <= i <= |inflight|
        invariant next' == Folded(now, seen + expiries[..i])
      {
        var candidate := Wake(inflight[i].createdAt + cfg.inflightStartTimeout, "inflight_start_expiry");
        next' := Consider(next', now, candidate);
        FoldedNext(now, seen, expiries, i);
        i := i + 1;
      }
      assert expiries[..i] == expiries;
    }
  }

  method ConsiderExpiries(now: int, cfg: CareTakerConfig, snapshot: Snapshot, inflight: seq<Reservation>) returns (next: Wake)
    ensures next == Folded(now, ExpiryCandidates(cfg, snapshot, inflight))
  {
    var worker := Wake(snapshot.earliestHeartbeat + cfg.deadAfter, "worker_expiry");
    var heard := cfg.deadAfter > 0 && snapshot.earliestHeartbeat != 0;
    ghost var first := When(heard, [worker]);
    next := NO_WAKE;
    if heard {
      next := Consider(next, now, worker);
    }
    FoldedOne(now, heard, worker);
    next := ConsiderReservations(next, now, first, cfg, inflight);
  }

  method FoldCandidates(now: int, cfg: CareTakerConfig, snapshot: Snapshot, inflight: seq<Reservation>, retryDelay: int)
    returns (next: Wake)
    ensures next == Folded(now, Candidates(now, cfg, snapshot, inflight, retryDelay))
  {
    var retry := Wake(now + RetryIn(cfg, retryDelay), "retry");
    var sweep := Wake(now + cfg.fallbackInterval, "fallback_sweep");
    next := ConsiderExpiries(now, cfg, snapshot, inflight);
    ghost var seen := ExpiryCandidates(cfg, snapshot, inflight);
    ghost var all := Candidates(now, cfg, snapshot, inflight, retryDelay);
    next := ConsiderBoth(next, now, seen, retryDelay > 0, retry, cfg.fallbackInterval > 0, sweep, all);
  }

  method ConsiderBoth(
      next: Wake, now: int, ghost seen: seq<Wake>, a: bool, first: Wake, b: bool, second: Wake, ghost all: seq<Wake>)
    returns (next': Wake)
    requires next == Folded(now, seen) && all == seen + When(a, [first]) + When(b, [second])
    ensures next' == Folded(now, all)
  {
    next' := ConsiderWhen(a, next, now, seen, first);
    next' := ConsiderWhen(b, next', now, seen + When(a, [first]), second);
  }

  method CalculateNextWake(now: int, cfg: CareTakerConfig, snapshot: Snapshot, inflight: seq<Reservation>, retryDelay: int)
    returns (next: Wake)
    requires now > 0
    ensures IsEarliest(next, now, Candidates(now, cfg, snapshot, inflight, retryDelay))
    ensures IsNextWake(next, now, cfg, snapshot, inflight, retryDelay)
  {
    next := FoldCandidates(now, cfg, snapshot, inflight, retryDelay);
    FoldedIsEarliest(now, Candidates(now, cfg, snapshot, inflight, retryDelay));
    EarliestIsNextWake(next, now, cfg, snapshot, inflight, retryDelay);
  }

  // ---------------------------------------------------------------------------------------
  // The reconcile pass

  datatype Launch = Launched | NotConfigured | LaunchFailed

  /** What the outside answers during one pass: did recovery of expired sessions succeed, the
      capacity snapshot if it could be taken, and the launcher's answer if it is asked. */
  datatype Surroundings = Surroundings(recovered: bool, snapshot: Option<Snapshot>, launch: Launch)

  class CareTaker {
    const cfg: CareTakerConfig
    const exec: WorkerCapacityManager
    const connected: bool   // both a state source and a launcher are set
    var retryDelay: int
    ghost var history: seq<bool>

    ghost predicate Valid()
      reads this
    {
      retryDelay == DelayAfter(cfg, history)
    }

    constructor (cfg: CareTakerConfig, exec: WorkerCapacityManager, connected: bool)
      ensures Valid() && history == [] && this.cfg == cfg && this.exec == exec && this.connected == connected
    {
      this.cfg := cfg;
      this.exec := exec;
      this.connected := connected;
      retryDelay := 0;
      history := [];
    }

    method NoteReconcileError()
      requires Valid()
      modifies this
      ensures Valid() && history == old(history) + [true]
    {
      history := history + [true];
      assert history[..|history| - 1] == old(history);
      if cfg.retryInitial <= 0 {
        retryDelay := 0;
        return;
      }
      if retryDelay <= 0 {
        retryDelay := cfg.retryInitial;
        return;
      }
      retryDelay := Wrap64(retryDelay * 2);
      if cfg.retryMaximum > 0 && retryDelay > cfg.retryMaximum {
        retryDelay := cfg.retryMaximum;
      }
    }

    method ClearReconcileError()
      requires Valid()
      modifies this
      ensures Valid() && retryDelay == 0 && history == old(history) + [false]
    {
      history := history + [false];
      retryDelay := 0;
    }

    /** One pass; without a source or a launcher it does nothing.  It fails when recovery or the
        snapshot fails, when the pattern is unknown, or when a launch is attempted and fails for any
        reason but a missing target environment; the wake-up it returns uses the delay after this
        pass and the reservations left by it. */
    method Reconcile(now: int, around: Surroundings) returns (failed: bool, next: Wake)
      requires Valid() && now > 0
      modifies this, exec
      ensures Valid() && history == old(history) + if connected then [failed] else []
      ensures !connected ==> !failed && next == NO_WAKE && retryDelay == old(retryDelay) && exec.Contents() == old(exec.Contents())
      ensures failed ==> retryDelay == NextDelay(cfg, old(retryDelay))
      ensures connected && !failed ==> retryDelay == 0
      ensures connected && (!around.recovered || around.snapshot.None?) ==> failed
      ensures !around.recovered ==> exec.Contents() == old(exec.Contents())
      ensures connected && around.recovered && around.snapshot.None? ==>
        exec.Contents() == Prune(old(exec.Contents()), now, cfg.inflightStartTimeout)
      ensures connected && around.recovered && around.snapshot.Some? ==>
        var e := Evaluate(Prune(old(exec.Contents()), now, cfg.inflightStartTimeout), exec.override, now,
                          cfg.workerExecution, around.snapshot.value.demand, around.launch.Launched?);
        && exec.Contents() == e.manager
        && (failed <==> e.plan.None? || (e.plan.value.startCount > 0 && around.launch.LaunchFailed?))
      ensures
        var snapshot := if around.recovered && around.snapshot.Some? then around.snapshot.value else EMPTY_SNAPSHOT;
        connected ==> IsNextWake(next, now, cfg, snapshot, exec.inflight, retryDelay)
    {
      if !connected {
        return false, NO_WAKE;
      }
      if !around.recovered {
        NoteReconcileError();
        next := CalculateNextWake(now, cfg, EMPTY_SNAPSHOT, exec.inflight, retryDelay);
        return true, next;
      }
      exec.PruneExpiredInflightStarts(now, cfg.inflightStartTimeout);
      if around.snapshot.None? {
        NoteReconcileError();
        next := CalculateNextWake(now, cfg, EMPTY_SNAPSHOT, exec.inflight, retryDelay);
        return true, next;
      }
      var snapshot := around.snapshot.value;
      var plan, launched := exec.EvaluateDemand(now, cfg.workerExecution, snapshot.demand, around.launch.Launched?);
      if plan.None? || (plan.value.startCount > 0 && around.launch.LaunchFailed?) {
        NoteReconcileError();
        next := CalculateNextWake(now, cfg, snapshot, exec.inflight, retryDelay);
        return true, next;
      }
      ClearReconcileError();
      next := CalculateNextWake(now, cfg, snapshot, exec.inflight, 0);
      return false, next;
    }
  }
}

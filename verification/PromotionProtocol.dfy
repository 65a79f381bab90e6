/** Promotion of materialized assets into a shared destination root.

    Any number of workers promote staged content into one directory tree.  Each worker looks
    for an existing destination or manifest, copies to a private staging area, looks again,
    creates two lock files with O_EXCL, looks a third time under the locks, renames the staged
    content into place, writes the manifest, and removes the lock files.  Every look, every lock
    creation, every removal and every write below is a separate step, so that all interleavings
    of the workers are covered.  The boolean handed to a step is the outcome of its I/O. */
module PromotionProtocol {
  import opened Strings

  datatype Evidence = Evidence(kind: string, sizeBytes: nat, sha256: string)

  datatype Manifest = Manifest(
    assetKey: string, materializationKey: string, domainId: string, destination: string, evidence: Evidence)

  datatype Request = Request(
    assetKey: string, materializationKey: string, domainId: string, destination: string, content: string)

  /** What the protocol takes from outside: measured evidence of some content, and the digest
      used in lock names.  No property of the digest is assumed. */
  datatype Env = Env(evidenceOf: string -> Evidence, digest: string -> string)

  datatype Outcome = SourceReturned | Rejected | Promoted | AlreadyExists | InProgress | IoError

  datatype Phase =
    | FirstLookAtDestination
    | FirstLookAtManifest
    | CopyToStage
    | SecondLookAtDestination
    | SecondLookAtManifest
    | Acquire
    | LockedLookAtDestination
    | LockedLookAtManifest
    | Rename
    | WriteManifest
    | Rollback
    | Release(outcome: Outcome)
    | Finished(outcome: Outcome)

  /** `held` lists the lock files this promoter created and has not yet removed, oldest first. */
  datatype Promoter = Promoter(req: Request, phase: Phase, held: seq<string>)

  /** `orphaned` records the destinations whose rollback removal failed; the code ignores that
      error, so it is history and no step reads it. */
  datatype State = State(
    destinations: map<string, string>,
    manifests: map<string, Manifest>,
    locks: set<string>,
    orphaned: set<string>,
    promoters: seq<Promoter>)

  const KEY_PREFIX := "sha256:"

  /** The manifest file name: the key without its prefix. */
  function ManifestName(key: string): string {
    (if KEY_PREFIX <= key then key[|KEY_PREFIX|..] else key) + ".json"
  }

  function LockName(env: Env, kind: string, identity: string): string {
    kind + "-" + env.digest(kind + ":" + identity) + ".lock"
  }

  /** The two lock files in the order in which they are created: sorting puts the destination
      lock first, because its name starts with a smaller letter. */
  function LockNames(env: Env, req: Request): seq<string> {
    [LockName(env, "destination", req.destination), LockName(env, "manifest", req.materializationKey)]
  }

  function ManifestFor(env: Env, req: Request): Manifest {
    Manifest(req.assetKey, req.materializationKey, req.domainId, req.destination, env.evidenceOf(req.content))
  }

  /** A blank destination returns the source untouched; a key without the digest prefix is
      rejected by payload validation. */
  function StartPhase(req: Request): Phase {
    if IsBlank(req.destination) then Finished(SourceReturned)
    else if !(KEY_PREFIX <= req.materializationKey) then Finished(Rejected)
    else FirstLookAtDestination
  }

  function Start(req: Request): Promoter {
    Promoter(req, StartPhase(req), [])
  }

  function Move(s: State, w: nat, phase: Phase): State
    requires w < |s.promoters|
  {
    s.(promoters := s.promoters[w := s.promoters[w].(phase := phase)])
  }

  function AcquireStep(env: Env, s: State, w: nat, ok: bool): State
    requires w < |s.promoters|
  {
    var p := s.promoters[w];
    if |p.held| >= 2 then Move(s, w, LockedLookAtDestination)
    else
      var next := LockNames(env, p.req)[|p.held|];
      if next in s.locks then Move(s, w, Release(InProgress))
      else if !ok then Move(s, w, Release(IoError))
      else s.(locks := s.locks + {next},
              promoters := s.promoters[w := p.(held := p.held + [next])])
  }

  function ReleaseStep(s: State, w: nat, ok: bool): State
    requires w < |s.promoters| && s.promoters[w].phase.Release?
  {
    var p := s.promoters[w];
    if p.held == [] then Move(s, w, Finished(p.phase.outcome))
    else s.(locks := if ok then s.locks - {p.held[0]} else s.locks,
            promoters := s.promoters[w := p.(held := p.held[1..])])
  }

  function Step(env: Env, s: State, w: nat, ok: bool): State
    requires w < |s.promoters|
  {
    var p := s.promoters[w];
    var d, n := p.req.destination, ManifestName(p.req.materializationKey);
    match p.phase
    case FirstLookAtDestination =>
      Move(s, w, if d in s.destinations then Finished(AlreadyExists) else FirstLookAtManifest)
    case FirstLookAtManifest =>
      Move(s, w, if n in s.manifests then Finished(AlreadyExists) else CopyToStage)
    case CopyToStage =>
      Move(s, w, if ok then SecondLookAtDestination else Finished(IoError))
    case SecondLookAtDestination =>
      Move(s, w, if d in s.destinations then Finished(AlreadyExists) else SecondLookAtManifest)
    case SecondLookAtManifest =>
      Move(s, w, if n in s.manifests then Finished(AlreadyExists) else Acquire)
    case Acquire => AcquireStep(env, s, w, ok)
    case LockedLookAtDestination =>
      Move(s, w, if d in s.destinations then Release(AlreadyExists) else LockedLookAtManifest)
    case LockedLookAtManifest =>
      Move(s, w, if n in s.manifests then Release(AlreadyExists) else Rename)
    case Rename =>
      if ok then Move(s, w, WriteManifest).(destinations := s.destinations[d := p.req.content])
      else Move(s, w, Release(IoError))
    case WriteManifest =>
      if ok then Move(s, w, Release(Promoted)).(manifests := s.manifests[n := ManifestFor(env, p.req)])
      else Move(s, w, Rollback)
    case Rollback =>
      if ok then Move(s, w, Release(IoError)).(destinations := s.destinations - {d})
      else Move(s, w, Release(IoError)).(orphaned := s.orphaned + {d})
    case Release(_) => ReleaseStep(s, w, ok)
    case Finished(_) => s
  }

  datatype Event = Event(worker: nat, ok: bool)

  /** A run is any schedule of steps; events of unknown workers do nothing. */
  function Run(env: Env, s: State, events: seq<Event>): State
    decreases |events|
  {
    if events == [] then s
    else
      var e := events[0];
      Run(env, if e.worker < |s.promoters| then Step(env, s, e.worker, e.ok) else s, events[1..])
  }

  // ---------------------------------------------------------------------------------------
  // What is proved about it

  /** Some manifest names this destination. */
  ghost predicate Named(s: State, d: string) {
    exists n :: n in s.manifests && s.manifests[n].destination == d
  }

  /** The promoter is between acquiring its second lock and starting to release. */
  predicate InCriticalSection(p: Promoter) {
    p.phase.LockedLookAtDestination? || p.phase.LockedLookAtManifest? || p.phase.Rename?
    || p.phase.WriteManifest? || p.phase.Rollback?
  }

  /** The promoter has renamed its content into place and not yet written its manifest. */
  predicate HasUnmanifestedContent(p: Promoter) {
    p.phase.WriteManifest? || p.phase.Rollback?
  }

  ghost predicate HoldsWhatItsPhaseSays(env: Env, p: Promoter) {
    var locks := LockNames(env, p.req);
    match p.phase
    case Acquire => p.held <= locks
    case LockedLookAtDestination => p.held == locks
    case LockedLookAtManifest => p.held == locks
    case Rename => p.held == locks
    case WriteManifest => p.held == locks
    case Rollback => p.held == locks
    case Release(_) => exists k :: 0 <= k <= 2 && p.held <= locks[k..]
    case _ => p.held == []
  }

  ghost predicate LocksInv(env: Env, s: State) {
    && (forall w :: 0 <= w < |s.promoters| ==> HoldsWhatItsPhaseSays(env, s.promoters[w]))
    && (forall w, l :: 0 <= w < |s.promoters| && l in s.promoters[w].held ==> l in s.locks)
    && (forall v, w, l :: 0 <= v < w < |s.promoters| && l in s.promoters[v].held ==> l !in s.promoters[w].held)
  }

  ghost predicate ManifestsInv(env: Env, s: State) {
    forall n :: n in s.manifests ==>
      var m := s.manifests[n];
      && KEY_PREFIX <= m.materializationKey
      && ManifestName(m.materializationKey) == n
      && m.destination in s.destinations
      && env.evidenceOf(s.destinations[m.destination]) == m.evidence
  }

  ghost predicate OneManifestPerDestination(s: State) {
    forall n, n' :: n in s.manifests && n' in s.manifests && s.manifests[n].destination == s.manifests[n'].destination ==> n == n'
  }

  ghost predicate PromoterInv(s: State, p: Promoter) {
    && (p.phase.Finished? || KEY_PREFIX <= p.req.materializationKey)
    && (p.phase.LockedLookAtManifest? || p.phase.Rename? ==> p.req.destination !in s.destinations)
    && (p.phase.Rename? || HasUnmanifestedContent(p) ==> ManifestName(p.req.materializationKey) !in s.manifests)
    && (HasUnmanifestedContent(p) ==>
          && p.req.destination in s.destinations
          && s.destinations[p.req.destination] == p.req.content
          && !Named(s, p.req.destination)
          && p.req.destination !in s.orphaned)
  }

  ghost predicate PromotersInv(s: State) {
    forall w :: 0 <= w < |s.promoters| ==> PromoterInv(s, s.promoters[w])
  }

  /** A worker is about to write, or to roll back, this destination. */
  ghost predicate InTransit(s: State, d: string) {
    exists w :: 0 <= w < |s.promoters| && HasUnmanifestedContent(s.promoters[w]) && s.promoters[w].req.destination == d
  }

  ghost predicate DestinationsInv(s: State) {
    && (forall d :: d in s.destinations ==> Named(s, d) || d in s.orphaned || InTransit(s, d))
    && (forall d :: d in s.orphaned ==> d in s.destinations && !Named(s, d))
  }

  ghost predicate Inv(env: Env, s: State) {
    LocksInv(env, s) && ManifestsInv(env, s) && OneManifestPerDestination(s) && PromotersInv(s) && DestinationsInv(s)
  }

  /** A root as the promoters may find it: any lock files at all, manifests that match their
      destinations, and destinations without a manifest counted as orphaned already. */
  ghost predicate Init(env: Env, s: State) {
    && (forall w :: 0 <= w < |s.promoters| ==> s.promoters[w] == Start(s.promoters[w].req))
    && ManifestsInv(env, s)
    && OneManifestPerDestination(s)
    && (forall d :: d in s.orphaned <==> d in s.destinations && !Named(s, d))
  }

  /** On valid keys distinct keys have distinct manifest files. */
  lemma ManifestNameInjective(k: string, k': string)
    requires KEY_PREFIX <= k && KEY_PREFIX <= k'
    requires ManifestName(k) == ManifestName(k')
    ensures k == k'
  {
    var a, b := k[|KEY_PREFIX|..], k'[|KEY_PREFIX|..];
    assert (a + ".json")[..|a|] == (b + ".json")[..|b|];
    assert k == KEY_PREFIX + a && k' == KEY_PREFIX + b;
  }

  lemma LockNamesDiffer(env: Env, req: Request)
    ensures LockNames(env, req)[0] != LockNames(env, req)[1]
  {
    assert LockNames(env, req)[0][0] == 'd' && LockNames(env, req)[1][0] == 'm';
  }

  /** Promoters that share a destination or a key are never in the critical section together. */
  lemma MutualExclusion(env: Env, s: State, v: nat, w: nat)
    requires LocksInv(env, s)
    requires v < |s.promoters| && w < |s.promoters| && v != w
    requires InCriticalSection(s.promoters[v]) && InCriticalSection(s.promoters[w])
    ensures s.promoters[v].req.destination != s.promoters[w].req.destination
    ensures s.promoters[v].req.materializationKey != s.promoters[w].req.materializationKey
  {
    var p, q := s.promoters[v], s.promoters[w];
    assert LockNames(env, p.req)[0] in p.held && LockNames(env, p.req)[1] in p.held;
    assert LockNames(env, q.req)[0] in q.held && LockNames(env, q.req)[1] in q.held;
  }

  lemma InitEstablishesInv(env: Env, s: State)
    requires Init(env, s)
    ensures Inv(env, s)
  {
  }

  /** What one step does to the lock files and to the mover's list of held locks. */
  ghost predicate LockEffect(s: State, s': State, w: nat)
    requires w < |s.promoters| == |s'.promoters|
  {
    var held, held' := s.promoters[w].held, s'.promoters[w].held;
    || (held' == held && s'.locks == s.locks)
    || (exists l :: l !in s.locks && held' == held + [l] && s'.locks == s.locks + {l})
    || (held != [] && held' == held[1..] && held[0] !in held' && s.locks - {held[0]} <= s'.locks <= s.locks)
  }

  lemma AcquireEffect(env: Env, s: State, w: nat, ok: bool)
    requires w < |s.promoters| && s.promoters[w].phase.Acquire?
    requires HoldsWhatItsPhaseSays(env, s.promoters[w])
    ensures
      var s' := AcquireStep(env, s, w, ok);
      && |s'.promoters| == |s.promoters|
      && HoldsWhatItsPhaseSays(env, s'.promoters[w])
      && LockEffect(s, s', w)
  {
    var p := s.promoters[w];
    var locks := LockNames(env, p.req);
    assert locks[0..] == locks;
    assert p.held <= locks[0..];
    if |p.held| < 2 {
      assert p.held + [locks[|p.held|]] == locks[..|p.held| + 1];
    }
  }

  lemma ReleaseEffect(env: Env, s: State, w: nat, ok: bool)
    requires w < |s.promoters| && s.promoters[w].phase.Release?
    requires HoldsWhatItsPhaseSays(env, s.promoters[w])
    ensures
      var s' := ReleaseStep(s, w, ok);
      && |s'.promoters| == |s.promoters|
      && HoldsWhatItsPhaseSays(env, s'.promoters[w])
      && LockEffect(s, s', w)
  {
    var p := s.promoters[w];
    var locks := LockNames(env, p.req);
    LockNamesDiffer(env, p.req);
    var k :| 0 <= k <= 2 && p.held <= locks[k..];
    if p.held != [] {
      assert p.held == locks[k..k + |p.held|];
      assert p.held[1..] == locks[k + 1..k + |p.held|];
      assert p.held[1..] <= locks[k + 1..];
    }
  }

  /** A step changes only its own promoter, keeps the request, and touches only lock files the
      promoter creates itself or holds. */
  lemma StepEffect(env: Env, s: State, w: nat, ok: bool)
    requires w < |s.promoters|
    requires HoldsWhatItsPhaseSays(env, s.promoters[w])
    ensures
      var s' := Step(env, s, w, ok);
      && |s'.promoters| == |s.promoters|
      && s'.promoters == s.promoters[w := s'.promoters[w]]
      && s'.promoters[w].req == s.promoters[w].req
      && HoldsWhatItsPhaseSays(env, s'.promoters[w])
      && LockEffect(s, s', w)
  {
    var p := s.promoters[w];
    var locks := LockNames(env, p.req);
    assert locks[0..] == locks && locks <= locks[0..];
    if p.phase.Acquire? {
      AcquireEffect(env, s, w, ok);
    } else if p.phase.Release? {
      ReleaseEffect(env, s, w, ok);
    }
  }

  /** The lock invariant survives any change of that kind. */
  lemma LocksByEffect(env: Env, s: State, s': State, w: nat)
    requires LocksInv(env, s) && w < |s.promoters| == |s'.promoters|
    requires s'.promoters == s.promoters[w := s'.promoters[w]]
    requires HoldsWhatItsPhaseSays(env, s'.promoters[w]) && LockEffect(s, s', w)
    ensures LocksInv(env, s')
  {
    HeldAfter(s, s', w);
    assert forall v :: 0 <= v < |s.promoters| && v != w ==> s'.promoters[v] == s.promoters[v];
    forall v, u, l | 0 <= v < u < |s'.promoters| && l in s'.promoters[v].held
      ensures l !in s'.promoters[u].held
    {
      assert v != w ==> l in s.locks;
    }
  }

  /** Newly held locks were free, and the locks of others stay. */
  lemma HeldAfter(s: State, s': State, w: nat)
    requires w < |s.promoters| == |s'.promoters| && LockEffect(s, s', w)
    ensures forall l :: l in s'.promoters[w].held ==> l in s.promoters[w].held || l !in s.locks
    ensures forall l :: l in s'.promoters[w].held && (l in s.promoters[w].held ==> l in s.locks) ==> l in s'.locks
    ensures forall l :: l in s.locks && l !in s.promoters[w].held ==> l in s'.locks
  {
  }

  lemma LocksStep(env: Env, s: State, w: nat, ok: bool)
    requires LocksInv(env, s) && w < |s.promoters|
    ensures LocksInv(env, Step(env, s, w, ok))
  {
    StepEffect(env, s, w, ok);
    LocksByEffect(env, s, Step(env, s, w, ok), w);
  }

  ghost predicate FilesInv(env: Env, s: State) {
    ManifestsInv(env, s) && OneManifestPerDestination(s) && PromotersInv(s) && DestinationsInv(s)
  }

  predicate ChangesFiles(p: Promoter, ok: bool) {
    (ok && (p.phase.Rename? || p.phase.WriteManifest?)) || p.phase.Rollback?
  }

  /** Steps that leave destinations, manifests and history alone keep their own promoter's part
      of the invariant. */
  lemma QuietEffect(env: Env, s: State, w: nat, ok: bool)
    requires PromotersInv(s) && w < |s.promoters| && !ChangesFiles(s.promoters[w], ok)
    ensures
      var s' := Step(env, s, w, ok);
      && s'.destinations == s.destinations && s'.manifests == s.manifests && s'.orphaned == s.orphaned
      && |s'.promoters| == |s.promoters|
      && HasUnmanifestedContent(s'.promoters[w]) == HasUnmanifestedContent(s.promoters[w])
      && PromoterInv(s, s'.promoters[w])
  {
    assert PromoterInv(s, s.promoters[w]);
  }

  lemma SameFilesSameInv(s: State, s': State, p: Promoter)
    requires PromoterInv(s, p)
    requires s'.destinations == s.destinations && s'.manifests == s.manifests && s'.orphaned == s.orphaned
    ensures PromoterInv(s', p)
  {
  }

  /** Whoever was in transit stays in transit when the changed promoter keeps its role. */
  lemma TransitSurvives(s: State, s': State, w: nat, d: string)
    requires w < |s.promoters| && |s'.promoters| == |s.promoters|
    requires s'.promoters == s.promoters[w := s'.promoters[w]] && s'.promoters[w].req == s.promoters[w].req
    requires HasUnmanifestedContent(s.promoters[w]) ==> HasUnmanifestedContent(s'.promoters[w]) || s.promoters[w].req.destination != d
    requires InTransit(s, d)
    ensures InTransit(s', d)
  {
    var v :| 0 <= v < |s.promoters| && HasUnmanifestedContent(s.promoters[v]) && s.promoters[v].req.destination == d;
    assert HasUnmanifestedContent(s'.promoters[v]) && s'.promoters[v].req.destination == d;
  }

  lemma QuietStep(env: Env, s: State, w: nat, ok: bool)
    requires LocksInv(env, s) && FilesInv(env, s) && w < |s.promoters|
    requires !ChangesFiles(s.promoters[w], ok)
    ensures FilesInv(env, Step(env, s, w, ok))
  {
    StepEffect(env, s, w, ok);
    QuietEffect(env, s, w, ok);
    var s' := Step(env, s, w, ok);
    forall v | 0 <= v < |s'.promoters|
      ensures PromoterInv(s', s'.promoters[v])
    {
      SameFilesSameInv(s, s', s'.promoters[v]);
    }
    forall d | d in s'.destinations
      ensures Named(s', d) || d in s'.orphaned || InTransit(s', d)
    {
      if InTransit(s, d) {
        TransitSurvives(s, s', w, d);
      }
    }
  }

  lemma RenameKeepsFiles(env: Env, s: State, w: nat)
    requires LocksInv(env, s) && FilesInv(env, s) && w < |s.promoters| && s.promoters[w].phase.Rename?
    ensures FilesInv(env, Step(env, s, w, true))
  {
    var p := s.promoters[w];
    var d := p.req.destination;
    var s' := Step(env, s, w, true);
    assert PromoterInv(s, p);
    assert s'.manifests == s.manifests && !Named(s, d);
    assert forall x :: Named(s', x) == Named(s, x);
    forall v | 0 <= v < |s'.promoters|
      ensures PromoterInv(s', s'.promoters[v])
    {
      if v != w && InCriticalSection(s.promoters[v]) {
        MutualExclusion(env, s, v, w);
      }
      assert PromoterInv(s, s.promoters[v]);
    }
    forall x | x in s'.destinations
      ensures Named(s', x) || x in s'.orphaned || InTransit(s', x)
    {
      if x == d {
        assert HasUnmanifestedContent(s'.promoters[w]);
      } else if InTransit(s, x) {
        TransitSurvives(s, s', w, x);
      }
    }
  }

  lemma WriteManifestKeepsFiles(env: Env, s: State, w: nat)
    requires LocksInv(env, s) && FilesInv(env, s) && w < |s.promoters| && s.promoters[w].phase.WriteManifest?
    ensures FilesInv(env, Step(env, s, w, true))
  {
    var p := s.promoters[w];
    var d, n := p.req.destination, ManifestName(p.req.materializationKey);
    var s' := Step(env, s, w, true);
    assert PromoterInv(s, p);
    assert n !in s.manifests && !Named(s, d);
    assert Named(s', d) by { assert n in s'.manifests; }
    forall x | x != d
      ensures Named(s', x) == Named(s, x)
    {
      if Named(s, x) {
        var m :| m in s.manifests && s.manifests[m].destination == x;
        assert m in s'.manifests && s'.manifests[m] == s.manifests[m];
      }
    }
    forall v | 0 <= v < |s'.promoters|
      ensures PromoterInv(s', s'.promoters[v])
    {
      assert PromoterInv(s, s.promoters[v]);
      if v != w && InCriticalSection(s.promoters[v]) {
        MutualExclusion(env, s, v, w);
        if ManifestName(s.promoters[v].req.materializationKey) == n {
          ManifestNameInjective(s.promoters[v].req.materializationKey, p.req.materializationKey);
        }
      }
    }
    forall x | x in s'.destinations
      ensures Named(s', x) || x in s'.orphaned || InTransit(s', x)
    {
      if x != d && InTransit(s, x) {
        TransitSurvives(s, s', w, x);
      }
    }
  }

  /** What a rollback leaves: the content is gone, or the failed removal is on record. */
  ghost predicate RolledBack(s: State, s': State, w: nat)
    requires w < |s.promoters|
  {
    var p := s.promoters[w];
    var d := p.req.destination;
    && s'.manifests == s.manifests
    && s'.promoters == s.promoters[w := p.(phase := Release(IoError))]
    && ((s'.destinations == s.destinations - {d} && s'.orphaned == s.orphaned)
        || (s'.destinations == s.destinations && s'.orphaned == s.orphaned + {d}))
  }

  lemma RollbackEffect(env: Env, s: State, w: nat, ok: bool)
    requires w < |s.promoters| && s.promoters[w].phase.Rollback?
    ensures RolledBack(s, Step(env, s, w, ok), w)
  {
  }

  lemma RollbackKeepsPromoter(env: Env, s: State, s': State, w: nat, v: nat)
    requires LocksInv(env, s) && PromotersInv(s) && w < |s.promoters| && s.promoters[w].phase.Rollback?
    requires RolledBack(s, s', w) && v < |s.promoters|
    ensures PromoterInv(s', s'.promoters[v])
  {
    assert PromoterInv(s, s.promoters[v]) && PromoterInv(s, s.promoters[w]);
    if v != w && InCriticalSection(s.promoters[v]) {
      MutualExclusion(env, s, v, w);
    }
  }

  lemma RollbackKeepsDestinations(s: State, s': State, w: nat)
    requires PromotersInv(s) && DestinationsInv(s) && w < |s.promoters| && s.promoters[w].phase.Rollback?
    requires RolledBack(s, s', w)
    ensures DestinationsInv(s')
  {
    var d := s.promoters[w].req.destination;
    assert PromoterInv(s, s.promoters[w]);
    assert forall x :: Named(s', x) == Named(s, x);
    forall x | x in s'.destinations
      ensures Named(s', x) || x in s'.orphaned || InTransit(s', x)
    {
      if x != d && InTransit(s, x) {
        TransitSurvives(s, s', w, x);
      }
    }
  }

  lemma RollbackKeepsManifests(env: Env, s: State, s': State, w: nat)
    requires ManifestsInv(env, s) && PromotersInv(s) && w < |s.promoters| && s.promoters[w].phase.Rollback?
    requires RolledBack(s, s', w)
    ensures ManifestsInv(env, s')
  {
    var d := s.promoters[w].req.destination;
    assert PromoterInv(s, s.promoters[w]);
    forall n | n in s.manifests
      ensures s.manifests[n].destination != d
    {
      assert Named(s, s.manifests[n].destination);
    }
  }

  lemma RollbackKeepsFiles(env: Env, s: State, w: nat, ok: bool)
    requires LocksInv(env, s) && FilesInv(env, s) && w < |s.promoters| && s.promoters[w].phase.Rollback?
    ensures FilesInv(env, Step(env, s, w, ok))
  {
    var s' := Step(env, s, w, ok);
    RollbackEffect(env, s, w, ok);
    RollbackKeepsManifests(env, s, s', w);
    RollbackKeepsDestinations(s, s', w);
    forall v | 0 <= v < |s'.promoters|
      ensures PromoterInv(s', s'.promoters[v])
    {
      RollbackKeepsPromoter(env, s, s', w, v);
    }
  }

  /** Every step of every worker keeps the invariant. */
  lemma StepKeepsInv(env: Env, s: State, w: nat, ok: bool)
    requires Inv(env, s) && w < |s.promoters|
    ensures Inv(env, Step(env, s, w, ok))
  {
    LocksStep(env, s, w, ok);
    var p := s.promoters[w];
    if p.phase.Rollback? {
      RollbackKeepsFiles(env, s, w, ok);
    } else if ok && p.phase.Rename? {
      RenameKeepsFiles(env, s, w);
    } else if ok && p.phase.WriteManifest? {
      WriteManifestKeepsFiles(env, s, w);
    } else {
      QuietStep(env, s, w, ok);
    }
  }

  /** A finished destination stays: its manifest and its content are the same after any step. */
  lemma StepKeepsFinished(env: Env, s: State, w: nat, ok: bool, n: string)
    requires Inv(env, s) && w < |s.promoters| && n in s.manifests
    ensures
      var s', m := Step(env, s, w, ok), s.manifests[n];
      && n in s'.manifests && s'.manifests[n] == m
      && m.destination in s'.destinations && s'.destinations[m.destination] == s.destinations[m.destination]
  {
    var p := s.promoters[w];
    assert PromoterInv(s, p);
    assert Named(s, s.manifests[n].destination);
    if !ChangesFiles(p, ok) {
      QuietEffect(env, s, w, ok);
    } else if p.phase.Rename? {
      assert p.req.destination !in s.destinations;
    }
  }

  /** A lock file disappears only in a step of the promoter that holds it, and every lock another
      promoter holds survives the step. */
  lemma StepRemovesOnlyOwnLocks(env: Env, s: State, w: nat, ok: bool, l: string)
    requires Inv(env, s) && w < |s.promoters|
    requires l in s.locks && l !in Step(env, s, w, ok).locks
    ensures l in s.promoters[w].held
    ensures forall v :: 0 <= v < |s.promoters| && v != w ==> l !in s.promoters[v].held
  {
    StepEffect(env, s, w, ok);
  }

  // ---------------------------------------------------------------------------------------
  // Whole runs

  lemma {:induction false} RunKeepsInv(env: Env, s: State, events: seq<Event>)
    requires Inv(env, s)
    ensures Inv(env, Run(env, s, events))
    decreases |events|
  {
    if events != [] {
      var e := events[0];
      if e.worker < |s.promoters| {
        StepKeepsInv(env, s, e.worker, e.ok);
        RunKeepsInv(env, Step(env, s, e.worker, e.ok), events[1..]);
      } else {
        RunKeepsInv(env, s, events[1..]);
      }
    }
  }

  /** In every interleaving no two promoters ever hold the same lock, while they acquire, work or
      release, and promoters sharing a destination or a key are never in the critical section
      together. */
  lemma RunsExclude(env: Env, s: State, events: seq<Event>, v: nat, w: nat)
    requires Init(env, s)
    requires v != w && v < |Run(env, s, events).promoters| && w < |Run(env, s, events).promoters|
    ensures
      var s' := Run(env, s, events);
      var p, q := s'.promoters[v], s'.promoters[w];
      InCriticalSection(p) && InCriticalSection(q) ==>
        p.req.destination != q.req.destination && p.req.materializationKey != q.req.materializationKey
    ensures
      var s' := Run(env, s, events);
      forall l :: l in s'.promoters[v].held ==> l !in s'.promoters[w].held && l in s'.locks
  {
    InitEstablishesInv(env, s);
    RunKeepsInv(env, s, events);
    var s' := Run(env, s, events);
    assert LocksInv(env, s');
    if InCriticalSection(s'.promoters[v]) && InCriticalSection(s'.promoters[w]) {
      MutualExclusion(env, s', v, w);
    }
  }

  /** Once a manifest exists, the destination it names keeps its content for ever. */
  lemma {:induction false} RunKeepsFinished(env: Env, s: State, events: seq<Event>, n: string)
    requires Inv(env, s) && n in s.manifests
    ensures
      var s', m := Run(env, s, events), s.manifests[n];
      && n in s'.manifests && s'.manifests[n] == m
      && m.destination in s.destinations && m.destination in s'.destinations
      && s'.destinations[m.destination] == s.destinations[m.destination]
    decreases |events|
  {
    if events != [] {
      var e := events[0];
      if e.worker < |s.promoters| {
        StepKeepsInv(env, s, e.worker, e.ok);
        StepKeepsFinished(env, s, e.worker, e.ok, n);
        RunKeepsFinished(env, Step(env, s, e.worker, e.ok), events[1..], n);
      } else {
        RunKeepsFinished(env, s, events[1..], n);
      }
    }
  }

  /** Reuse of a pinned destination: once the reader has found a manifest, the content it
      measures any time later is the content that manifest describes, whatever the promoters do
      in between, so the evidence comparison never fails. */
  lemma ReaderSeesMatchingEvidence(env: Env, s: State, untilRead: seq<Event>, untilMeasured: seq<Event>, n: string)
    requires Init(env, s)
    requires n in Run(env, s, untilRead).manifests
    ensures
      var m := Run(env, s, untilRead).manifests[n];
      var later := Run(env, Run(env, s, untilRead), untilMeasured);
      m.destination in later.destinations && env.evidenceOf(later.destinations[m.destination]) == m.evidence
  {
    InitEstablishesInv(env, s);
    RunKeepsInv(env, s, untilRead);
    RunKeepsFinished(env, Run(env, s, untilRead), untilMeasured, n);
  }

  /** The destination exists exactly when one manifest names it and that manifest's evidence is
      what measuring the content gives. */
  ghost predicate Settled(env: Env, s: State, d: string) {
    if d in s.destinations then
      exists n :: n in s.manifests && s.manifests[n].destination == d
        && s.manifests[n].evidence == env.evidenceOf(s.destinations[d])
        && forall n' :: n' in s.manifests && s.manifests[n'].destination == d ==> n' == n
    else
      !Named(s, d)
  }

  lemma TransitHoldsLock(env: Env, s: State, d: string)
    requires LocksInv(env, s) && InTransit(s, d)
    ensures LockName(env, "destination", d) in s.locks
  {
    var w :| 0 <= w < |s.promoters| && HasUnmanifestedContent(s.promoters[w]) && s.promoters[w].req.destination == d;
    assert LockNames(env, s.promoters[w].req)[0] in s.promoters[w].held;
  }

  /** In every interleaving, a destination whose lock file is absent is settled if and only if
      no failed rollback removal was ever recorded for it. */
  lemma FreeDestinationSettled(env: Env, s: State, events: seq<Event>, d: string)
    requires Init(env, s)
    requires LockName(env, "destination", d) !in Run(env, s, events).locks
    ensures Settled(env, Run(env, s, events), d) <==> d !in Run(env, s, events).orphaned
  {
    InitEstablishesInv(env, s);
    RunKeepsInv(env, s, events);
    var s' := Run(env, s, events);
    if InTransit(s', d) {
      TransitHoldsLock(env, s', d);
      assert false;
    }
    if Named(s', d) {
      var n :| n in s'.manifests && s'.manifests[n].destination == d;
    }
  }

  predicate NoRollbackFails(env: Env, s: State, events: seq<Event>)
    decreases |events|
  {
    events == [] ||
    var e := events[0];
    && (e.worker < |s.promoters| && s.promoters[e.worker].phase.Rollback? ==> e.ok)
    && NoRollbackFails(env, if e.worker < |s.promoters| then Step(env, s, e.worker, e.ok) else s, events[1..])
  }

  /** A run in which every rollback removal succeeds records no orphan. */
  lemma {:induction false} NoFailedRollbackNoOrphan(env: Env, s: State, events: seq<Event>)
    requires NoRollbackFails(env, s, events)
    ensures Run(env, s, events).orphaned == s.orphaned
    decreases |events|
  {
    if events != [] {
      var e := events[0];
      NoFailedRollbackNoOrphan(env, if e.worker < |s.promoters| then Step(env, s, e.worker, e.ok) else s, events[1..]);
    }
  }

  ghost predicate Reaches(env: Env, s: State, s': State) {
    exists events :: Run(env, s, events) == s'
  }

  lemma {:induction false} RunExtends(env: Env, s: State, events: seq<Event>, e: Event)
    requires e.worker < |Run(env, s, events).promoters|
    ensures Run(env, s, events + [e]) == Step(env, Run(env, s, events), e.worker, e.ok)
    decreases |events|
  {
    if events == [] {
      assert [] + [e] == [e] && [e][1..] == [];
      assert Run(env, s, [e]) == Run(env, Step(env, s, e.worker, e.ok), []);
    } else {
      var f := events[0];
      assert (events + [e])[1..] == events[1..] + [e];
      RunExtends(env, if f.worker < |s.promoters| then Step(env, s, f.worker, f.ok) else s, events[1..], e);
    }
  }

  lemma ReachesOneMore(env: Env, s: State, s': State, ok: bool)
    requires Reaches(env, s, s') && |s'.promoters| == 1
    ensures Reaches(env, s, Step(env, s', 0, ok))
  {
    var events :| Run(env, s, events) == s';
    RunExtends(env, s, events, Event(0, ok));
  }

  function EmptyRoot(p: Promoter, locks: set<string>): State {
    State(map[], map[], locks, {}, [p])
  }

  lemma ReachesAcquire(env: Env, req: Request)
    requires StartPhase(req).FirstLookAtDestination?
    ensures Reaches(env, EmptyRoot(Start(req), {}), EmptyRoot(Promoter(req, Acquire, []), {}))
  {
    var s0 := EmptyRoot(Start(req), {});
    assert Run(env, s0, []) == s0;
    ReachesOneMore(env, s0, s0, true);
    ReachesOneMore(env, s0, EmptyRoot(Promoter(req, FirstLookAtManifest, []), {}), true);
    ReachesOneMore(env, s0, EmptyRoot(Promoter(req, CopyToStage, []), {}), true);
    ReachesOneMore(env, s0, EmptyRoot(Promoter(req, SecondLookAtDestination, []), {}), true);
    ReachesOneMore(env, s0, EmptyRoot(Promoter(req, SecondLookAtManifest, []), {}), true);
  }

  /** One worker alone on an empty root, driven to the rename. */
  lemma ReachesRename(env: Env, req: Request)
    requires StartPhase(req).FirstLookAtDestination?
    ensures Reaches(env, EmptyRoot(Start(req), {}),
                    EmptyRoot(Promoter(req, Rename, LockNames(env, req)), {LockNames(env, req)[0], LockNames(env, req)[1]}))
  {
    var l := LockNames(env, req);
    LockNamesDiffer(env, req);
    var s0 := EmptyRoot(Start(req), {});
    ReachesAcquire(env, req);
    var a, b, c := EmptyRoot(Promoter(req, Acquire, []), {}), EmptyRoot(Promoter(req, Acquire, [l[0]]), {l[0]}), EmptyRoot(Promoter(req, Acquire, l), {l[0], l[1]});
    ReachesOneMore(env, s0, a, true);
    assert a.locks + {l[0]} == b.locks && [] + [l[0]] == [l[0]];
    assert Step(env, a, 0, true) == b;
    ReachesOneMore(env, s0, b, true);
    assert b.locks + {l[1]} == c.locks && [l[0]] + [l[1]] == l;
    assert Step(env, b, 0, true) == c;
    ReachesOneMore(env, s0, c, true);
    ReachesOneMore(env, s0, EmptyRoot(Promoter(req, LockedLookAtDestination, l), {l[0], l[1]}), true);
    ReachesOneMore(env, s0, EmptyRoot(Promoter(req, LockedLookAtManifest, l), {l[0], l[1]}), true);
  }

  /** The ignored removal error is real: one worker alone, whose manifest write and rollback
      removal both fail, ends with every lock released and a destination no manifest names. */
  lemma FailedRollbackLeavesOrphan(env: Env, req: Request)
    requires StartPhase(req).FirstLookAtDestination?
    ensures exists s ::
      && Reaches(env, EmptyRoot(Start(req), {}), s)
      && s.promoters == [Promoter(req, Finished(IoError), [])] && s.locks == {}
      && !Settled(env, s, req.destination)
  {
    var l := LockNames(env, req);
    LockNamesDiffer(env, req);
    var s0 := EmptyRoot(Start(req), {});
    ReachesRename(env, req);
    var a := EmptyRoot(Promoter(req, Rename, l), {l[0], l[1]});
    ReachesOneMore(env, s0, a, true);
    var b := State(map[req.destination := req.content], map[], {l[0], l[1]}, {}, [Promoter(req, WriteManifest, l)]);
    assert Step(env, a, 0, true) == b;
    ReachesOneMore(env, s0, b, false);
    ReachesOneMore(env, s0, b.(promoters := [Promoter(req, Rollback, l)]), false);
    var c := b.(orphaned := {req.destination}, promoters := [Promoter(req, Release(IoError), l)]);
    ReachesOneMore(env, s0, c, true);
    var d := c.(locks := {l[1]}, promoters := [Promoter(req, Release(IoError), [l[1]])]);
    assert Step(env, c, 0, true) == d;
    ReachesOneMore(env, s0, d, true);
    var e := c.(locks := {}, promoters := [Promoter(req, Release(IoError), [])]);
    assert d.locks - {l[1]} == e.locks && [l[1]][1..] == [];
    assert Step(env, d, 0, true) == e;
    ReachesOneMore(env, s0, e, true);
  }

  /** The lock directory seen by one worker with nobody else moving: creating the lock files one
      by one, removing what was created as soon as one creation fails or the locked look finds
      the destination taken. */
  class LockDirectory {
    var locks: set<string>

    constructor (locks: set<string>)
      ensures this.locks == locks
    {
      this.locks := locks;
    }

    /** Removes lock files one by one; one that cannot be removed is passed over. */
    method RemoveAll(names: seq<string>, stuck: set<string>)
      modifies this
      ensures locks == old(locks) - ((set l | l in names) - stuck)
    {
      var i := 0;
      while i < |names|
        invariant 0 <= i <= |names|
        invariant locks == old(locks) - ((set l | l in names[..i]) - stuck)
      {
        if names[i] !in stuck {
          locks := locks - {names[i]};
        }
        assert names[..i + 1] == names[..i] + [names[i]];
        i := i + 1;
      }
      assert names[..i] == names;
    }

    /** All the locks or none: on success every requested lock was free and is now held. On failure
        the locks created before the first that was not to be had are removed again, except those
        whose removal fails; if none does, the directory is as it was. */
    method AcquirePromotionLocks(names: seq<string>, creatable: set<string>, stuck: set<string>, taken: bool) returns (acquired: bool)
      requires forall i, j :: 0 <= i < j < |names| ==> names[i] != names[j]
      modifies this
      ensures acquired <==>
        !taken && forall l :: l in names ==> l !in old(locks) && l in creatable
      ensures acquired ==> locks == old(locks) + (set l | l in names)
      ensures !acquired ==> exists k :: 0 <= k <= |names| && Obtained(old(locks), names, creatable, k)
                                        && locks == old(locks) + (set l | l in names[..k]) * stuck
    {
      var i := 0;
      while i < |names|
        invariant 0 <= i <= |names|
        invariant forall k :: 0 <= k < i ==> names[k] !in old(locks) && names[k] in creatable
        invariant locks == old(locks) + (set l | l in names[..i])
      {
        if names[i] in locks || names[i] !in creatable {
          assert names[i] !in names[..i];
          assert Obtained(old(locks), names, creatable, i);
          RemoveAll(names[..i], stuck);
          return false;
        }
        locks := locks + {names[i]};
        assert names[..i + 1] == names[..i] + [names[i]];
        i := i + 1;
      }
      assert names[..i] == names;
      if taken {
        assert Obtained(old(locks), names, creatable, i);
        RemoveAll(names, stuck);
        return false;
      }
      return true;
    }
  }

  /** Exactly so many of the locks can be created, one after the other. */
  predicate Obtained(locks: set<string>, names: seq<string>, creatable: set<string>, k: nat)
    requires k <= |names|
  {
    && (forall j :: 0 <= j < k ==> names[j] !in locks && names[j] in creatable)
    && (k < |names| ==> names[k] in locks || names[k] !in creatable)
  }
}

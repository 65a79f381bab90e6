/** What a promoter's outcome says about its run: a worker alone on a free root promotes its content,
    and in every interleaving each outcome has its cause. */
module PromotionOutcomes {
  import opened Strings
  import opened PromotionProtocol

  // ---------------------------------------------------------------------------------------
  // A worker that runs alone

  /** One worker moves, and all its I/O succeeds. */
  function Alone(w: nat, n: nat): seq<Event> {
    seq(n, i => Event(w, true))
  }

  ghost predicate Solo(env: Env, s: State, w: nat, n: nat, s': State) {
    Run(env, s, Alone(w, n)) == s'
  }

  lemma SoloMore(env: Env, s: State, w: nat, n: nat, s': State, s'': State)
    requires Solo(env, s, w, n, s') && w < |s'.promoters| && Step(env, s', w, true) == s''
    ensures Solo(env, s, w, n + 1, s'')
  {
    RunExtends(env, s, Alone(w, n), Event(w, true));
    assert Alone(w, n) + [Event(w, true)] == Alone(w, n + 1);
  }

  /** The state with the promoter somewhere else. */
  function At(s: State, w: nat, phase: Phase, held: seq<string>): State
    requires w < |s.promoters|
  {
    s.(promoters := s.promoters[w := Promoter(s.promoters[w].req, phase, held)])
  }

  /** Neither the destination, nor the manifest, nor a lock of the request is there. */
  predicate Free(env: Env, s: State, req: Request) {
    && req.destination !in s.destinations && ManifestName(req.materializationKey) !in s.manifests
    && LockNames(env, req)[0] !in s.locks && LockNames(env, req)[1] !in s.locks
  }

  /** The looks find nothing. */
  lemma SoloLooks(env: Env, s: State, w: nat)
    requires w < |s.promoters| && s.promoters[w] == Start(s.promoters[w].req) && StartPhase(s.promoters[w].req).FirstLookAtDestination?
    requires Free(env, s, s.promoters[w].req)
    ensures Solo(env, s, w, 5, At(s, w, Acquire, []))
  {
    assert Alone(w, 0) == [] && s == At(s, w, FirstLookAtDestination, []);
    SoloMore(env, s, w, 0, s, At(s, w, FirstLookAtManifest, []));
    SoloMore(env, s, w, 1, At(s, w, FirstLookAtManifest, []), At(s, w, CopyToStage, []));
    SoloMore(env, s, w, 2, At(s, w, CopyToStage, []), At(s, w, SecondLookAtDestination, []));
    SoloMore(env, s, w, 3, At(s, w, SecondLookAtDestination, []), At(s, w, SecondLookAtManifest, []));
    SoloMore(env, s, w, 4, At(s, w, SecondLookAtManifest, []), At(s, w, Acquire, []));
  }

  /** Both locks are created. */
  lemma SoloLocks(env: Env, s: State, w: nat, l: seq<string>)
    requires w < |s.promoters| && Solo(env, s, w, 5, At(s, w, Acquire, [])) && Free(env, s, s.promoters[w].req)
    requires l == LockNames(env, s.promoters[w].req)
    ensures Solo(env, s, w, 8, At(s, w, LockedLookAtDestination, l).(locks := s.locks + {l[0], l[1]}))
  {
    LockNamesDiffer(env, s.promoters[w].req);
    var one := At(s, w, Acquire, [l[0]]).(locks := s.locks + {l[0]});
    var both := At(s, w, Acquire, l).(locks := s.locks + {l[0], l[1]});
    assert [] + [l[0]] == [l[0]] && [l[0]] + [l[1]] == l && s.locks + {l[0]} + {l[1]} == s.locks + {l[0], l[1]};
    SoloMore(env, s, w, 5, At(s, w, Acquire, []), one);
    SoloMore(env, s, w, 6, one, both);
    SoloMore(env, s, w, 7, both, At(s, w, LockedLookAtDestination, l).(locks := s.locks + {l[0], l[1]}));
  }

  /** The content is renamed into place and the manifest written. */
  lemma SoloWrites(env: Env, s: State, w: nat, l: seq<string>, locked: State)
    requires w < |s.promoters| && l == LockNames(env, s.promoters[w].req) && Free(env, s, s.promoters[w].req)
    requires locked == s.(locks := s.locks + {l[0], l[1]}) && Solo(env, s, w, 8, At(locked, w, LockedLookAtDestination, l))
    ensures Solo(env, s, w, 12, At(Promotes(env, locked, s.promoters[w].req), w, Release(Promoted), l))
  {
    var req := s.promoters[w].req;
    var renamed := locked.(destinations := locked.destinations[req.destination := req.content]);
    SoloMore(env, s, w, 8, At(locked, w, LockedLookAtDestination, l), At(locked, w, LockedLookAtManifest, l));
    SoloMore(env, s, w, 9, At(locked, w, LockedLookAtManifest, l), At(locked, w, Rename, l));
    SoloMore(env, s, w, 10, At(locked, w, Rename, l), At(renamed, w, WriteManifest, l));
    SoloMore(env, s, w, 11, At(renamed, w, WriteManifest, l), At(Promotes(env, locked, req), w, Release(Promoted), l));
  }

  /** The content of the request is at its destination, and its manifest carries the request's own keys
      and the evidence of that content. */
  function Promotes(env: Env, s: State, req: Request): State {
    s.(destinations := s.destinations[req.destination := req.content],
       manifests := s.manifests[ManifestName(req.materializationKey) :=
         Manifest(req.assetKey, req.materializationKey, req.domainId, req.destination, env.evidenceOf(req.content))])
  }

  /** The locks are removed. */
  lemma SoloReleases(env: Env, s: State, w: nat, l: seq<string>, done: State)
    requires w < |s.promoters| && w < |done.promoters| && |l| == 2 && l[0] != l[1] && l[0] !in done.locks && l[1] !in done.locks
    requires Solo(env, s, w, 12, At(done, w, Release(Promoted), l).(locks := done.locks + {l[0], l[1]}))
    ensures Solo(env, s, w, 15, At(done, w, Finished(Promoted), []))
  {
    assert l[1..] == [l[1]] && [l[1]][1..] == [];
    assert done.locks + {l[0], l[1]} - {l[0]} == done.locks + {l[1]} && done.locks + {l[1]} - {l[1]} == done.locks;
    SoloMore(env, s, w, 12, At(done, w, Release(Promoted), l).(locks := done.locks + {l[0], l[1]}),
             At(done, w, Release(Promoted), [l[1]]).(locks := done.locks + {l[1]}));
    SoloMore(env, s, w, 13, At(done, w, Release(Promoted), [l[1]]).(locks := done.locks + {l[1]}), At(done, w, Release(Promoted), []));
    SoloMore(env, s, w, 14, At(done, w, Release(Promoted), []), At(done, w, Finished(Promoted), []));
  }

  /** From any root where its destination, its manifest and its locks are absent, a worker that runs
      alone and whose I/O succeeds ends promoted: its content is at the destination, with a manifest of
      its own, it holds no lock, and nothing else has changed. */
  lemma AlonePromotes(env: Env, s: State, w: nat)
    requires w < |s.promoters| && s.promoters[w] == Start(s.promoters[w].req) && StartPhase(s.promoters[w].req).FirstLookAtDestination?
    requires Free(env, s, s.promoters[w].req)
    ensures
      var req := s.promoters[w].req;
      var s' := Run(env, s, Alone(w, 15));
      && s'.promoters == s.promoters[w := Promoter(req, Finished(Promoted), [])] && s'.locks == s.locks && s'.orphaned == s.orphaned
      && s'.destinations == s.destinations[req.destination := req.content]
      && s'.manifests == s.manifests[ManifestName(req.materializationKey) :=
           Manifest(req.assetKey, req.materializationKey, req.domainId, req.destination, env.evidenceOf(req.content))]
  {
    var req := s.promoters[w].req;
    var l := LockNames(env, req);
    LockNamesDiffer(env, req);
    SoloLooks(env, s, w);
    SoloLocks(env, s, w, l);
    var locked := s.(locks := s.locks + {l[0], l[1]});
    assert At(s, w, LockedLookAtDestination, l).(locks := s.locks + {l[0], l[1]}) == At(locked, w, LockedLookAtDestination, l);
    SoloWrites(env, s, w, l, locked);
    var done := Promotes(env, s, req);
    assert At(done, w, Release(Promoted), l).(locks := done.locks + {l[0], l[1]}) == At(Promotes(env, locked, req), w, Release(Promoted), l);
    SoloReleases(env, s, w, l, done);
  }

  // ---------------------------------------------------------------------------------------
  // The cause of an outcome

  /** This step of the worker decides its outcome. */
  predicate Decides(env: Env, s: State, w: nat, ok: bool, outcome: Outcome)
    requires w < |s.promoters|
  {
    var p := s.promoters[w];
    match outcome
    case Promoted => p.phase.WriteManifest? && ok
    case AlreadyExists =>
      || ((p.phase.FirstLookAtDestination? || p.phase.SecondLookAtDestination? || p.phase.LockedLookAtDestination?)
          && p.req.destination in s.destinations)
      || ((p.phase.FirstLookAtManifest? || p.phase.SecondLookAtManifest? || p.phase.LockedLookAtManifest?)
          && ManifestName(p.req.materializationKey) in s.manifests)
    case InProgress =>
      && p.phase.Acquire?
      && (|| (p.held == [] && LockName(env, "destination", p.req.destination) in s.locks)
          || (|p.held| == 1 && LockName(env, "manifest", p.req.materializationKey) in s.locks))
    case IoError => !ok && (p.phase.CopyToStage? || p.phase.Acquire? || p.phase.Rename? || p.phase.WriteManifest?)
    case SourceReturned => false
    case Rejected => false
  }

  /** Some step of the run decided this outcome. */
  ghost predicate Caused(env: Env, s: State, events: seq<Event>, w: nat, outcome: Outcome) {
    exists k :: DecidedAt(env, s, events, w, outcome, k)
  }

  ghost predicate DecidedAt(env: Env, s: State, events: seq<Event>, w: nat, outcome: Outcome, k: int) {
    && 0 <= k < |events| && events[k].worker == w
    && w < |Run(env, s, events[..k]).promoters| && Decides(env, Run(env, s, events[..k]), w, events[k].ok, outcome)
  }

  predicate HasOutcome(p: Promoter, outcome: Outcome) {
    p.phase == Release(outcome) || p.phase == Finished(outcome) || (outcome == IoError && p.phase.Rollback?)
  }

  predicate AtStart(req: Request, outcome: Outcome) {
    || (outcome == SourceReturned && IsBlank(req.destination))
    || (outcome == Rejected && !IsBlank(req.destination) && !(KEY_PREFIX <= req.materializationKey))
  }

  lemma CausedBefore(env: Env, s: State, events: seq<Event>, w: nat, outcome: Outcome)
    requires events != [] && Caused(env, s, events[..|events| - 1], w, outcome)
    ensures Caused(env, s, events, w, outcome)
  {
    var front := events[..|events| - 1];
    var k :| DecidedAt(env, s, front, w, outcome, k);
    assert front[..k] == events[..k];
    assert DecidedAt(env, s, events, w, outcome, k);
  }

  lemma OthersStay(env: Env, s: State, v: nat, ok: bool, w: nat)
    requires v < |s.promoters| && w < |s.promoters|
    ensures |Step(env, s, v, ok).promoters| == |s.promoters| && Step(env, s, v, ok).promoters[w].req == s.promoters[w].req
    ensures v != w ==> Step(env, s, v, ok).promoters[w] == s.promoters[w]
  {
    if !s.promoters[v].phase.Acquire? && !s.promoters[v].phase.Release? {
      StepMoves(env, s, v, ok);
    }
  }

  lemma AcquireDecides(env: Env, s: State, w: nat, ok: bool, outcome: Outcome)
    requires w < |s.promoters| && s.promoters[w].phase.Acquire?
    ensures |AcquireStep(env, s, w, ok).promoters| == |s.promoters|
    ensures HasOutcome(AcquireStep(env, s, w, ok).promoters[w], outcome) ==> Decides(env, s, w, ok, outcome)
  {
  }

  lemma ReleaseDecides(s: State, w: nat, ok: bool, outcome: Outcome)
    requires w < |s.promoters| && s.promoters[w].phase.Release?
    ensures |ReleaseStep(s, w, ok).promoters| == |s.promoters|
    ensures HasOutcome(ReleaseStep(s, w, ok).promoters[w], outcome) <==> HasOutcome(s.promoters[w], outcome)
  {
  }

  /** Where a step that neither acquires nor releases a lock leads. */
  function NextPhase(s: State, w: nat, ok: bool): Phase
    requires w < |s.promoters|
  {
    var p := s.promoters[w];
    var there := p.req.destination in s.destinations;
    var written := ManifestName(p.req.materializationKey) in s.manifests;
    match p.phase
    case FirstLookAtDestination => if there then Finished(AlreadyExists) else FirstLookAtManifest
    case FirstLookAtManifest => if written then Finished(AlreadyExists) else CopyToStage
    case CopyToStage => if ok then SecondLookAtDestination else Finished(IoError)
    case SecondLookAtDestination => if there then Finished(AlreadyExists) else SecondLookAtManifest
    case SecondLookAtManifest => if written then Finished(AlreadyExists) else Acquire
    case LockedLookAtDestination => if there then Release(AlreadyExists) else LockedLookAtManifest
    case LockedLookAtManifest => if written then Release(AlreadyExists) else Rename
    case Rename => if ok then WriteManifest else Release(IoError)
    case WriteManifest => if ok then Release(Promoted) else Rollback
    case Rollback => Release(IoError)
    case phase => phase
  }

  lemma StepMoves(env: Env, s: State, w: nat, ok: bool)
    requires w < |s.promoters| && !s.promoters[w].phase.Acquire? && !s.promoters[w].phase.Release?
    ensures Step(env, s, w, ok).promoters == s.promoters[w := s.promoters[w].(phase := NextPhase(s, w, ok))]
  {
  }

  lemma NextDecides(env: Env, s: State, w: nat, ok: bool, outcome: Outcome)
    requires w < |s.promoters| && !HasOutcome(s.promoters[w], outcome)
    requires !s.promoters[w].phase.Acquire? && !s.promoters[w].phase.Release?
    ensures HasOutcome(s.promoters[w].(phase := NextPhase(s, w, ok)), outcome) ==> Decides(env, s, w, ok, outcome)
  {
  }

  lemma LookDecides(env: Env, s: State, w: nat, ok: bool, outcome: Outcome)
    requires w < |s.promoters| && !HasOutcome(s.promoters[w], outcome)
    requires !s.promoters[w].phase.Acquire? && !s.promoters[w].phase.Release?
    ensures |Step(env, s, w, ok).promoters| == |s.promoters|
    ensures HasOutcome(Step(env, s, w, ok).promoters[w], outcome) ==> Decides(env, s, w, ok, outcome)
  {
    StepMoves(env, s, w, ok);
    NextDecides(env, s, w, ok, outcome);
  }

  lemma OwnStep(env: Env, s: State, w: nat, ok: bool, outcome: Outcome)
    requires w < |s.promoters| && w < |Step(env, s, w, ok).promoters|
    ensures HasOutcome(Step(env, s, w, ok).promoters[w], outcome) ==>
            HasOutcome(s.promoters[w], outcome) || Decides(env, s, w, ok, outcome)
    ensures HasOutcome(s.promoters[w], outcome) ==> HasOutcome(Step(env, s, w, ok).promoters[w], outcome)
  {
    if s.promoters[w].phase.Acquire? {
      AcquireDecides(env, s, w, ok, outcome);
    } else if s.promoters[w].phase.Release? {
      ReleaseDecides(s, w, ok, outcome);
    } else if !HasOutcome(s.promoters[w], outcome) {
      LookDecides(env, s, w, ok, outcome);
    }
  }

  /** One step: who moves, and what an outcome needs. */
  lemma StepDecides(env: Env, s: State, v: nat, ok: bool, w: nat, outcome: Outcome)
    requires v < |s.promoters| && w < |s.promoters|
    ensures |Step(env, s, v, ok).promoters| == |s.promoters| && Step(env, s, v, ok).promoters[w].req == s.promoters[w].req
    ensures HasOutcome(Step(env, s, v, ok).promoters[w], outcome) ==>
            HasOutcome(s.promoters[w], outcome) || (v == w && Decides(env, s, w, ok, outcome))
    ensures HasOutcome(s.promoters[w], outcome) ==> HasOutcome(Step(env, s, v, ok).promoters[w], outcome)
  {
    OthersStay(env, s, v, ok, w);
    if v == w {
      OwnStep(env, s, w, ok, outcome);
    }
  }

  lemma WritingPromotes(env: Env, s: State, w: nat)
    requires w < |s.promoters| && s.promoters[w].phase.WriteManifest?
    ensures
      var s', req := Step(env, s, w, true), s.promoters[w].req;
      && w < |s'.promoters| && HasOutcome(s'.promoters[w], Promoted) && s'.destinations == s.destinations
      && s'.manifests == s.manifests[ManifestName(req.materializationKey) :=
           Manifest(req.assetKey, req.materializationKey, req.domainId, req.destination, env.evidenceOf(req.content))]
  {
  }

  function Advance(env: Env, s: State, e: Event): State {
    if e.worker < |s.promoters| then Step(env, s, e.worker, e.ok) else s
  }

  lemma RunFirst(env: Env, s: State, events: seq<Event>, s1: State)
    requires events != [] && s1 == Advance(env, s, events[0])
    ensures Run(env, s, events) == Run(env, s1, events[1..])
  {
  }

  lemma RunNone(env: Env, s: State)
    ensures Run(env, s, []) == s
  {
  }

  lemma {:induction false} RunLast(env: Env, s: State, events: seq<Event>)
    requires events != []
    ensures Run(env, s, events) == Advance(env, Run(env, s, events[..|events| - 1]), events[|events| - 1])
    decreases |events|
  {
    var s1, front, rest := Advance(env, s, events[0]), events[..|events| - 1], events[1..];
    RunFirst(env, s, events, s1);
    if |events| == 1 {
      assert front == [] && rest == [];
      RunNone(env, s);
      RunNone(env, s1);
    } else {
      assert rest[..|rest| - 1] == front[1..] && front[0] == events[0];
      RunLast(env, s1, rest);
      RunFirst(env, s, front, s1);
    }
  }

  /** In every interleaving: a promoter ends with an outcome only for its cause, that is, promoted
      because it wrote its manifest, already existing because one of its looks found the destination or
      the manifest, in progress because a lock it needed was taken, with an error because its own I/O
      failed, and otherwise because of its request alone. */
  lemma {:induction false} OutcomeHasCause(env: Env, s: State, events: seq<Event>, w: nat, outcome: Outcome)
    requires w < |s.promoters| && s.promoters[w] == Start(s.promoters[w].req)
    ensures w < |Run(env, s, events).promoters| && Run(env, s, events).promoters[w].req == s.promoters[w].req
    ensures HasOutcome(Run(env, s, events).promoters[w], outcome) ==>
            AtStart(s.promoters[w].req, outcome) || Caused(env, s, events, w, outcome)
    decreases |events|
  {
    if events != [] {
      var front, e := events[..|events| - 1], events[|events| - 1];
      OutcomeHasCause(env, s, front, w, outcome);
      RunLast(env, s, events);
      var before := Run(env, s, front);
      if Caused(env, s, front, w, outcome) {
        CausedBefore(env, s, events, w, outcome);
      }
      if e.worker < |before.promoters| {
        StepDecides(env, before, e.worker, e.ok, w, outcome);
        if e.worker == w && Decides(env, before, w, e.ok, outcome) {
          assert DecidedAt(env, s, events, w, outcome, |events| - 1);
        }
      }
    }
  }

  /** The manifest of the request and the content it names. */
  predicate IsPromoted(env: Env, s: State, req: Request) {
    var n := ManifestName(req.materializationKey);
    && n in s.manifests && req.destination in s.destinations && s.destinations[req.destination] == req.content
    && s.manifests[n] == Manifest(req.assetKey, req.materializationKey, req.domainId, req.destination, env.evidenceOf(req.content))
  }

  lemma StepKeepsPromoted(env: Env, s: State, v: nat, ok: bool, w: nat)
    requires Inv(env, s) && v < |s.promoters| && w < |s.promoters|
    requires HasOutcome(s.promoters[w], Promoted) ==> IsPromoted(env, s, s.promoters[w].req)
    ensures
      var s' := Step(env, s, v, ok);
      w < |s'.promoters| && (HasOutcome(s'.promoters[w], Promoted) ==> IsPromoted(env, s', s.promoters[w].req))
  {
    StepDecides(env, s, v, ok, w, Promoted);
    if HasOutcome(s.promoters[w], Promoted) {
      StepKeepsFinished(env, s, v, ok, ManifestName(s.promoters[w].req.materializationKey));
    } else if v == w && Decides(env, s, w, ok, Promoted) {
      assert PromoterInv(s, s.promoters[w]);
      WritingPromotes(env, s, w);
    }
  }

  /** In every interleaving: a promoter is promoted if and only if it wrote its manifest, and then that
      manifest and the content it put in place are there. */
  lemma {:induction false} PromotedIffWritten(env: Env, s: State, events: seq<Event>, w: nat)
    requires Init(env, s) && w < |s.promoters|
    ensures w < |Run(env, s, events).promoters|
    ensures HasOutcome(Run(env, s, events).promoters[w], Promoted) <==> Caused(env, s, events, w, Promoted)
    ensures HasOutcome(Run(env, s, events).promoters[w], Promoted) ==> IsPromoted(env, Run(env, s, events), s.promoters[w].req)
    decreases |events|
  {
    OutcomeHasCause(env, s, events, w, Promoted);
    if events != [] {
      var front, e := events[..|events| - 1], events[|events| - 1];
      PromotedIffWritten(env, s, front, w);
      OutcomeHasCause(env, s, front, w, Promoted);
      RunLast(env, s, events);
      var before := Run(env, s, front);
      if Caused(env, s, events, w, Promoted) {
        WrittenBefore(env, s, events, w);
      }
      if e.worker < |before.promoters| {
        InitEstablishesInv(env, s);
        RunKeepsInv(env, s, front);
        StepDecides(env, before, e.worker, e.ok, w, Promoted);
        StepKeepsPromoted(env, before, e.worker, e.ok, w);
      }
    }
  }

  /** Whoever wrote its manifest did so in the last step or before. */
  lemma WrittenBefore(env: Env, s: State, events: seq<Event>, w: nat)
    requires events != [] && Caused(env, s, events, w, Promoted)
    requires w < |Run(env, s, events[..|events| - 1]).promoters|
    requires Caused(env, s, events[..|events| - 1], w, Promoted) ==> HasOutcome(Run(env, s, events[..|events| - 1]).promoters[w], Promoted)
    ensures w < |Run(env, s, events).promoters| && HasOutcome(Run(env, s, events).promoters[w], Promoted)
  {
    var front, e := events[..|events| - 1], events[|events| - 1];
    var k :| DecidedAt(env, s, events, w, Promoted, k);
    RunLast(env, s, events);
    var before := Run(env, s, front);
    if e.worker < |before.promoters| {
      StepDecides(env, before, e.worker, e.ok, w, Promoted);
    }
    if k < |events| - 1 {
      assert front[..k] == events[..k];
      assert DecidedAt(env, s, front, w, Promoted, k);
    } else {
      WritingPromotes(env, before, w);
    }
  }
}

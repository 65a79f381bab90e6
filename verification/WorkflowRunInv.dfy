/** The invariant of a workflow run and its preservation by the parts every handler is made of. */
module WorkflowRunInv {
  import opened DependencyStore
  import opened StoreLaws
  import opened StoreView
  import opened StoreEffects
  import opened WorkflowRun

  // ---------------------------------------------------------------------------------------
  // Assumptions on the plan and the compiler

  /** Stage indexes are contiguous from zero. */
  ghost predicate Contiguous(s: Store) {
    && StageKnown(s, 0)
    && (forall r :: r in s.steps ==> r.stageIndex >= 0)
    && (forall r, j :: r in s.steps && 0 <= j < r.stageIndex ==> StageKnown(s, j))
  }

  predicate HasStep(steps: seq<StepRecord>, stageIndex: int, stepIndex: int) {
    exists r :: r in steps && r.stageIndex == stageIndex && r.stepIndex == stepIndex
  }

  /** The compiler places items on steps of the stage; asset items wait for nothing. */
  predicate SoundStage(steps: seq<StepRecord>, stageIndex: int, compiled: seq<Compiled>) {
    forall y :: y in compiled ==> HasStep(steps, stageIndex, y.stepIndex) && (y.asset ==> y.dependsOn == [])
  }

  ghost predicate SoundConfig(cfg: Config, steps: seq<StepRecord>) {
    && (forall i :: cfg.compile(i).Some? ==> SoundStage(steps, i, cfg.compile(i).value))
    && NamesOutputs(cfg.aggregate) && cfg.empty.sha256 != ""
  }

  ghost predicate Setting(cfg: Config, s: Store) {
    UniqueStepRecords(s) && Contiguous(s) && SoundConfig(cfg, s.steps)
  }

  // ---------------------------------------------------------------------------------------
  // What always holds

  /** The item is what the compiler produced at its position. */
  predicate IsCompiled(cfg: Config, x: Item) {
    var r := cfg.compile(x.stageIndex);
    && r.Some? && x.index < |r.value|
    && r.value[x.index] == Compiled(x.id, x.stepIndex, x.dependsOn, x.asset)
  }

  predicate InWork(work: seq<Item>, stageIndex: int, index: nat) {
    exists x :: x in work && x.stageIndex == stageIndex && x.index == index
  }

  /** The whole stage of an item was inserted with it. */
  predicate WholeStage(cfg: Config, work: seq<Item>, x: Item) {
    cfg.compile(x.stageIndex).Some? ==>
      forall k :: 0 <= k < |cfg.compile(x.stageIndex).value| ==> InWork(work, x.stageIndex, k)
  }

  predicate WorkSound(cfg: Config, work: seq<Item>) {
    && (forall x :: x in work ==> IsCompiled(cfg, x) && WholeStage(cfg, work, x))
    && DistinctIds(work)
  }

  lemma SameId(work: seq<Item>, x: Item, y: Item)
    requires DistinctIds(work) && x in work && y in work && x.id == y.id
    ensures x == y
  {
    var i :| 0 <= i < |work| && work[i] == x;
    var j :| 0 <= j < |work| && work[j] == y;
    assert i == j;
  }

  predicate Deferred(cfg: Config, x: Item) {
    cfg.compile(x.stageIndex).Some? && HasCurrentStageDependency(x.dependsOn, CompiledIds(cfg.compile(x.stageIndex).value))
  }

  predicate AllSucceed(s: Store, dependsOn: seq<string>) {
    forall k :: 0 <= k < |dependsOn| ==> Succeeds(s, dependsOn[k])
  }

  predicate InOnePlace(s: Store, id: string) {
    && !(id in s.queued && id in s.running)
    && !(id in s.queued && id in s.terminal)
    && !(id in s.running && id in s.terminal)
  }

  predicate Distinct(ids: seq<string>) {
    forall i, j :: 0 <= i < j < |ids| ==> ids[i] != ids[j]
  }

  /** Queue and attempts speak of known items; items that are not deferred were queued at once. */
  ghost predicate QueueSound(cfg: Config, c: Controller) {
    && (forall id :: Touched(c.store, id) ==> id in Ids(c.work))
    && (forall x :: x in c.work && !Deferred(cfg, x) ==> Touched(c.store, x.id))
    && (forall x :: x in c.work && !x.asset ==> InOnePlace(c.store, x.id))
  }

  function Wanted(dependsOn: seq<string>): set<string> {
    set d | d in dependsOn
  }

  /** Items of one stage that depend on the same items. */
  predicate Alike(x: Item, y: Item) {
    x.stageIndex == y.stageIndex && Wanted(x.dependsOn) == Wanted(y.dependsOn)
  }

  /** The log names exactly the deferred items ever queued, each once, and what they waited for has
      succeeded; items that are alike are released together. */
  predicate ReleasesSound(cfg: Config, c: Controller) {
    && Distinct(c.released)
    && (forall id :: id in c.released ==> id in Ids(c.work))
    && (forall x :: x in c.work ==> (x.id in c.released <==> Deferred(cfg, x) && Touched(c.store, x.id)))
    && (forall x :: x in c.work && x.id in c.released ==> AllSucceed(c.store, x.dependsOn))
    && (forall x, y :: x in c.work && y in c.work && Alike(x, y) && x.id in c.released ==> y.id in c.released)
  }

  ghost predicate Always(cfg: Config, c: Controller) {
    WorkSound(cfg, c.work) && QueueSound(cfg, c) && ReleasesSound(cfg, c)
  }

  // ---------------------------------------------------------------------------------------
  // What holds while nothing has failed; `f` is the last stage opened

  predicate MemberKnown(work: seq<Item>, m: MemberRecord) {
    exists x :: x in work && !x.asset && m == MemberOf(x)
  }

  predicate MembersSound(c: Controller) {
    && (forall m :: m in c.store.members ==> MemberKnown(c.work, m))
    && (forall x :: x in c.work && !x.asset ==> (MemberOf(x) in c.store.members <==> Touched(c.store, x.id)))
  }

  predicate Waits(c: Controller, x: Item, done: set<string>) {
    exists k :: 0 <= k < |x.dependsOn| &&
      (!Succeeds(c.store, x.dependsOn[k]) || x.dependsOn[k] in c.refused || x.dependsOn[k] in done)
  }

  /** Every item not yet queued waits for something; `done` is a completion still being handled. */
  predicate WaitersSound(c: Controller, done: set<string>) {
    forall x :: x in c.work && !Touched(c.store, x.id) ==> Waits(c, x, done)
  }

  predicate FactKnown(s: Store, k: int, f: int)
    requires k in s.facts
  {
    s.facts[k].sha256 != "" && exists r :: r in s.steps && r.stepIndex == k && r.stageIndex <= f
  }

  /** Facts lie on opened stages, on all steps of the stages before the last one, and on every step
      whose memberships have all finished; `late` is a step whose report is being handled. */
  predicate FactsSound(s: Store, f: int, late: set<int>) {
    && (forall k :: k in s.facts ==> FactKnown(s, k, f))
    && (forall r :: r in s.steps && r.stageIndex < f ==> r.stepIndex in s.facts)
    && (forall r :: r in s.steps && HasMembers(s, r) && AllTerminal(s, r) && r.stepIndex !in late ==> r.stepIndex in s.facts)
  }

  /** No plan was saved and no membership has a failed attempt; asset items may have one. */
  predicate AttemptsSound(s: Store) {
    && s.saved.None? && OutputsKept(s)
    && (forall m :: m in s.members && m.id in s.terminal ==> !s.terminal[m.id].failed)
  }

  predicate WorkUpTo(c: Controller, f: int) {
    f >= 0 && forall x :: x in c.work ==> x.stageIndex <= f
  }

  predicate Clean(c: Controller, f: int, done: set<string>, late: set<int>) {
    && AttemptsSound(c.store) && MembersSound(c) && WaitersSound(c, done)
    && FactsSound(c.store, f, late) && WorkUpTo(c, f)
  }

  predicate Settled(s: Store, i: int) {
    forall r :: r in s.steps && r.stageIndex == i ==> r.stepIndex in s.facts
  }

  predicate IsUncompiled(cfg: Config, r: StepRecord) {
    cfg.compile(r.stageIndex).Some? && r.stepIndex !in CompiledSteps(cfg.compile(r.stageIndex).value)
  }

  /** Only steps with memberships and steps that compiled to nothing ever have a fact. */
  predicate FactOrigin(cfg: Config, s: Store) {
    forall r :: r in s.steps && r.stepIndex in s.facts ==> HasMembers(s, r) || IsUncompiled(cfg, r)
  }

  /** The items of the stage are known, and its other steps have their facts. */
  predicate StageOpened(cfg: Config, c: Controller, i: int) {
    && cfg.compile(i).Some?
    && (forall r :: r in c.store.steps && r.stageIndex == i && IsUncompiled(cfg, r) ==> r.stepIndex in c.store.facts)
    && (forall k :: 0 <= k < |cfg.compile(i).value| ==> InWork(c.work, i, k))
  }

  // ---------------------------------------------------------------------------------------
  // Steps whose output covers all their items

  predicate IsDeferred(compiled: seq<Compiled>, y: Compiled) {
    HasCurrentStageDependency(y.dependsOn, CompiledIds(compiled))
  }

  predicate TrackedOn(compiled: seq<Compiled>, stepIndex: int, y: Compiled) {
    y in compiled && y.stepIndex == stepIndex && !y.asset
  }

  /** No tracked item of the step waits for its own stage. */
  predicate NoneDeferred(compiled: seq<Compiled>, stepIndex: int) {
    forall y :: y in compiled && y.stepIndex == stepIndex && !y.asset ==> !IsDeferred(compiled, y)
  }

  predicate Link(compiled: seq<Compiled>, id: string, d: string) {
    exists z :: z in compiled && z.id == id && IsDeferred(compiled, z) && d in z.dependsOn
  }

  /** Each id of the path is that of a deferred item that waits for the next one. */
  predicate Chain(compiled: seq<Compiled>, path: seq<string>) {
    |path| >= 2 && forall k :: 0 <= k < |path| - 1 ==> Link(compiled, path[k], path[k + 1])
  }

  /** The item waits for `d`, directly or through other items. */
  ghost predicate Needs(compiled: seq<Compiled>, id: string, d: string) {
    exists path :: Chain(compiled, path) && path[0] == id && path[|path| - 1] == d
  }

  /** Whatever one tracked item of the step waits for, all of them do. */
  ghost predicate Uniform(compiled: seq<Compiled>, stepIndex: int) {
    forall x, y, d :: TrackedOn(compiled, stepIndex, x) && TrackedOn(compiled, stepIndex, y) && IsDeferred(compiled, x) && d in x.dependsOn ==>
      Needs(compiled, y.id, d)
  }

  /** All tracked items of the step depend on the same items. */
  ghost predicate SameDependencies(compiled: seq<Compiled>, stepIndex: int) {
    forall y, z :: TrackedOn(compiled, stepIndex, y) && TrackedOn(compiled, stepIndex, z) ==>
      Wanted(y.dependsOn) == Wanted(z.dependsOn)
  }

  /** All tracked items of the step are released together, whatever is refused or unless something is. */
  ghost predicate Covered(cfg: Config, refused: set<string>, r: StepRecord) {
    cfg.compile(r.stageIndex).Some? ==>
      var compiled := cfg.compile(r.stageIndex).value;
      || NoneDeferred(compiled, r.stepIndex) || SameDependencies(compiled, r.stepIndex)
      || (refused == {} && Uniform(compiled, r.stepIndex))
  }

  /** A step whose items are released together has its output only when all of them finished. */
  ghost predicate FactsCover(cfg: Config, c: Controller) {
    forall r :: r in c.store.steps && r.stepIndex in c.store.facts && Covered(cfg, c.refused, r) ==> AllTerminal(c.store, r)
  }

  lemma CoverKept(cfg: Config, c: Controller, c': Controller)
    requires FactsCover(cfg, c) && c.refused <= c'.refused
    requires c'.store.steps == c.store.steps && c'.store.facts == c.store.facts && c'.store.members == c.store.members
    requires forall id :: id in c.store.terminal ==> id in c'.store.terminal
    ensures FactsCover(cfg, c')
  {
    forall r | r in c'.store.steps && r.stepIndex in c'.store.facts && Covered(cfg, c'.refused, r)
      ensures AllTerminal(c'.store, r)
    {
      assert Covered(cfg, c.refused, r);
      assert AllTerminal(c.store, r);
    }
  }

  /** The last stage opened is unfinished, unless it is the last of the plan; `moving` says that the
      next one is about to be tried. */
  ghost predicate Onward(cfg: Config, c: Controller, f: int, moving: bool) {
    && FactOrigin(cfg, c.store) && FactsCover(cfg, c)
    && (Settled(c.store, f) ==> moving || !StageKnown(c.store, f + 1))
    && (Settled(c.store, f) || StageOpened(cfg, c, f))
  }

  predicate TrackedFailure(c: Controller, r: StepRecord, x: Item) {
    x in c.work && !x.asset && RecordedFailure(c.store, r, MemberOf(x))
  }

  /** The run has failed, in a way no later call undoes. */
  ghost predicate Failing(c: Controller) {
    c.store.saved.Some? || exists r, x :: TrackedFailure(c, r, x)
  }

  lemma FailingForGood(c: Controller)
    requires Failing(c)
    ensures FailedForGood(c.store)
  {
    if c.store.saved.None? {
      var r, x :| TrackedFailure(c, r, x);
      assert RecordedFailure(c.store, r, MemberOf(x));
    }
  }

  lemma FailingGrows(c: Controller, c': Controller)
    requires Failing(c) && Grows(c.store, c'.store) && c.work <= c'.work
    ensures Failing(c')
  {
    if c.store.saved.None? {
      var r, x :| TrackedFailure(c, r, x);
      assert TrackedFailure(c', r, x);
    }
  }

  ghost predicate Inv(cfg: Config, c: Controller) {
    && Setting(cfg, c.store) && SavedMeansFailed(c.store) && Always(cfg, c)
    && (Failing(c) || exists f :: Clean(c, f, {}, {}) && Onward(cfg, c, f, false))
  }

  /** More memberships and items change nothing here. */
  lemma OnwardGrows(cfg: Config, c: Controller, c': Controller, f: int, moving: bool)
    requires Onward(cfg, c, f, moving)
    requires c'.store.steps == c.store.steps && c'.store.facts == c.store.facts && c.store.members <= c'.store.members
    requires c.work <= c'.work && FactsCover(cfg, c')
    ensures Onward(cfg, c', f, moving)
  {
    FactOriginGrows(cfg, c.store, c'.store);
    if StageOpened(cfg, c, f) {
      forall k | 0 <= k < |cfg.compile(f).value|
        ensures InWork(c'.work, f, k)
      {
        assert InWork(c.work, f, k);
        var x :| x in c.work && x.stageIndex == f && x.index == k;
        assert x in c'.work;
      }
    }
  }

  lemma FactOriginGrows(cfg: Config, s: Store, s': Store)
    requires FactOrigin(cfg, s) && s'.steps == s.steps && s'.facts == s.facts && s.members <= s'.members
    ensures FactOrigin(cfg, s')
  {
    forall r | r in s'.steps && r.stepIndex in s'.facts
      ensures HasMembers(s', r) || IsUncompiled(cfg, r)
    {
      if HasMembers(s, r) {
        var m :| m in s.members && Matches(m, r);
        assert m in s'.members;
      }
    }
  }

  // ---------------------------------------------------------------------------------------
  // Consequences

  lemma CleanHealthy(c: Controller)
    requires AttemptsSound(c.store)
    ensures Healthy(c.store)
  {
  }

  lemma CleanUniqueIds(cfg: Config, c: Controller)
    requires WorkSound(cfg, c.work) && MembersSound(c)
    ensures UniqueIds(c.store)
  {
    forall m, k | m in c.store.members && k in c.store.members && m.id == k.id
      ensures m == k
    {
      assert MemberKnown(c.work, m) && MemberKnown(c.work, k);
      var x :| x in c.work && !x.asset && m == MemberOf(x);
      var y :| y in c.work && !y.asset && k == MemberOf(y);
      SameId(c.work, x, y);
    }
  }

  lemma StepOf(cfg: Config, c: Controller, x: Item) returns (r: StepRecord)
    requires Setting(cfg, c.store) && WorkSound(cfg, c.work) && x in c.work
    ensures r in c.store.steps && r.stageIndex == x.stageIndex && r.stepIndex == x.stepIndex && Matches(MemberOf(x), r)
    ensures x.asset ==> x.dependsOn == []
  {
    assert IsCompiled(cfg, x);
    var y := cfg.compile(x.stageIndex).value[x.index];
    assert y in cfg.compile(x.stageIndex).value && HasStep(c.store.steps, x.stageIndex, y.stepIndex);
    r :| r in c.store.steps && r.stageIndex == x.stageIndex && r.stepIndex == x.stepIndex;
  }

  // ---------------------------------------------------------------------------------------
  // Recording memberships of items not yet attempted

  predicate Recordable(s: Store, items: seq<Item>) {
    && (forall x :: x in items ==> StepKnown(s, x) && x.id !in s.terminal && NoClash(s, MemberOf(x)))
    && (forall i, j :: 0 <= i < j < |items| ==> items[i].id != items[j].id)
    && (forall i, j :: 0 <= i < j < |items| && items[i].stageIndex == items[j].stageIndex ==> items[i].index != items[j].index)
  }

  lemma FirstAppended(s: Store, items: seq<Item>)
    requires AttemptsSound(s) && UniqueStepRecords(s) && Recordable(s, items) && items != []
    ensures RecordMember(s, MemberOf(items[0])) == s.(members := s.members + [MemberOf(items[0])])
  {
    var x := items[0];
    assert x in items && StepKnown(s, x);
    var r :| r in s.steps && r.stageIndex == x.stageIndex && r.stepIndex == x.stepIndex;
    assert Healthy(s);
    MemberAppended(s, r, MemberOf(x));
  }

  lemma {:induction false} RecordFirst(s: Store, items: seq<Item>, s': Store)
    requires items != [] && RecordMember(s, MemberOf(items[0])) == s' && |s'.members| == |s.members| + 1
    ensures RecordMembers(s, items) == RecordMembers(s', items[1..])
  {
  }

  lemma MembersForFirst(members: seq<MemberRecord>, items: seq<Item>)
    requires items != []
    ensures members + [MemberOf(items[0])] + MembersFor(items[1..]) == members + MembersFor(items)
  {
  }

  lemma {:induction false} MembersAppended(s: Store, items: seq<Item>)
    requires AttemptsSound(s) && UniqueStepRecords(s) && Recordable(s, items)
    ensures RecordMembers(s, items) == (s.(members := s.members + MembersFor(items)), true)
    decreases |items|
  {
    if items == [] {
      assert s.members + MembersFor(items) == s.members;
    } else {
      var s' := s.(members := s.members + [MemberOf(items[0])]);
      FirstAppended(s, items);
      RecordFirst(s, items, s');
      RestRecordable(s, items);
      MembersAppended(s', items[1..]);
      MembersForFirst(s.members, items);
    }
  }

  lemma RestRecordable(s: Store, items: seq<Item>)
    requires Recordable(s, items) && items != []
    ensures Recordable(s.(members := s.members + [MemberOf(items[0])]), items[1..])
  {
    var s' := s.(members := s.members + [MemberOf(items[0])]);
    forall y | y in items[1..]
      ensures StepKnown(s', y) && y.id !in s'.terminal && NoClash(s', MemberOf(y))
    {
      var j :| 1 <= j < |items| && items[j] == y;
      assert y in items && StepKnown(s, y) && NoClash(s, MemberOf(y));
      assert items[0].id != items[j].id;
    }
  }

  // ---------------------------------------------------------------------------------------
  // Sequences of items kept from a list with distinct ids

  predicate DistinctIds(items: seq<Item>) {
    forall i, j :: 0 <= i < j < |items| ==> items[i].id != items[j].id
  }

  lemma {:induction false} KeepDistinct(items: seq<Item>, p: Item -> bool)
    requires DistinctIds(items)
    ensures DistinctIds(Keep(items, p))
  {
    if items != [] {
      KeepDistinct(items[1..], p);
      var rest := Keep(items[1..], p);
      forall j | 0 <= j < |rest|
        ensures rest[j].id != items[0].id
      {
        assert rest[j] in items[1..];
      }
    }
  }

  /** Two items of one stage with the same position are the same compiled item. */
  lemma SamePosition(cfg: Config, x: Item, y: Item)
    requires IsCompiled(cfg, x) && IsCompiled(cfg, y) && x.stageIndex == y.stageIndex && x.index == y.index
    ensures x.id == y.id
  {
  }
}

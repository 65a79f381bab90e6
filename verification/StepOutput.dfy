/** Aggregating the outputs of a step's work items: a bare object for one item, the list in index
    order for several, and the collection manifest for materialized collections. */
module StepOutput {
  import opened Wrappers
  import opened JsonValue
  import opened JsonText
  import opened Sorting
  import opened CanonicalJson
  import opened StrictJson
  import PlanModel
  import CollectionOutput

  type Item = PlanModel.Membership

  /** How an item's output text reads as a materialized asset. */
  datatype Candidate = Malformed | Ordinary | SingleAsset | CollectionMember(output: CollectionOutput.Output)

  datatype Config = Config(
    candidate: Item -> Candidate,
    itemFits: string -> bool,
    stepFits: string -> bool,
    collection: CollectionOutput.Checks,
    manifestText: CollectionOutput.Manifest -> Option<string>)

  /** The value of an output text. */
  function OutputValue(json: string): Option<Json> {
    match Parse(json)
    case None => None
    case Some(raw) => if Resolvable(LaxOf(raw)) then Some(Resolved(LaxOf(raw))) else None
  }

  function ItemKey(m: Item): Key {
    Key(m.index, m.id)
  }

  /** What an item needs to be aggregated. */
  predicate ItemReady(cfg: Config, m: Item) {
    && PlanModel.Succeeded(m) && m.output.json != "" && cfg.itemFits(m.output.json)
    && cfg.candidate(m) != Malformed
    && OutputValue(m.output.json).Some? && OutputValue(m.output.json).value.Object?
  }

  predicate AllReady(cfg: Config, items: seq<Item>) {
    forall i :: 0 <= i < |items| ==> ItemReady(cfg, items[i])
  }

  predicate DistinctIndexes(items: seq<Item>) {
    forall i, j :: 0 <= i < j < |items| ==> items[i].index != items[j].index
  }

  function Values(cfg: Config, items: seq<Item>): seq<Json>
    requires AllReady(cfg, items)
  {
    seq(|items|, i requires 0 <= i < |items| => ItemValue(items[i]))
  }

  function Collections(cfg: Config, items: seq<Item>): seq<CollectionOutput.Output> {
    if items == [] then []
    else
      var last := cfg.candidate(items[|items| - 1]);
      Collections(cfg, items[..|items| - 1]) + if last.CollectionMember? then [last.output] else []
  }

  ghost function Fitting(cfg: Config, text: string): Option<string> {
    if cfg.stepFits(text) then Some(text) else None
  }

  /** The aggregate of items in order; a mix of collection members with others is refused. */
  ghost function AggregateSorted(cfg: Config, items: seq<Item>): Option<string> {
    if !DistinctIndexes(items) || !AllReady(cfg, items) then None
    else
      var members := Collections(cfg, items);
      if members != [] then
        if |members| != |items| then None
        else
          match CollectionOutput.Aggregate(cfg.collection, members)
          case None => None
          case Some(manifest) =>
            match cfg.manifestText(manifest)
            case None => None
            case Some(text) => Fitting(cfg, text)
      else if |items| == 1 then Fitting(cfg, CanonicalText(Values(cfg, items)[0]))
      else Fitting(cfg, CanonicalText(List(Values(cfg, items))))
  }

  /** The aggregate output of a step. */
  ghost function Aggregate(cfg: Config, items: seq<Item>): Option<string> {
    AggregateSorted(cfg, SortBy(items, ItemKey))
  }

  // ---------------------------------------------------------------------------------------
  // The loop

  datatype Gathered = Gathered(seen: set<int>, values: seq<Json>, members: seq<CollectionOutput.Output>)

  function Taken(cfg: Config, g: Gathered, m: Item): Option<Gathered> {
    if m.index in g.seen || !ItemReady(cfg, m) then None
    else
      var c := cfg.candidate(m);
      Some(Gathered(g.seen + {m.index}, g.values + [ItemValue(m)], g.members + if c.CollectionMember? then [c.output] else []))
  }

  function Gather(cfg: Config, items: seq<Item>): Option<Gathered> {
    if items == [] then Some(Gathered({}, [], []))
    else
      match Gather(cfg, items[..|items| - 1])
      case None => None
      case Some(g) => Taken(cfg, g, items[|items| - 1])
  }

  /** Reads the outputs of sorted items one after the other. */
  method CollectOutputs(cfg: Config, items: seq<Item>) returns (r: Option<Gathered>)
    ensures r.Some? <==> DistinctIndexes(items) && AllReady(cfg, items)
    ensures r.Some? ==> r.value.values == Values(cfg, items) && r.value.members == Collections(cfg, items)
  {
    var g := Gathered({}, [], []);
    for i := 0 to |items|
      invariant Gather(cfg, items[..i]) == Some(g)
    {
      assert items[..i + 1][..i] == items[..i];
      var next := Taken(cfg, g, items[i]);
      if next.None? {
        GatherFails(cfg, items, i + 1);
        GatherExact(cfg, items);
        return None;
      }
      g := next.value;
    }
    assert items[..|items|] == items;
    GatherExact(cfg, items);
    r := Some(g);
  }

  lemma {:induction false} GatherFails(cfg: Config, items: seq<Item>, i: nat)
    requires i <= |items| && Gather(cfg, items[..i]).None?
    ensures Gather(cfg, items).None?
    decreases |items|
  {
    if i < |items| {
      assert items[..|items| - 1][..i] == items[..i];
      GatherFails(cfg, items[..|items| - 1], i);
    } else {
      assert items[..i] == items;
    }
  }

  predicate IndexSeen(items: seq<Item>, index: int) {
    exists k :: 0 <= k < |items| && items[k].index == index
  }

  lemma {:induction false} GatherExact(cfg: Config, items: seq<Item>)
    ensures Gather(cfg, items).Some? <==> DistinctIndexes(items) && AllReady(cfg, items)
    ensures Gather(cfg, items).Some? ==>
            var g := Gather(cfg, items).value;
            && g.values == Values(cfg, items) && g.members == Collections(cfg, items)
            && forall x :: x in g.seen <==> IndexSeen(items, x)
  {
    if items != [] {
      var front, last := items[..|items| - 1], items[|items| - 1];
      GatherExact(cfg, front);
      assert items == front + [last];
      OneMoreItem(cfg, front, last);
      CollectionsOneMore(cfg, front, last);
    }
  }

  lemma CollectionsOneMore(cfg: Config, front: seq<Item>, last: Item)
    ensures
      var c := cfg.candidate(last);
      Collections(cfg, front + [last]) == Collections(cfg, front) + if c.CollectionMember? then [c.output] else []
  {
    assert (front + [last])[..|front|] == front;
  }

  lemma OneMoreItem(cfg: Config, front: seq<Item>, last: Item)
    ensures DistinctIndexes(front + [last]) <==> DistinctIndexes(front) && !IndexSeen(front, last.index)
    ensures AllReady(cfg, front + [last]) <==> AllReady(cfg, front) && ItemReady(cfg, last)
    ensures AllReady(cfg, front + [last]) ==> Values(cfg, front + [last]) == Values(cfg, front) + [ItemValue(last)]
    ensures forall x :: IndexSeen(front + [last], x) <==> IndexSeen(front, x) || x == last.index
  {
    var all := front + [last];
    assert all[|front|] == last && forall k :: 0 <= k < |front| ==> all[k] == front[k];
    assert AllReady(cfg, all) ==> ItemReady(cfg, all[|front|]);
    SeenOneMore(front, last);
    if DistinctIndexes(all) {
      assert forall k :: 0 <= k < |front| ==> all[k].index != all[|front|].index;
    }
  }

  lemma SeenOneMore(front: seq<Item>, last: Item)
    ensures forall x :: IndexSeen(front + [last], x) <==> IndexSeen(front, x) || x == last.index
  {
    var all := front + [last];
    forall x
      ensures IndexSeen(all, x) <==> IndexSeen(front, x) || x == last.index
    {
      if IndexSeen(front, x) {
        var k :| 0 <= k < |front| && front[k].index == x;
        assert all[k].index == x;
      }
      assert all[|front|] == last;
    }
  }

  function ItemValue(m: Item): Json {
    var v := OutputValue(m.output.json);
    if v.Some? then v.value else Null
  }

  // ---------------------------------------------------------------------------------------
  // Order of the inputs

  lemma RepeatedKeyRefused(cfg: Config, items: seq<Item>)
    requires !Sorting.DistinctKeys(items, ItemKey)
    ensures AggregateSorted(cfg, items) == None
  {
    var i, j :| 0 <= i < j < |items| && ItemKey(items[i]) == ItemKey(items[j]);
    assert items[i].index == items[j].index;
  }

  /** The aggregate depends only on which items there are. */
  lemma OrderIsIrrelevant(cfg: Config, xs: seq<Item>, ys: seq<Item>)
    requires multiset(xs) == multiset(ys)
    ensures Aggregate(cfg, xs) == Aggregate(cfg, ys)
  {
    SortOfPermutation(xs, ys, ItemKey);
    if SortBy(xs, ItemKey) != SortBy(ys, ItemKey) {
      RepeatedKeyRefused(cfg, SortBy(xs, ItemKey));
      RepeatedKeyRefused(cfg, SortBy(ys, ItemKey));
    }
  }

  // ---------------------------------------------------------------------------------------
  // The ordinary case

  predicate AllOrdinary(cfg: Config, items: seq<Item>) {
    forall i :: 0 <= i < |items| ==> !cfg.candidate(items[i]).CollectionMember?
  }

  lemma {:induction false} OrdinaryHasNoMembers(cfg: Config, items: seq<Item>)
    requires AllOrdinary(cfg, items)
    ensures Collections(cfg, items) == []
  {
    if items != [] {
      OrdinaryHasNoMembers(cfg, items[..|items| - 1]);
    }
  }

  predicate IncreasingIndexes(items: seq<Item>) {
    forall i, j :: 0 <= i < j < |items| ==> items[i].index < items[j].index
  }

  lemma SortedIncreasing(items: seq<Item>)
    requires DistinctIndexes(SortBy(items, ItemKey))
    ensures IncreasingIndexes(SortBy(items, ItemKey))
  {
    var sorted := SortBy(items, ItemKey);
    SortInOrder(items, ItemKey);
    forall i, j | 0 <= i < j < |sorted|
      ensures sorted[i].index < sorted[j].index
    {
      assert !Before(ItemKey(sorted[j]), ItemKey(sorted[i]));
    }
  }

  lemma ValuesDecodable(cfg: Config, items: seq<Item>)
    requires AllReady(cfg, items)
    ensures !HasNull(List(Values(cfg, items))) && InRange(List(Values(cfg, items)))
    ensures forall i :: 0 <= i < |items| ==> !HasNull(Values(cfg, items)[i]) && InRange(Values(cfg, items)[i])
  {
    forall i | 0 <= i < |items|
      ensures !HasNull(Values(cfg, items)[i]) && InRange(Values(cfg, items)[i])
    {
      ResolvedInRange(LaxOf(Parse(items[i].output.json).value));
    }
  }

  /** Conditions on all items, or on all pairs of them, survive sorting. */
  lemma SortedAlike(cfg: Config, items: seq<Item>)
    ensures AllReady(cfg, SortBy(items, ItemKey)) <==> AllReady(cfg, items)
    ensures DistinctIndexes(SortBy(items, ItemKey)) <==> DistinctIndexes(items)
  {
    var sorted := SortBy(items, ItemKey);
    forall x
      ensures x in sorted <==> x in items
    {
      assert x in multiset(sorted) <==> x in multiset(items);
    }
    ReadyByItem(cfg, items);
    ReadyByItem(cfg, sorted);
    if DistinctIndexes(items) {
      DistinctPermuted(items, sorted);
    }
    if DistinctIndexes(sorted) {
      DistinctPermuted(sorted, items);
    }
  }

  lemma ReadyByItem(cfg: Config, items: seq<Item>)
    ensures AllReady(cfg, items) <==> forall x :: x in items ==> ItemReady(cfg, x)
  {
    if AllReady(cfg, items) {
      forall x | x in items
        ensures ItemReady(cfg, x)
      {
        var i :| 0 <= i < |items| && items[i] == x;
      }
    }
    if forall x :: x in items ==> ItemReady(cfg, x) {
      forall i | 0 <= i < |items|
        ensures ItemReady(cfg, items[i])
      {
        assert items[i] in items;
      }
    }
  }

  lemma DistinctPermuted(xs: seq<Item>, ys: seq<Item>)
    requires multiset(xs) == multiset(ys) && DistinctIndexes(xs)
    ensures DistinctIndexes(ys)
  {
    forall i, j | 0 <= i < j < |ys|
      ensures ys[i].index != ys[j].index
    {
      var a, b := Positions(xs, ys, i, j);
      assert a < b || b < a;
    }
  }

  /** The value of a step: that of its one item, or the list of those of its items. */
  function StepValue(cfg: Config, items: seq<Item>): Json
    requires AllReady(cfg, items)
  {
    if |items| == 1 then ItemValue(items[0]) else List(Values(cfg, items))
  }

  lemma OrdinarySorted(cfg: Config, items: seq<Item>)
    requires AllOrdinary(cfg, items)
    ensures AllOrdinary(cfg, SortBy(items, ItemKey))
  {
    var sorted := SortBy(items, ItemKey);
    forall i | 0 <= i < |sorted|
      ensures !cfg.candidate(sorted[i]).CollectionMember?
    {
      assert sorted[i] in multiset(items);
      var j :| 0 <= j < |items| && items[j] == sorted[i];
    }
  }

  lemma OrdinarySortedExact(cfg: Config, sorted: seq<Item>)
    requires AllOrdinary(cfg, sorted)
    ensures
      AggregateSorted(cfg, sorted) ==
      if DistinctIndexes(sorted) && AllReady(cfg, sorted) then Fitting(cfg, CanonicalText(StepValue(cfg, sorted))) else None
  {
    OrdinaryHasNoMembers(cfg, sorted);
  }

  /** Ordinary items have an aggregate exactly when their indexes differ, each has succeeded with an
      object of a fitting size, and the text of their values by index fits. */
  lemma AggregatesIff(cfg: Config, items: seq<Item>)
    requires AllOrdinary(cfg, items)
    ensures
      var sorted := SortBy(items, ItemKey);
      Aggregate(cfg, items).Some? <==>
        DistinctIndexes(items) && AllReady(cfg, items) && AllReady(cfg, sorted) && cfg.stepFits(CanonicalText(StepValue(cfg, sorted)))
  {
    SortedAlike(cfg, items);
    OrdinarySorted(cfg, items);
    OrdinarySortedExact(cfg, SortBy(items, ItemKey));
  }

  /** Of ordinary items, one gives its bare object; otherwise the aggregate is the list of the
      items' values by increasing work-item index. */
  lemma OrdinaryAggregate(cfg: Config, items: seq<Item>) returns (sorted: seq<Item>)
    requires Aggregate(cfg, items).Some? && AllOrdinary(cfg, items)
    ensures multiset(sorted) == multiset(items) && IncreasingIndexes(sorted) && AllReady(cfg, sorted)
    ensures
      var value := StrictDecode(Aggregate(cfg, items).value);
      value == Some(if |sorted| == 1 then ItemValue(sorted[0]) else List(Values(cfg, sorted)))
    ensures forall i :: 0 <= i < |sorted| ==> Values(cfg, sorted)[i].Object?
  {
    sorted := SortBy(items, ItemKey);
    OrdinarySorted(cfg, items);
    OrdinarySortedExact(cfg, sorted);
    SortedIncreasing(items);
    StepValueDecodes(cfg, sorted);
  }

  lemma StepValueDecodes(cfg: Config, items: seq<Item>)
    requires AllReady(cfg, items)
    ensures StrictDecode(CanonicalText(StepValue(cfg, items))) == Some(StepValue(cfg, items))
  {
    ValuesDecodable(cfg, items);
    if |items| == 1 {
      assert Values(cfg, items)[0] == ItemValue(items[0]);
    }
    StrictRoundTrip(StepValue(cfg, items));
  }
}

/** Aggregating the outputs of a materialized asset collection: all members must agree on one path
    template, cover the member indexes exactly, and differ in their bindings. */
module CollectionOutput {
  import opened Wrappers
  import opened Sorting
  import opened Strings
  import Decimal

  /** A dimension value of a member. */
  datatype Binding = TextBinding(s: string) | IntBinding(n: int) | BoolBinding(b: bool) | Unsupported

  datatype Output = Output(
    workItemId: string,
    memberIndex: int,
    memberCount: int,
    bindingName: string,
    domain: string,
    fingerprint: string,
    order: seq<string>,
    bindings: map<string, Binding>,
    memberDestination: string,
    templateIdentity: string,
    destination: string,
    materializationKey: string,
    localPath: string,
    evidence: string)

  datatype Dimension = Dimension(kind: string, values: seq<Binding>)

  datatype Manifest = Manifest(
    asset: string,
    domain: string,
    order: seq<string>,
    dimensions: map<string, Dimension>,
    path: string,
    memberCount: int,
    membersHash: string,
    fingerprint: string)

  /** The hash of the members' evidence, which may refuse, and the manifest's own validation. */
  datatype Checks = Checks(hash: seq<Output> -> Option<string>, valid: Manifest -> bool)

  // ---------------------------------------------------------------------------------------
  // Dimension values

  predicate IsBound(b: Binding) {
    match b
    case TextBinding(s) => !IsBlank(s)
    case Unsupported => false
    case _ => true
  }

  function Kind(b: Binding): string {
    match b
    case TextBinding(_) => "string"
    case IntBinding(_) => "int"
    case BoolBinding(_) => "bool"
    case Unsupported => ""
  }

  function ValueKey(b: Binding): string {
    match b
    case TextBinding(s) => s
    case IntBinding(n) => Decimal.OfInt(n)
    case BoolBinding(b) => if b then "true" else "false"
    case Unsupported => ""
  }

  /** Within one kind, the key determines the value. */
  lemma ValueKeyInjective(a: Binding, b: Binding)
    requires IsBound(a) && IsBound(b) && Kind(a) == Kind(b) && ValueKey(a) == ValueKey(b)
    ensures a == b
  {
    assert "string"[0] == 's' && "int"[0] == 'i' && "bool"[0] == 'b';
    assert "true"[0] == 't' && "false"[0] == 'f';
    if a.IntBinding? && b.IntBinding? {
      Decimal.OfIntRoundTrip(a.n);
      Decimal.OfIntRoundTrip(b.n);
    }
  }

  // ---------------------------------------------------------------------------------------
  // Path templates

  function Placeholder(name: string): string {
    "${" + name + "}"
  }

  function Abstracted(path: string, order: seq<string>, bindings: map<string, Binding>): Option<string>
    decreases |order|
  {
    if order == [] then Some(path)
    else if order[0] !in bindings || !IsBound(bindings[order[0]]) then None
    else
      var key := ValueKey(bindings[order[0]]);
      if key == "" || !Contains(path, key) then None
      else Abstracted(ReplaceAll(path, key, Placeholder(order[0])), order[1..], bindings)
  }

  datatype Place = Place(root: string, template: string)

  /** The root of a member's local path and its destination with values replaced by names. */
  function PathTemplate(m: Output): Option<Place> {
    if m.destination == "" || !EndsWith(m.localPath, m.destination) then None
    else
      var root := m.localPath[..|m.localPath| - |m.destination|];
      if root == "" then None
      else
        match Abstracted(m.destination, m.order, m.bindings)
        case None => None
        case Some(template) =>
          if forall i :: 0 <= i < |m.order| ==> Contains(template, Placeholder(m.order[i])) then Some(Place(root, template)) else None
  }

  function Filled(template: string, order: seq<string>, bindings: map<string, Binding>): Option<string>
    decreases |order|
  {
    if order == [] then Some(template)
    else if order[0] !in bindings || !IsBound(bindings[order[0]]) then None
    else Filled(ReplaceAll(template, Placeholder(order[0]), ValueKey(bindings[order[0]])), order[1..], bindings)
  }

  function Rendered(template: string, order: seq<string>, bindings: map<string, Binding>): Option<string> {
    match Filled(template, order, bindings)
    case None => None
    case Some(path) => if Contains(path, "${") then None else Some(path)
  }

  // ---------------------------------------------------------------------------------------
  // What is checked

  /** The bindings of a member are usable and of the first member's kinds. */
  predicate BindingsFit(first: Output, m: Output) {
    forall i :: 0 <= i < |m.order| ==>
      && m.order[i] in m.bindings && IsBound(m.bindings[m.order[i]])
      && m.order[i] in first.bindings && Kind(m.bindings[m.order[i]]) == Kind(first.bindings[m.order[i]])
  }

  /** What each member must satisfy by itself, given the first one and its place. */
  predicate Conforms(first: Output, place: Place, m: Output) {
    && 0 <= m.memberIndex < first.memberCount
    && m.bindingName == first.bindingName && m.domain == first.domain && m.fingerprint == first.fingerprint
    && m.order == first.order && m.memberCount == first.memberCount
    && m.destination != "" && m.destination == m.memberDestination && m.materializationKey != ""
    && PathTemplate(m) == Some(place)
    && Rendered(place.template, m.order, m.bindings) == Some(m.destination)
    && BindingsFit(first, m)
  }

  /** What two members must satisfy together. */
  predicate Compatible(a: Output, b: Output) {
    && a.memberIndex != b.memberIndex
    && a.materializationKey != b.materializationKey
    && a.destination != b.destination
    && (a.templateIdentity == "" || b.templateIdentity == "" || a.templateIdentity == b.templateIdentity)
  }

  predicate AllCompatible(ms: seq<Output>) {
    forall i, j :: 0 <= i < j < |ms| ==> Compatible(ms[i], ms[j])
  }

  predicate HasIndex(ms: seq<Output>, index: int) {
    exists i :: 0 <= i < |ms| && ms[i].memberIndex == index
  }

  function MemberKey(m: Output): Key {
    Key(m.memberIndex, m.workItemId)
  }

  /** The values of a dimension in order of first appearance. */
  function ValuesOf(ms: seq<Output>, name: string): seq<Binding> {
    if ms == [] then []
    else
      var values := ValuesOf(ms[..|ms| - 1], name);
      var m := ms[|ms| - 1];
      if name !in m.bindings || ValueKey(m.bindings[name]) in KeysOf(values) then values else values + [m.bindings[name]]
  }

  function KeysOf(values: seq<Binding>): set<string> {
    set v | v in values :: ValueKey(v)
  }

  function DimensionOf(ms: seq<Output>, first: Output, name: string): Dimension {
    Dimension(if name in first.bindings then Kind(first.bindings[name]) else "", ValuesOf(ms, name))
  }

  predicate AllConform(first: Output, place: Place, ms: seq<Output>) {
    forall i :: 0 <= i < |ms| ==> Conforms(first, place, ms[i])
  }

  predicate Accepted(ms: seq<Output>)
    requires ms != []
  {
    var first := ms[0];
    && first.memberCount > 0 && |ms| == first.memberCount
    && PathTemplate(first).Some?
    && AllConform(first, PathTemplate(first).value, ms)
    && AllCompatible(ms)
    && (forall k :: 0 <= k < first.memberCount ==> HasIndex(ms, k))
  }

  function ManifestOf(checks: Checks, ms: seq<Output>): Manifest
    requires ms != [] && PathTemplate(ms[0]).Some? && checks.hash(ms).Some?
  {
    var first := ms[0];
    var place := PathTemplate(first).value;
    Manifest(first.bindingName, first.domain, first.order,
             map name | name in first.order :: DimensionOf(ms, first, name),
             place.root + place.template, first.memberCount, checks.hash(ms).value, first.fingerprint)
  }

  /** The manifest of sorted members, or none. */
  function AggregateSorted(checks: Checks, ms: seq<Output>): Option<Manifest>
    requires ms != []
  {
    if !Accepted(ms) || checks.hash(ms).None? then None
    else if !checks.valid(ManifestOf(checks, ms)) then None
    else Some(ManifestOf(checks, ms))
  }

  function Aggregate(checks: Checks, outputs: seq<Output>): Option<Manifest> {
    if outputs == [] then None else AggregateSorted(checks, SortBy(outputs, MemberKey))
  }

  // ---------------------------------------------------------------------------------------
  // The loop

  /** What the loop remembers of the members so far. */
  datatype Seen = Seen(indexes: set<int>, keys: set<string>, destinations: set<string>, identity: string)

  predicate Repeats(seen: Seen, m: Output) {
    || m.memberIndex in seen.indexes || m.materializationKey in seen.keys || m.destination in seen.destinations
    || (seen.identity != "" && m.templateIdentity != "" && m.templateIdentity != seen.identity)
  }

  function Remember(seen: Seen, m: Output): Seen {
    Seen(seen.indexes + {m.memberIndex}, seen.keys + {m.materializationKey}, seen.destinations + {m.destination},
         if seen.identity == "" then m.templateIdentity else seen.identity)
  }

  predicate SeenIn(seen: Seen, ms: seq<Output>) {
    && seen.indexes == (set m | m in ms :: m.memberIndex)
    && seen.keys == (set m | m in ms :: m.materializationKey)
    && seen.destinations == (set m | m in ms :: m.destination)
    && (forall m :: m in ms ==> m.templateIdentity == "" || m.templateIdentity == seen.identity)
    && (seen.identity != "" ==> exists m :: m in ms && m.templateIdentity == seen.identity)
  }

  lemma RememberSeen(seen: Seen, ms: seq<Output>, m: Output)
    requires SeenIn(seen, ms) && !Repeats(seen, m)
    ensures SeenIn(Remember(seen, m), ms + [m])
  {
    var all := ms + [m];
    assert forall x :: x in all <==> x in ms || x == m;
    if seen.identity != "" {
      var x :| x in ms && x.templateIdentity == seen.identity;
      assert x in all;
    } else {
      assert m in all;
    }
  }

  /** A member repeats something seen exactly when it is incompatible with an earlier one. */
  lemma RepeatsExact(seen: Seen, ms: seq<Output>, m: Output)
    requires SeenIn(seen, ms)
    ensures Repeats(seen, m) <==> exists x :: x in ms && !Compatible(x, m)
  {
    if m.memberIndex in seen.indexes {
      var x :| x in ms && x.memberIndex == m.memberIndex;
      assert !Compatible(x, m);
    }
    if m.materializationKey in seen.keys {
      var x :| x in ms && x.materializationKey == m.materializationKey;
      assert !Compatible(x, m);
    }
    if m.destination in seen.destinations {
      var x :| x in ms && x.destination == m.destination;
      assert !Compatible(x, m);
    }
    if seen.identity != "" && m.templateIdentity != "" && m.templateIdentity != seen.identity {
      var x :| x in ms && x.templateIdentity == seen.identity;
      assert !Compatible(x, m);
    }
  }

  lemma OneMoreCompatible(ms: seq<Output>, m: Output)
    requires AllCompatible(ms)
    ensures AllCompatible(ms + [m]) <==> forall x :: x in ms ==> Compatible(x, m)
  {
    var all := ms + [m];
    if AllCompatible(all) {
      forall x | x in ms
        ensures Compatible(x, m)
      {
        var i :| 0 <= i < |ms| && ms[i] == x;
        assert Compatible(all[i], all[|ms|]);
      }
    }
    if forall x :: x in ms ==> Compatible(x, m) {
      forall a, b | 0 <= a < b < |all|
        ensures Compatible(all[a], all[b])
      {
        if b < |ms| {
          assert Compatible(ms[a], ms[b]);
        } else {
          assert ms[a] in ms;
        }
      }
    }
  }

  lemma PrefixIncompatible(ms: seq<Output>, i: nat)
    requires i <= |ms| && !AllCompatible(ms[..i])
    ensures !AllCompatible(ms)
  {
    var front := ms[..i];
    var a, b :| 0 <= a < b < |front| && !Compatible(front[a], front[b]);
    assert !Compatible(ms[a], ms[b]);
  }

  /** Checks the members one after the other, remembering what must not repeat. */
  method CheckMembers(first: Output, place: Place, ms: seq<Output>) returns (ok: bool, indexes: set<int>)
    ensures ok <==> AllConform(first, place, ms) && AllCompatible(ms)
    ensures ok ==> indexes == set m | m in ms :: m.memberIndex
  {
    var seen := Seen({}, {}, {}, "");
    for i := 0 to |ms|
      invariant SeenIn(seen, ms[..i]) && AllCompatible(ms[..i])
      invariant forall k :: 0 <= k < i ==> Conforms(first, place, ms[k])
    {
      assert ms[..i + 1] == ms[..i] + [ms[i]];
      RepeatsExact(seen, ms[..i], ms[i]);
      OneMoreCompatible(ms[..i], ms[i]);
      if Repeats(seen, ms[i]) {
        PrefixIncompatible(ms, i + 1);
        return false, {};
      }
      if !Conforms(first, place, ms[i]) {
        return false, {};
      }
      RememberSeen(seen, ms[..i], ms[i]);
      seen := Remember(seen, ms[i]);
    }
    assert ms[..|ms|] == ms;
    ok, indexes := true, seen.indexes;
  }

  method HasAllIndexes(ms: seq<Output>, indexes: set<int>, count: int) returns (ok: bool)
    requires indexes == set m | m in ms :: m.memberIndex
    ensures ok <==> forall k :: 0 <= k < count ==> HasIndex(ms, k)
  {
    var index := 0;
    while index < count
      invariant forall k :: 0 <= k < index ==> HasIndex(ms, k)
    {
      if index !in indexes {
        assert !HasIndex(ms, index);
        return false;
      }
      IndexPresent(ms, index);
      index := index + 1;
    }
    ok := true;
  }

  lemma IndexPresent(ms: seq<Output>, index: int)
    requires exists m :: m in ms && m.memberIndex == index
    ensures HasIndex(ms, index)
  {
    var m :| m in ms && m.memberIndex == index;
    var i :| 0 <= i < |ms| && ms[i] == m;
  }

  // ---------------------------------------------------------------------------------------
  // The dimensions, accumulated member by member

  /** The dimensions once all names of the first `i` members and some names of the next are done. */
  function Accumulated(first: Output, ms: seq<Output>, i: nat, done: set<string>): map<string, Dimension>
    requires i < |ms|
  {
    map name | name in first.order && (i > 0 || name in done) ::
      DimensionOf(if name in done then ms[..i + 1] else ms[..i], first, name)
  }

  function Names(order: seq<string>): set<string> {
    set name | name in order
  }

  lemma NamesOneMore(order: seq<string>, j: nat)
    requires j < |order|
    ensures Names(order[..j + 1]) == Names(order[..j]) + {order[j]}
  {
    assert order[..j + 1] == order[..j] + [order[j]];
  }

  /** One more value of a dimension. */
  function Extended(d: Dimension, value: Binding): Dimension {
    Dimension(if d.kind == "" then Kind(value) else d.kind,
              if ValueKey(value) in KeysOf(d.values) then d.values else d.values + [value])
  }

  lemma {:induction false} DimensionExtended(first: Output, place: Place, ms: seq<Output>, i: nat, name: string)
    requires i < |ms| && ms[0] == first && AllConform(first, place, ms) && name in first.order
    ensures name in ms[i].bindings && Kind(ms[i].bindings[name]) != ""
    ensures DimensionOf(ms[..i + 1], first, name) ==
            Extended(if i > 0 then DimensionOf(ms[..i], first, name) else Dimension("", []), ms[i].bindings[name])
  {
    BoundAt(first, place, ms[i], name);
    BoundAt(first, place, ms[0], name);
    assert ms[..i + 1][..i] == ms[..i] && ms[..i + 1][i] == ms[i];
    ValuesOneMore(ms[..i + 1], name);
  }

  lemma BoundAt(first: Output, place: Place, m: Output, name: string)
    requires Conforms(first, place, m) && name in first.order
    ensures name in m.bindings && IsBound(m.bindings[name]) && name in first.bindings
    ensures Kind(m.bindings[name]) == Kind(first.bindings[name]) && Kind(m.bindings[name]) != ""
  {
    var k :| 0 <= k < |first.order| && first.order[k] == name;
    assert m.order[k] == name;
  }

  lemma {:induction false} ValuesOneMore(ms: seq<Output>, name: string)
    requires ms != [] && name in ms[|ms| - 1].bindings
    ensures
      var before, value := ValuesOf(ms[..|ms| - 1], name), ms[|ms| - 1].bindings[name];
      ValuesOf(ms, name) == if ValueKey(value) in KeysOf(before) then before else before + [value]
  {
  }

  /** A value already listed is not listed again. */
  lemma ExtendedTwice(d: Dimension, value: Binding)
    requires Kind(value) != ""
    ensures Extended(Extended(d, value), value) == Extended(d, value)
  {
    assert value in Extended(d, value).values || ValueKey(value) in KeysOf(d.values);
  }

  lemma KeysExtended(values: seq<Binding>, value: Binding)
    ensures KeysOf(values + [value]) == KeysOf(values) + {ValueKey(value)}
  {
  }

  /** The dimension of a name so far, or an empty one. */
  function Known(dims: map<string, Dimension>, name: string): Dimension {
    if name in dims then dims[name] else Dimension("", [])
  }

  /** Looking at a name of a member adds the member's value to the dimension. */
  lemma DimensionNow(first: Output, place: Place, ms: seq<Output>, i: nat, done: set<string>, name: string)
    requires i < |ms| && ms[0] == first && AllConform(first, place, ms) && name in first.order
    ensures name in ms[i].bindings && Kind(ms[i].bindings[name]) != ""
    ensures DimensionOf(ms[..i + 1], first, name) == Extended(Known(Accumulated(first, ms, i, done), name), ms[i].bindings[name])
  {
    DimensionExtended(first, place, ms, i, name);
    if name in done {
      ExtendedTwice(if i > 0 then DimensionOf(ms[..i], first, name) else Dimension("", []), ms[i].bindings[name]);
    }
  }

  lemma AccumulatedOne(first: Output, ms: seq<Output>, i: nat, done: set<string>, name: string)
    requires i < |ms| && name in first.order
    ensures Accumulated(first, ms, i, done + {name}) == Accumulated(first, ms, i, done)[name := DimensionOf(ms[..i + 1], first, name)]
  {
  }

  /** All names of a member are done: the next one starts. */
  lemma AccumulatedNext(first: Output, ms: seq<Output>, i: nat)
    requires i + 1 < |ms|
    ensures Accumulated(first, ms, i, Names(first.order)) == Accumulated(first, ms, i + 1, {})
  {
  }

  lemma AccumulatedAll(first: Output, ms: seq<Output>)
    requires ms != []
    ensures Accumulated(first, ms, |ms| - 1, Names(first.order)) ==
            map name | name in first.order :: DimensionOf(ms, first, name)
  {
    assert ms[..|ms|] == ms;
  }

  predicate KeysRemembered(dims: map<string, Dimension>, keys: map<string, set<string>>) {
    forall name :: name in dims ==> dims[name].kind != "" && name in keys && keys[name] == KeysOf(dims[name].values)
  }

  /** Takes one value into its dimension. */
  method CollectValue(dims: map<string, Dimension>, keys: map<string, set<string>>, name: string, value: Binding)
      returns (dims': map<string, Dimension>, keys': map<string, set<string>>)
    requires KeysRemembered(dims, keys) && Kind(value) != ""
    ensures dims' == dims[name := Extended(Known(dims, name), value)] && KeysRemembered(dims', keys')
  {
    var d := Known(dims, name);
    keys' := keys;
    if d.kind == "" {
      d, keys' := d.(kind := Kind(value)), keys'[name := {}];
    }
    if ValueKey(value) !in keys'[name] {
      KeysExtended(d.values, value);
      d, keys' := d.(values := d.values + [value]), keys'[name := keys'[name] + {ValueKey(value)}];
    }
    dims' := dims[name := d];
  }

  /** Takes one member's values into the dimensions. */
  method CollectMember(first: Output, place: Place, ms: seq<Output>, i: nat, before: map<string, Dimension>, known: map<string, set<string>>)
      returns (dims: map<string, Dimension>, keys: map<string, set<string>>)
    requires i < |ms| && ms[0] == first && AllConform(first, place, ms)
    requires before == Accumulated(first, ms, i, {}) && KeysRemembered(before, known)
    ensures dims == Accumulated(first, ms, i, Names(first.order)) && KeysRemembered(dims, keys)
  {
    dims, keys := before, known;
    var order := ms[i].order;
    assert order == first.order by { assert Conforms(first, place, ms[i]); }
    assert Names(order[..0]) == {};
    for j := 0 to |order|
      invariant dims == Accumulated(first, ms, i, Names(order[..j])) && KeysRemembered(dims, keys)
    {
      var name := order[j];
      DimensionNow(first, place, ms, i, Names(order[..j]), name);
      AccumulatedOne(first, ms, i, Names(order[..j]), name);
      NamesOneMore(order, j);
      dims, keys := CollectValue(dims, keys, name, ms[i].bindings[name]);
    }
    assert order[..|order|] == order;
  }

  method CollectDimensions(first: Output, place: Place, ms: seq<Output>) returns (dims: map<string, Dimension>)
    requires ms != [] && ms[0] == first && AllConform(first, place, ms)
    ensures dims == map name | name in first.order :: DimensionOf(ms, first, name)
  {
    var keys: map<string, set<string>> := map[];
    dims := map[];
    assert dims == Accumulated(first, ms, 0, {});
    for i := 0 to |ms|
      invariant KeysRemembered(dims, keys)
      invariant i < |ms| ==> dims == Accumulated(first, ms, i, {})
      invariant i == |ms| ==> dims == Accumulated(first, ms, i - 1, Names(first.order))
    {
      dims, keys := CollectMember(first, place, ms, i, dims, keys);
      if i + 1 < |ms| {
        AccumulatedNext(first, ms, i);
      }
    }
    AccumulatedAll(first, ms);
  }

  /** Aggregating sorted members step by step. */
  method AggregateMembers(checks: Checks, ms: seq<Output>) returns (r: Option<Manifest>)
    requires ms != []
    ensures r == AggregateSorted(checks, ms)
  {
    var place := PathTemplate(ms[0]);
    if ms[0].memberCount <= 0 || |ms| != ms[0].memberCount || place.None? {
      return None;
    }
    var ok, indexes := CheckMembers(ms[0], place.value, ms);
    if !ok {
      return None;
    }
    ok := HasAllIndexes(ms, indexes, ms[0].memberCount);
    if !ok || checks.hash(ms).None? {
      return None;
    }
    var dimensions := CollectDimensions(ms[0], place.value, ms);
    var manifest := Manifest(ms[0].bindingName, ms[0].domain, ms[0].order, dimensions, place.value.root + place.value.template,
                             ms[0].memberCount, checks.hash(ms).value, ms[0].fingerprint);
    assert manifest == ManifestOf(checks, ms);
    r := if checks.valid(manifest) then Some(manifest) else None;
  }

  // ---------------------------------------------------------------------------------------
  // What an accepted collection is

  lemma SortedMembers(outputs: seq<Output>, m: Output)
    ensures m in SortBy(outputs, MemberKey) <==> m in outputs
  {
    var sorted := SortBy(outputs, MemberKey);
    assert m in multiset(sorted) <==> m in multiset(outputs);
  }

  lemma AcceptedMember(checks: Checks, outputs: seq<Output>, m: Output) returns (place: Place)
    requires Aggregate(checks, outputs).Some? && m in outputs
    ensures Conforms(SortBy(outputs, MemberKey)[0], place, m)
    ensures Aggregate(checks, outputs).value.path == place.root + place.template
    ensures PathTemplate(SortBy(outputs, MemberKey)[0]) == Some(place)
  {
    var sorted := SortBy(outputs, MemberKey);
    SortedMembers(outputs, m);
    place := PathTemplate(sorted[0]).value;
    var i :| 0 <= i < |sorted| && sorted[i] == m;
    assert Conforms(sorted[0], place, sorted[i]);
  }

  /** Success means the member indexes are exactly those below the member count, each once. */
  lemma IndexesExact(checks: Checks, outputs: seq<Output>)
    requires Aggregate(checks, outputs).Some?
    ensures |outputs| == Aggregate(checks, outputs).value.memberCount
    ensures forall k :: HasIndex(outputs, k) <==> 0 <= k < |outputs|
    ensures forall a, b :: a in outputs && b in outputs && a.memberIndex == b.memberIndex ==> a == b
  {
    var sorted := SortBy(outputs, MemberKey);
    forall k
      ensures HasIndex(outputs, k) <==> 0 <= k < |outputs|
    {
      if 0 <= k < |outputs| {
        assert HasIndex(sorted, k);
        var i :| 0 <= i < |sorted| && sorted[i].memberIndex == k;
        SortedMembers(outputs, sorted[i]);
        IndexPresent(outputs, k);
      }
      if HasIndex(outputs, k) {
        var i :| 0 <= i < |outputs| && outputs[i].memberIndex == k;
        var place := AcceptedMember(checks, outputs, outputs[i]);
      }
    }
    forall a, b | a in outputs && b in outputs && a.memberIndex == b.memberIndex
      ensures a == b
    {
      AcceptedDistinct(checks, outputs, a, b);
    }
  }

  lemma AcceptedDistinct(checks: Checks, outputs: seq<Output>, a: Output, b: Output)
    requires Aggregate(checks, outputs).Some? && a in outputs && b in outputs
    ensures a == b || Compatible(a, b) || Compatible(b, a)
  {
    var sorted := SortBy(outputs, MemberKey);
    SortedMembers(outputs, a);
    SortedMembers(outputs, b);
    var i :| 0 <= i < |sorted| && sorted[i] == a;
    var j :| 0 <= j < |sorted| && sorted[j] == b;
    assert i < j ==> Compatible(sorted[i], sorted[j]);
    assert j < i ==> Compatible(sorted[j], sorted[i]);
  }

  /** Every member's local path is the manifest's root followed by the shared template rendered with
      the member's bindings. */
  lemma PathsRendered(checks: Checks, outputs: seq<Output>, m: Output) returns (place: Place)
    requires Aggregate(checks, outputs).Some? && m in outputs
    ensures Aggregate(checks, outputs).value.path == place.root + place.template
    ensures PathTemplate(SortBy(outputs, MemberKey)[0]) == Some(place)
    ensures
      var rendered := Rendered(place.template, m.order, m.bindings);
      rendered.Some? && m.localPath == place.root + rendered.value
    ensures forall i :: 0 <= i < |m.order| ==> Contains(place.template, "${" + m.order[i] + "}")
  {
    place := AcceptedMember(checks, outputs, m);
    RootThenDestination(m);
  }

  lemma RootThenDestination(m: Output)
    requires PathTemplate(m).Some?
    ensures m.localPath == PathTemplate(m).value.root + m.destination
  {
    var n := |m.localPath| - |m.destination|;
    assert m.localPath == m.localPath[..n] + m.localPath[n..];
  }

  lemma {:induction false} FilledByBindings(template: string, order: seq<string>, a: map<string, Binding>, b: map<string, Binding>)
    requires forall i :: 0 <= i < |order| ==> order[i] in a && order[i] in b && a[order[i]] == b[order[i]]
    ensures Filled(template, order, a) == Filled(template, order, b)
    decreases |order|
  {
    if order != [] && IsBound(a[order[0]]) {
      FilledByBindings(ReplaceAll(template, Placeholder(order[0]), ValueKey(a[order[0]])), order[1..], a, b);
    }
  }

  lemma SameBindingsSameDestination(first: Output, place: Place, a: Output, b: Output)
    requires Conforms(first, place, a) && Conforms(first, place, b)
    requires forall i :: 0 <= i < |a.order| ==> a.order[i] in a.bindings && a.order[i] in b.bindings && a.bindings[a.order[i]] == b.bindings[a.order[i]]
    ensures a.destination == b.destination
  {
    FilledByBindings(place.template, a.order, a.bindings, b.bindings);
  }

  lemma OrderBound(first: Output, place: Place, m: Output)
    requires Conforms(first, place, m)
    ensures m.order == first.order && forall i :: 0 <= i < |m.order| ==> m.order[i] in m.bindings
  {
  }

  /** No two members share the values of all dimensions. */
  lemma BindingsDiffer(checks: Checks, outputs: seq<Output>, a: Output, b: Output)
    requires Aggregate(checks, outputs).Some? && a in outputs && b in outputs && a != b
    ensures a.order == b.order
    ensures exists i :: 0 <= i < |a.order| && a.order[i] in a.bindings && a.order[i] in b.bindings
                        && a.bindings[a.order[i]] != b.bindings[a.order[i]]
  {
    var first := SortBy(outputs, MemberKey)[0];
    var place := AcceptedMember(checks, outputs, a);
    var place' := AcceptedMember(checks, outputs, b);
    AcceptedDistinct(checks, outputs, a, b);
    OrderBound(first, place, a);
    OrderBound(first, place, b);
    if forall i :: 0 <= i < |a.order| ==> a.bindings[a.order[i]] == b.bindings[a.order[i]] {
      SameBindingsSameDestination(first, place, a, b);
      assert false;
    }
  }

  // ---------------------------------------------------------------------------------------
  // Dimension values

  lemma {:induction false} ValuesOccur(ms: seq<Output>, name: string, v: Binding)
    requires v in ValuesOf(ms, name)
    ensures exists m :: m in ms && name in m.bindings && m.bindings[name] == v
  {
    var front, m := ms[..|ms| - 1], ms[|ms| - 1];
    if v in ValuesOf(front, name) {
      ValuesOccur(front, name, v);
      var x :| x in front && name in x.bindings && x.bindings[name] == v;
      assert x in ms;
    } else {
      assert m in ms;
    }
  }

  lemma {:induction false} KeysListed(ms: seq<Output>, name: string, m: Output)
    requires m in ms && name in m.bindings
    ensures exists v :: v in ValuesOf(ms, name) && ValueKey(v) == ValueKey(m.bindings[name])
  {
    var front, last := ms[..|ms| - 1], ms[|ms| - 1];
    if m in front {
      KeysListed(front, name, m);
      var v :| v in ValuesOf(front, name) && ValueKey(v) == ValueKey(m.bindings[name]);
      assert v in ValuesOf(ms, name);
    } else {
      assert m == last;
      if ValueKey(m.bindings[name]) !in KeysOf(ValuesOf(front, name)) {
        assert m.bindings[name] in ValuesOf(ms, name);
      } else {
        var v :| v in ValuesOf(front, name) && ValueKey(v) == ValueKey(m.bindings[name]);
        assert v in ValuesOf(ms, name);
      }
    }
  }

  lemma {:induction false} ValuesOnce(ms: seq<Output>, name: string)
    ensures OnceEach(ValuesOf(ms, name))
  {
    if ms != [] {
      ValuesOnce(ms[..|ms| - 1], name);
      var front, values := ValuesOf(ms[..|ms| - 1], name), ValuesOf(ms, name);
      forall i, j | 0 <= i < j < |values|
        ensures ValueKey(values[i]) != ValueKey(values[j])
      {
        if j < |front| {
          assert ValueKey(front[i]) != ValueKey(front[j]);
        } else {
          assert front[i] in front && ValueKey(front[i]) in KeysOf(front);
        }
      }
    }
  }

  predicate OnceEach(values: seq<Binding>) {
    forall i, j :: 0 <= i < j < |values| ==> ValueKey(values[i]) != ValueKey(values[j])
  }

  /** Each dimension of the manifest lists exactly the values that occur, each once. */
  lemma DimensionsExact(checks: Checks, outputs: seq<Output>, name: string)
    requires Aggregate(checks, outputs).Some? && name in Aggregate(checks, outputs).value.order
    ensures name in Aggregate(checks, outputs).value.dimensions
    ensures
      var values := Aggregate(checks, outputs).value.dimensions[name].values;
      && (forall v :: v in values <==> exists m :: m in outputs && name in m.bindings && m.bindings[name] == v)
      && OnceEach(values)
  {
    var sorted := SortBy(outputs, MemberKey);
    var values := ValuesOf(sorted, name);
    ValuesOnce(sorted, name);
    forall v
      ensures v in values <==> exists m :: m in outputs && name in m.bindings && m.bindings[name] == v
    {
      if v in values {
        ValuesOccur(sorted, name, v);
        var m :| m in sorted && name in m.bindings && m.bindings[name] == v;
        SortedMembers(outputs, m);
      }
      if m :| m in outputs && name in m.bindings && m.bindings[name] == v {
        ValueListed(checks, outputs, name, m);
      }
    }
  }

  lemma BoundLike(first: Output, m: Output, name: string)
    requires BindingsFit(first, m) && name in m.order
    ensures name in m.bindings && IsBound(m.bindings[name]) && name in first.bindings
    ensures Kind(m.bindings[name]) == Kind(first.bindings[name])
  {
    var i :| 0 <= i < |m.order| && m.order[i] == name;
  }

  lemma ValueListed(checks: Checks, outputs: seq<Output>, name: string, m: Output)
    requires Aggregate(checks, outputs).Some? && name in Aggregate(checks, outputs).value.order
    requires m in outputs && name in m.bindings
    ensures m.bindings[name] in ValuesOf(SortBy(outputs, MemberKey), name)
  {
    var sorted := SortBy(outputs, MemberKey);
    SortedMembers(outputs, m);
    KeysListed(sorted, name, m);
    var v :| v in ValuesOf(sorted, name) && ValueKey(v) == ValueKey(m.bindings[name]);
    ValuesOccur(sorted, name, v);
    var x :| x in sorted && name in x.bindings && x.bindings[name] == v;
    SortedMembers(outputs, x);
    var p := AcceptedMember(checks, outputs, m);
    var q := AcceptedMember(checks, outputs, x);
    BoundLike(sorted[0], m, name);
    BoundLike(sorted[0], x, name);
    ValueKeyInjective(v, m.bindings[name]);
  }

  /** What the manifest says of all members, every member says too. */
  lemma ManifestShared(checks: Checks, outputs: seq<Output>, m: Output)
    requires Aggregate(checks, outputs).Some? && m in outputs
    ensures
      var manifest := Aggregate(checks, outputs).value;
      && manifest.asset == m.bindingName && manifest.domain == m.domain && manifest.fingerprint == m.fingerprint
      && manifest.order == m.order && manifest.memberCount == m.memberCount == |outputs|
      && m.destination == m.memberDestination != "" && m.materializationKey != ""
      && manifest.dimensions.Keys == Names(m.order)
      && forall name :: name in m.order ==>
           name in m.bindings && manifest.dimensions[name].kind ==
             match m.bindings[name]
             case TextBinding(_) => "string"
             case IntBinding(_) => "int"
             case BoolBinding(_) => "bool"
             case Unsupported => ""
  {
    var place := AcceptedMember(checks, outputs, m);
    var first := SortBy(outputs, MemberKey)[0];
    forall name | name in m.order
      ensures name in m.bindings && name in first.bindings && Kind(first.bindings[name]) == Kind(m.bindings[name])
    {
      BoundAt(first, place, m, name);
    }
  }

  /** The hash is that of the members by index, and the manifest was found valid. */
  lemma MembersHashed(checks: Checks, outputs: seq<Output>) returns (ms: seq<Output>)
    requires Aggregate(checks, outputs).Some?
    ensures multiset(ms) == multiset(outputs) && forall i :: 0 <= i < |ms| ==> ms[i].memberIndex == i
    ensures checks.hash(ms) == Some(Aggregate(checks, outputs).value.membersHash) && checks.valid(Aggregate(checks, outputs).value)
  {
    ms := SortBy(outputs, MemberKey);
    SortInOrder(outputs, MemberKey);
    OrderIsIrrelevant(checks, outputs, ms);
    IndexesExact(checks, ms);
    forall i, j | 0 <= i < j < |ms|
      ensures ms[i].memberIndex < ms[j].memberIndex
    {
      assert Compatible(ms[i], ms[j]) && !Before(MemberKey(ms[j]), MemberKey(ms[i]));
    }
    IncreasingCovers(ms);
  }

  lemma IncreasingCovers(ms: seq<Output>)
    requires (forall i, j :: 0 <= i < j < |ms| ==> ms[i].memberIndex < ms[j].memberIndex)
    requires forall k :: HasIndex(ms, k) <==> 0 <= k < |ms|
    ensures forall i :: 0 <= i < |ms| ==> ms[i].memberIndex == i
  {
    if ms != [] {
      forall i | 0 <= i < |ms|
        ensures 0 <= ms[i].memberIndex < |ms|
      {
        assert HasIndex(ms, ms[i].memberIndex);
      }
      AtLeast(ms, |ms| - 1);
      AtMost(ms, 0);
    }
  }

  lemma {:induction false} AtLeast(ms: seq<Output>, i: nat)
    requires i < |ms| && ms[0].memberIndex >= 0 && (forall a, b :: 0 <= a < b < |ms| ==> ms[a].memberIndex < ms[b].memberIndex)
    ensures forall k :: 0 <= k <= i ==> ms[k].memberIndex >= k
  {
    if i > 0 {
      AtLeast(ms, i - 1);
      assert ms[i - 1].memberIndex < ms[i].memberIndex;
    }
  }

  lemma {:induction false} AtMost(ms: seq<Output>, i: nat)
    requires i < |ms| && ms[|ms| - 1].memberIndex < |ms| && (forall a, b :: 0 <= a < b < |ms| ==> ms[a].memberIndex < ms[b].memberIndex)
    ensures forall k :: i <= k < |ms| ==> ms[k].memberIndex <= k
    decreases |ms| - i
  {
    if i + 1 < |ms| {
      AtMost(ms, i + 1);
      assert ms[i].memberIndex < ms[i + 1].memberIndex;
    }
  }

  // ---------------------------------------------------------------------------------------
  // Which collections are accepted

  /** What a member of a collection of `n` must satisfy by itself. */
  predicate StandsAlone(m: Output, n: int) {
    && m.memberCount == n && 0 <= m.memberIndex < n
    && m.destination != "" && m.destination == m.memberDestination && m.materializationKey != ""
    && (forall name :: name in m.order ==> name in m.bindings && IsBound(m.bindings[name]))
    && PathTemplate(m).Some? && Rendered(PathTemplate(m).value.template, m.order, m.bindings) == Some(m.destination)
  }

  /** What two members must have in common. */
  predicate Agree(a: Output, b: Output) {
    && a.bindingName == b.bindingName && a.domain == b.domain && a.fingerprint == b.fingerprint && a.order == b.order
    && PathTemplate(a) == PathTemplate(b)
    && forall name :: name in a.order && name in a.bindings && name in b.bindings ==> Kind(a.bindings[name]) == Kind(b.bindings[name])
  }

  predicate Matched(ms: seq<Output>) {
    && (forall i :: 0 <= i < |ms| ==> StandsAlone(ms[i], |ms|))
    && (forall i, j :: 0 <= i < j < |ms| ==> Agree(ms[i], ms[j]) && Compatible(ms[i], ms[j]))
  }

  lemma ConformsAlone(first: Output, place: Place, m: Output)
    requires Conforms(first, place, m)
    ensures StandsAlone(m, first.memberCount)
  {
    forall name | name in m.order
      ensures name in m.bindings && IsBound(m.bindings[name])
    {
      BoundAt(first, place, m, name);
    }
  }

  lemma ConformAgree(first: Output, place: Place, a: Output, b: Output)
    requires Conforms(first, place, a) && Conforms(first, place, b)
    ensures Agree(a, b)
  {
    forall name | name in a.order
      ensures name in a.bindings && name in b.bindings && Kind(a.bindings[name]) == Kind(b.bindings[name])
    {
      BoundAt(first, place, a, name);
      BoundAt(first, place, b, name);
    }
  }

  lemma AloneConforms(first: Output, m: Output, n: int)
    requires StandsAlone(first, n) && StandsAlone(m, n) && (m == first || Agree(first, m))
    ensures Conforms(first, PathTemplate(first).value, m)
  {
    forall i | 0 <= i < |m.order|
      ensures m.order[i] in m.bindings && IsBound(m.bindings[m.order[i]])
      ensures m.order[i] in first.bindings && Kind(m.bindings[m.order[i]]) == Kind(first.bindings[m.order[i]])
    {
      assert m.order[i] in m.order;
    }
  }

  lemma AcceptedMatched(ms: seq<Output>)
    requires ms != [] && Accepted(ms)
    ensures Matched(ms)
  {
    var first := ms[0];
    var place := PathTemplate(first).value;
    forall i | 0 <= i < |ms|
      ensures StandsAlone(ms[i], |ms|)
    {
      ConformsAlone(first, place, ms[i]);
    }
    forall i, j | 0 <= i < j < |ms|
      ensures Agree(ms[i], ms[j]) && Compatible(ms[i], ms[j])
    {
      ConformAgree(first, place, ms[i], ms[j]);
    }
  }

  lemma MatchedAccepted(ms: seq<Output>)
    requires ms != [] && Matched(ms)
    ensures Accepted(ms)
  {
    var first := ms[0];
    forall i | 0 <= i < |ms|
      ensures Conforms(first, PathTemplate(first).value, ms[i])
    {
      AloneConforms(first, ms[i], |ms|);
    }
    NoneMissing(ms);
  }

  function Below(n: nat): (r: set<int>)
    ensures |r| == n && forall k :: k in r <==> 0 <= k < n
  {
    if n == 0 then {} else Below(n - 1) + {n - 1}
  }

  function IndexSet(ms: seq<Output>): set<int> {
    set m | m in ms :: m.memberIndex
  }

  lemma {:induction false} IndexesCounted(ms: seq<Output>)
    requires forall i, j :: 0 <= i < j < |ms| ==> ms[i].memberIndex != ms[j].memberIndex
    ensures |IndexSet(ms)| == |ms|
  {
    if ms != [] {
      var front, last := ms[..|ms| - 1], ms[|ms| - 1];
      IndexesCounted(front);
      assert ms == front + [last];
      assert IndexSet(ms) == IndexSet(front) + {last.memberIndex};
    }
  }

  lemma SameSize(a: set<int>, b: set<int>)
    requires a <= b && |a| == |b|
    ensures a == b
  {
    assert |b - a| == |b| - |a|;
  }

  /** With as many members as announced, all in range and all different, no index can be missing: the
      source's last check never refuses anything. */
  lemma NoneMissing(ms: seq<Output>)
    requires forall i :: 0 <= i < |ms| ==> 0 <= ms[i].memberIndex < |ms|
    requires forall i, j :: 0 <= i < j < |ms| ==> Compatible(ms[i], ms[j])
    ensures forall k :: 0 <= k < |ms| ==> HasIndex(ms, k)
  {
    IndexesCounted(ms);
    SameSize(IndexSet(ms), Below(|ms|));
    forall k | 0 <= k < |ms|
      ensures HasIndex(ms, k)
    {
      assert k in IndexSet(ms);
      IndexPresent(ms, k);
    }
  }

  lemma MatchedPermuted(xs: seq<Output>, ys: seq<Output>)
    requires multiset(xs) == multiset(ys) && Matched(xs)
    ensures Matched(ys)
  {
    assert NoRepeats(xs);
    NoRepeatsPermuted(xs, ys);
    forall i | 0 <= i < |ys|
      ensures StandsAlone(ys[i], |ys|)
    {
      assert ys[i] in xs;
    }
    forall i, j | 0 <= i < j < |ys|
      ensures Agree(ys[i], ys[j]) && Compatible(ys[i], ys[j])
    {
      var a, b := Positions(xs, ys, i, j);
      assert if a < b then Agree(xs[a], xs[b]) && Compatible(xs[a], xs[b]) else Agree(xs[b], xs[a]) && Compatible(xs[b], xs[a]);
    }
  }

  /** Where neither the hash nor the manifest's own validation objects, outputs are aggregated exactly
      when each stands by itself and every two of them agree and do not collide; no member is special. */
  lemma AggregatedIff(checks: Checks, outputs: seq<Output>)
    ensures Aggregate(checks, outputs).Some? ==> outputs != [] && Matched(outputs)
    ensures (forall ms :: checks.hash(ms).Some?) && (forall manifest :: checks.valid(manifest)) && outputs != [] && Matched(outputs) ==>
              Aggregate(checks, outputs).Some?
  {
    var sorted := SortBy(outputs, MemberKey);
    if Aggregate(checks, outputs).Some? {
      AcceptedMatched(sorted);
      MatchedPermuted(sorted, outputs);
    }
    if outputs != [] && Matched(outputs) {
      MatchedPermuted(outputs, sorted);
      MatchedAccepted(sorted);
    }
  }

  // ---------------------------------------------------------------------------------------
  // Order of the inputs

  lemma RepeatedKeyRefused(checks: Checks, ms: seq<Output>)
    requires ms != [] && !DistinctKeys(ms, MemberKey)
    ensures AggregateSorted(checks, ms) == None
  {
    var i, j :| 0 <= i < j < |ms| && MemberKey(ms[i]) == MemberKey(ms[j]);
    assert !Compatible(ms[i], ms[j]);
  }

  /** Permuting the inputs gives the same manifest, or none again. */
  lemma OrderIsIrrelevant(checks: Checks, xs: seq<Output>, ys: seq<Output>)
    requires multiset(xs) == multiset(ys)
    ensures Aggregate(checks, xs) == Aggregate(checks, ys)
  {
    SortOfPermutation(xs, ys, MemberKey);
    var a, b := SortBy(xs, MemberKey), SortBy(ys, MemberKey);
    assert |multiset(xs)| == |xs| && |multiset(ys)| == |ys|;
    if xs != [] && a != b {
      RepeatedKeyRefused(checks, a);
      RepeatedKeyRefused(checks, b);
    }
  }
}

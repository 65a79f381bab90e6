/** Layered data trees: overlaying a layer on the effective tree, and where every value came from.

    Objects are merged member by member; anything else replaces what was there. A null is refused
    wherever it occurs, and so is replacing an object by something else or the other way round. */
module Overlay {
  import opened Wrappers
  import opened JsonValue

  // ---------------------------------------------------------------------------------------
  // Overlaying one layer

  predicate Clash(a: Json, b: Json)
    decreases b, 1
  {
    if a.Object? && b.Object? then Conflict(a.fields, b.fields) else a.Object? != b.Object?
  }

  predicate Conflict(target: Fields, source: Fields)
    decreases Object(source), 0
  {
    exists k :: k in target && k in source && Clash(target[k], source[k])
  }

  function MergedValue(a: Json, b: Json): Json
    decreases b, 1
  {
    if a.Object? && b.Object? then Object(Merged(a.fields, b.fields)) else b
  }

  function Merged(target: Fields, source: Fields): Fields
    decreases Object(source), 0
  {
    map k | k in target.Keys + source.Keys ::
      if k !in source then target[k] else if k !in target then source[k] else MergedValue(target[k], source[k])
  }

  /** The effective tree with one more layer, or none. */
  function OverlayOne(target: Fields, source: Fields): Option<Fields> {
    if HasNull(Object(source)) || Conflict(target, source) then None else Some(Merged(target, source))
  }

  /** The effective tree of the layers, the first at the bottom. */
  function OverlayAll(layers: seq<Fields>): Option<Fields> {
    if layers == [] then Some(map[])
    else
      match OverlayAll(layers[..|layers| - 1])
      case None => None
      case Some(target) => OverlayOne(target, layers[|layers| - 1])
  }

  // ---------------------------------------------------------------------------------------
  // Trees point by point

  type Path = seq<string>

  /** What a tree has at a path through objects. */
  datatype Shape = Absent | Leaf(value: Json) | Branch

  function ShapeAt(o: Fields, p: Path): Shape
    decreases |p|
  {
    if p == [] then Branch
    else if p[0] !in o then Absent
    else if o[p[0]].Object? then ShapeAt(o[p[0]].fields, p[1..])
    else if |p| == 1 then Leaf(o[p[0]])
    else Absent
  }

  function Over(a: Shape, b: Shape): Shape {
    if b == Absent then a else b
  }

  predicate Disagree(a: Shape, b: Shape) {
    a != Absent && b != Absent && a.Branch? != b.Branch?
  }

  lemma {:induction false} ShapeBelow(o: Fields, k: string, p: Path)
    requires k in o && o[k].Object?
    ensures ShapeAt(o, [k] + p) == ShapeAt(o[k].fields, p)
  {
    assert ([k] + p)[1..] == p;
  }

  lemma ShapeOfKey(o: Fields, k: string)
    ensures ShapeAt(o, [k]) == if k !in o then Absent else if o[k].Object? then Branch else Leaf(o[k])
  {
    assert [k][1..] == [];
  }

  /** Trees with the same shape everywhere are the same tree. */
  lemma {:induction false} Extensional(a: Fields, b: Fields)
    requires forall p :: ShapeAt(a, p) == ShapeAt(b, p)
    ensures a == b
    decreases Object(a)
  {
    forall k
      ensures k in a <==> k in b
      ensures k in a && k in b ==> a[k] == b[k]
    {
      ShapeOfKey(a, k);
      ShapeOfKey(b, k);
      assert ShapeAt(a, [k]) == ShapeAt(b, [k]);
      if k in a && k in b && a[k].Object? {
        forall p
          ensures ShapeAt(a[k].fields, p) == ShapeAt(b[k].fields, p)
        {
          ShapeBelow(a, k, p);
          ShapeBelow(b, k, p);
          assert ShapeAt(a, [k] + p) == ShapeAt(b, [k] + p);
        }
        Extensional(a[k].fields, b[k].fields);
      }
    }
  }

  /** Overlaying is right-biased at every path. */
  lemma {:induction false} MergedShape(t: Fields, s: Fields, p: Path)
    requires !Conflict(t, s)
    ensures ShapeAt(Merged(t, s), p) == Over(ShapeAt(t, p), ShapeAt(s, p))
    decreases |p|
  {
    if p != [] {
      var k := p[0];
      if k in t && k in s {
        assert !Clash(t[k], s[k]);
        if t[k].Object? && s[k].Object? {
          MergedShape(t[k].fields, s[k].fields, p[1..]);
        }
      }
    }
  }

  lemma {:induction false} DisagreementConflicts(t: Fields, s: Fields, p: Path)
    requires Disagree(ShapeAt(t, p), ShapeAt(s, p))
    ensures Conflict(t, s)
    decreases |p|
  {
    var k := p[0];
    if t[k].Object? && s[k].Object? {
      DisagreementConflicts(t[k].fields, s[k].fields, p[1..]);
    }
    assert Clash(t[k], s[k]);
  }

  lemma {:induction false} ConflictDisagrees(t: Fields, s: Fields) returns (p: Path)
    requires Conflict(t, s)
    ensures Disagree(ShapeAt(t, p), ShapeAt(s, p))
    decreases Object(s)
  {
    var k :| k in t && k in s && Clash(t[k], s[k]);
    if t[k].Object? && s[k].Object? {
      var q := ConflictDisagrees(t[k].fields, s[k].fields);
      ShapeBelow(t, k, q);
      ShapeBelow(s, k, q);
      p := [k] + q;
    } else {
      p := [k];
    }
  }

  // ---------------------------------------------------------------------------------------
  // Many layers

  /** The shape of the last layer that has something at the path. */
  function LastShape(layers: seq<Fields>, p: Path): Shape {
    if layers == [] then (if p == [] then Branch else Absent)
    else Over(LastShape(layers[..|layers| - 1], p), ShapeAt(layers[|layers| - 1], p))
  }

  ghost predicate Disagreement(layers: seq<Fields>, i: int, j: int, p: Path)
    requires 0 <= i < |layers| && 0 <= j < |layers|
  {
    Disagree(ShapeAt(layers[i], p), ShapeAt(layers[j], p))
  }

  /** No layer holds a null and no two disagree on object versus other value anywhere. */
  ghost predicate Compatible(layers: seq<Fields>) {
    && (forall i :: 0 <= i < |layers| ==> !HasNull(Object(layers[i])))
    && (forall i, j, p :: 0 <= i < |layers| && 0 <= j < |layers| ==> !Disagreement(layers, i, j, p))
  }

  lemma NoPairDisagrees(layers: seq<Fields>, i: nat, j: nat, p: Path)
    requires Compatible(layers) && i < |layers| && j < |layers|
    ensures !Disagree(ShapeAt(layers[i], p), ShapeAt(layers[j], p))
  {
    assert !Disagreement(layers, i, j, p);
  }

  /** The last layer with something at the path, as a position. */
  lemma {:induction false} LastDefining(layers: seq<Fields>, p: Path) returns (i: nat)
    requires p != [] && LastShape(layers, p) != Absent
    ensures i < |layers| && ShapeAt(layers[i], p) == LastShape(layers, p)
    ensures forall j :: i < j < |layers| ==> ShapeAt(layers[j], p) == Absent
  {
    var last := |layers| - 1;
    if ShapeAt(layers[last], p) != Absent {
      i := last;
    } else {
      i := LastDefining(layers[..last], p);
    }
  }

  lemma {:induction false} DefinedSomewhere(layers: seq<Fields>, p: Path, i: nat)
    requires i < |layers| && ShapeAt(layers[i], p) != Absent
    ensures LastShape(layers, p) != Absent
  {
    var last := |layers| - 1;
    if i < last {
      DefinedSomewhere(layers[..last], p, i);
    }
  }

  /** Among compatible layers whatever defines a path has the kind of the last one that does. */
  lemma SameKind(layers: seq<Fields>, p: Path, i: nat)
    requires Compatible(layers) && p != [] && i < |layers| && ShapeAt(layers[i], p) != Absent
    ensures LastShape(layers, p).Branch? <==> ShapeAt(layers[i], p).Branch?
  {
    DefinedSomewhere(layers, p, i);
    var j := LastDefining(layers, p);
    assert !Disagreement(layers, i, j, p);
  }

  lemma {:induction false} ResultShape(layers: seq<Fields>, p: Path)
    requires OverlayAll(layers).Some?
    ensures ShapeAt(OverlayAll(layers).value, p) == LastShape(layers, p)
  {
    if layers != [] {
      var front := layers[..|layers| - 1];
      ResultShape(front, p);
      MergedShape(OverlayAll(front).value, layers[|layers| - 1], p);
    }
  }

  lemma FrontCompatible(layers: seq<Fields>)
    requires layers != [] && Compatible(layers)
    ensures Compatible(layers[..|layers| - 1])
  {
    var front := layers[..|layers| - 1];
    forall i, j, p | 0 <= i < |front| && 0 <= j < |front|
      ensures !Disagreement(front, i, j, p)
    {
      assert !Disagreement(layers, i, j, p);
    }
  }

  lemma OneMoreCompatible(layers: seq<Fields>)
    requires layers != [] && Compatible(layers[..|layers| - 1])
    requires OverlayAll(layers[..|layers| - 1]).Some?
    requires !HasNull(Object(layers[|layers| - 1])) && !Conflict(OverlayAll(layers[..|layers| - 1]).value, layers[|layers| - 1])
    ensures Compatible(layers)
  {
    var last := |layers| - 1;
    var front := layers[..last];
    forall i, p | 0 <= i < last
      ensures !Disagree(ShapeAt(layers[i], p), ShapeAt(layers[last], p))
    {
      if Disagree(ShapeAt(layers[i], p), ShapeAt(layers[last], p)) {
        SameKind(front, p, i);
        DefinedSomewhere(front, p, i);
        ResultShape(front, p);
        DisagreementConflicts(OverlayAll(front).value, layers[last], p);
      }
    }
    forall i, j, p | 0 <= i < |layers| && 0 <= j < |layers|
      ensures !Disagreement(layers, i, j, p)
    {
      if i < last && j < last {
        assert !Disagreement(front, i, j, p);
      }
    }
  }

  lemma CompatibleNoConflict(layers: seq<Fields>)
    requires layers != [] && Compatible(layers) && OverlayAll(layers[..|layers| - 1]).Some?
    ensures !Conflict(OverlayAll(layers[..|layers| - 1]).value, layers[|layers| - 1])
  {
    var last := |layers| - 1;
    var front := layers[..last];
    var t := OverlayAll(front).value;
    if Conflict(t, layers[last]) {
      var p := ConflictDisagrees(t, layers[last]);
      ResultShape(front, p);
      var i := LastDefining(front, p);
      NoPairDisagrees(layers, i, last, p);
    }
  }

  /** An overlay fails exactly when some layer holds a null or two layers disagree at a path. */
  lemma {:induction false} SucceedsIff(layers: seq<Fields>)
    ensures OverlayAll(layers).Some? <==> Compatible(layers)
  {
    if layers != [] {
      SucceedsIff(layers[..|layers| - 1]);
      if Compatible(layers) {
        FrontCompatible(layers);
        CompatibleNoConflict(layers);
      } else if OverlayAll(layers).Some? {
        OneMoreCompatible(layers);
      }
    }
  }

  /** Every leaf of the result comes from the last layer defining its path. */
  lemma LeafFromLast(layers: seq<Fields>, p: Path) returns (i: nat)
    requires OverlayAll(layers).Some? && ShapeAt(OverlayAll(layers).value, p).Leaf?
    ensures i < |layers| && ShapeAt(layers[i], p) == ShapeAt(OverlayAll(layers).value, p)
    ensures forall j :: i < j < |layers| ==> ShapeAt(layers[j], p) == Absent
  {
    ResultShape(layers, p);
    i := LastDefining(layers, p);
  }

  // ---------------------------------------------------------------------------------------
  // Regrouping

  lemma {:induction false} LastShapeOfConcat(xs: seq<Fields>, ys: seq<Fields>, p: Path)
    ensures LastShape(xs + ys, p) == (if p == [] then Branch else Over(LastShape(xs, p), LastShape(ys, p)))
  {
    if ys == [] {
      assert xs + ys == xs;
      if p == [] {
        RootIsBranch(xs);
      }
    } else {
      var front := ys[..|ys| - 1];
      assert (xs + ys)[..|xs + ys| - 1] == xs + front;
      LastShapeOfConcat(xs, front, p);
    }
  }

  lemma {:induction false} RootIsBranch(xs: seq<Fields>)
    ensures LastShape(xs, []) == Branch
  {
    if xs != [] {
      RootIsBranch(xs[..|xs| - 1]);
    }
  }

  /** Replacing a run of layers by their overlay. */
  function Grouped(xs: seq<Fields>, r: Fields, zs: seq<Fields>): seq<Fields> {
    xs + [r] + zs
  }

  lemma GroupedShape(xs: seq<Fields>, ys: seq<Fields>, zs: seq<Fields>, p: Path)
    requires OverlayAll(ys).Some?
    ensures LastShape(Grouped(xs, OverlayAll(ys).value, zs), p) == LastShape(xs + ys + zs, p)
  {
    var r := OverlayAll(ys).value;
    ResultShape(ys, p);
    LastShapeOfConcat(xs, ys, p);
    LastShapeOfConcat(xs + ys, zs, p);
    LastShapeOfConcat(xs, [r], p);
    LastShapeOfConcat(xs + [r], zs, p);
    assert [r][..0] == [];
    assert LastShape([r], p) == ShapeAt(r, p) || p == [];
  }

  lemma {:induction false} MergedHasNoNull(t: Fields, s: Fields)
    requires !HasNull(Object(t)) && !HasNull(Object(s))
    ensures !HasNull(Object(Merged(t, s)))
    decreases Object(s)
  {
    var m := Merged(t, s);
    forall k | k in m
      ensures !HasNull(m[k])
    {
      assert k in t ==> !HasNull(t[k]);
      assert k in s ==> !HasNull(s[k]);
      if k in t && k in s && t[k].Object? && s[k].Object? {
        MergedHasNoNull(t[k].fields, s[k].fields);
      }
    }
  }

  lemma {:induction false} ResultHasNoNull(layers: seq<Fields>)
    requires OverlayAll(layers).Some?
    ensures !HasNull(Object(OverlayAll(layers).value))
  {
    if layers != [] {
      ResultHasNoNull(layers[..|layers| - 1]);
      MergedHasNoNull(OverlayAll(layers[..|layers| - 1]).value, layers[|layers| - 1]);
    }
  }

  /** A layer of the grouped list takes its shape, where it has one, from a layer of the full one. */
  lemma GroupedLayer(xs: seq<Fields>, ys: seq<Fields>, zs: seq<Fields>, i: nat, p: Path) returns (j: nat)
    requires OverlayAll(ys).Some? && i < |xs| + 1 + |zs| && p != []
    requires ShapeAt(Grouped(xs, OverlayAll(ys).value, zs)[i], p) != Absent
    ensures j < |xs + ys + zs| && ShapeAt((xs + ys + zs)[j], p) == ShapeAt(Grouped(xs, OverlayAll(ys).value, zs)[i], p)
  {
    if i < |xs| {
      j := i;
    } else if i == |xs| {
      ResultShape(ys, p);
      var k := LastDefining(ys, p);
      j := |xs| + k;
    } else {
      j := i - 1 + |ys|;
    }
  }

  /** And the other way round, up to its kind. */
  lemma UngroupedLayer(xs: seq<Fields>, ys: seq<Fields>, zs: seq<Fields>, j: nat, p: Path) returns (i: nat)
    requires OverlayAll(ys).Some? && j < |xs + ys + zs| && p != []
    requires ShapeAt((xs + ys + zs)[j], p) != Absent
    ensures i < |xs| + 1 + |zs|
    ensures
      var s := ShapeAt(Grouped(xs, OverlayAll(ys).value, zs)[i], p);
      s != Absent && (s.Branch? <==> ShapeAt((xs + ys + zs)[j], p).Branch?)
  {
    if j < |xs| {
      i := j;
    } else if j < |xs + ys| {
      i := |xs|;
      SucceedsIff(ys);
      ResultShape(ys, p);
      DefinedSomewhere(ys, p, j - |xs|);
      SameKind(ys, p, j - |xs|);
    } else {
      i := j - |ys| + 1;
    }
  }

  lemma GroupedCompatible(xs: seq<Fields>, ys: seq<Fields>, zs: seq<Fields>)
    requires OverlayAll(ys).Some?
    ensures Compatible(xs + ys + zs) ==> Compatible(Grouped(xs, OverlayAll(ys).value, zs))
  {
    var all, grouped := xs + ys + zs, Grouped(xs, OverlayAll(ys).value, zs);
    if Compatible(all) {
      ResultHasNoNull(ys);
      forall i | 0 <= i < |grouped|
        ensures !HasNull(Object(grouped[i]))
      {
        assert i < |xs| ==> grouped[i] == all[i];
        assert i > |xs| ==> grouped[i] == all[i - 1 + |ys|];
      }
      forall i, j, p | 0 <= i < |grouped| && 0 <= j < |grouped|
        ensures !Disagreement(grouped, i, j, p)
      {
        if Disagreement(grouped, i, j, p) {
          var a := GroupedLayer(xs, ys, zs, i, p);
          var b := GroupedLayer(xs, ys, zs, j, p);
          NoPairDisagrees(all, a, b, p);
        }
      }
    }
  }

  lemma UngroupedCompatible(xs: seq<Fields>, ys: seq<Fields>, zs: seq<Fields>)
    requires OverlayAll(ys).Some?
    ensures Compatible(Grouped(xs, OverlayAll(ys).value, zs)) ==> Compatible(xs + ys + zs)
  {
    var all, grouped := xs + ys + zs, Grouped(xs, OverlayAll(ys).value, zs);
    if Compatible(grouped) {
      SucceedsIff(ys);
      forall j | 0 <= j < |all|
        ensures !HasNull(Object(all[j]))
      {
        assert j < |xs| ==> all[j] == grouped[j];
        assert |xs| <= j < |xs| + |ys| ==> all[j] == ys[j - |xs|];
        assert j >= |xs| + |ys| ==> all[j] == grouped[j - |ys| + 1];
      }
      forall i, j, p | 0 <= i < |all| && 0 <= j < |all|
        ensures !Disagreement(all, i, j, p)
      {
        if Disagreement(all, i, j, p) {
          var a := UngroupedLayer(xs, ys, zs, i, p);
          var b := UngroupedLayer(xs, ys, zs, j, p);
          NoPairDisagrees(grouped, a, b, p);
        }
      }
    }
  }

  lemma MiddleCompatible(xs: seq<Fields>, ys: seq<Fields>, zs: seq<Fields>)
    requires Compatible(xs + ys + zs)
    ensures Compatible(ys)
  {
    var all := xs + ys + zs;
    forall i | 0 <= i < |ys|
      ensures !HasNull(Object(ys[i]))
    {
      assert ys[i] == all[|xs| + i];
    }
    forall i, j, p | 0 <= i < |ys| && 0 <= j < |ys|
      ensures !Disagreement(ys, i, j, p)
    {
      assert !Disagreement(all, |xs| + i, |xs| + j, p);
    }
  }

  /** Overlaying is associative: any run of layers may be overlaid first. The whole fails when that
      run does, and otherwise is what the grouped layers give. */
  lemma Associative(xs: seq<Fields>, ys: seq<Fields>, zs: seq<Fields>)
    ensures OverlayAll(xs + ys + zs) ==
            match OverlayAll(ys) case None => None case Some(r) => OverlayAll(Grouped(xs, r, zs))
  {
    var all := xs + ys + zs;
    SucceedsIff(all);
    SucceedsIff(ys);
    if OverlayAll(ys).None? {
      if Compatible(all) {
        MiddleCompatible(xs, ys, zs);
      }
    } else {
      var grouped := Grouped(xs, OverlayAll(ys).value, zs);
      SucceedsIff(grouped);
      GroupedCompatible(xs, ys, zs);
      UngroupedCompatible(xs, ys, zs);
      if OverlayAll(all).Some? {
        SameResult(all, grouped, xs, ys, zs);
      }
    }
  }

  lemma SameResult(all: seq<Fields>, grouped: seq<Fields>, xs: seq<Fields>, ys: seq<Fields>, zs: seq<Fields>)
    requires all == xs + ys + zs && OverlayAll(ys).Some? && grouped == Grouped(xs, OverlayAll(ys).value, zs)
    requires OverlayAll(all).Some? && OverlayAll(grouped).Some?
    ensures OverlayAll(all) == OverlayAll(grouped)
  {
    forall p
      ensures ShapeAt(OverlayAll(all).value, p) == ShapeAt(OverlayAll(grouped).value, p)
    {
      ResultShape(all, p);
      ResultShape(grouped, p);
      GroupedShape(xs, ys, zs, p);
    }
    Extensional(OverlayAll(all).value, OverlayAll(grouped).value);
  }

  /** The empty tree changes nothing wherever it stands. */
  lemma EmptyIsIdentity(xs: seq<Fields>, zs: seq<Fields>)
    ensures OverlayAll(Grouped(xs, map[], zs)) == OverlayAll(xs + zs)
  {
    Associative(xs, [], zs);
    assert xs + [] + zs == xs + zs;
  }

  /** A single layer without nulls is its own overlay, and overlaying it again changes nothing. */
  lemma Idempotent(a: Fields)
    ensures OverlayAll([a]) == if HasNull(Object(a)) then None else Some(a)
    ensures OverlayAll([a, a]) == OverlayAll([a])
  {
    assert [a][..0] == [] && [a, a][..1] == [a];
    if Conflict(a, a) {
      var p := ConflictDisagrees(a, a);
    }
    forall p
      ensures ShapeAt(Merged(map[], a), p) == ShapeAt(a, p) == ShapeAt(Merged(a, a), p)
    {
      MergedShape(map[], a, p);
      MergedShape(a, a, p);
    }
    Extensional(Merged(map[], a), a);
    Extensional(Merged(a, a), a);
  }
}

/** The overlay as the program runs it: layers are copied and merged key by key, in any order, into
    an effective tree and a provenance map that are updated in place. */
module OverlayRun {
  import opened Wrappers
  import opened JsonValue
  import opened Overlay
  import opened OverlayProvenance
  import Decimal

  /** A deep copy, refused when a null occurs anywhere. */
  method CloneValue(v: Json) returns (ok: bool, copy: Json)
    ensures ok <==> !HasNull(v)
    ensures ok ==> copy == v
    decreases v
  {
    ok, copy := true, v;
    match v {
      case Null => ok := false;
      case Object(fields) =>
        var copied: Fields, todo := map[], fields.Keys;
        while todo != {}
          invariant todo <= fields.Keys && copied.Keys == fields.Keys - todo
          invariant forall k :: k in copied ==> copied[k] == fields[k] && !HasNull(fields[k])
        {
          var key :| key in todo;
          var fine, child := CloneValue(fields[key]);
          if !fine {
            return false, v;
          }
          copied, todo := copied[key := child], todo - {key};
        }
        assert copied == fields;
        copy := Object(copied);
      case List(items) =>
        var copied: seq<Json> := [];
        for i := 0 to |items|
          invariant copied == items[..i]
          invariant forall k :: 0 <= k < i ==> !HasNull(items[k])
        {
          var fine, child := CloneValue(items[i]);
          if !fine {
            return false, v;
          }
          copied := copied + [child];
        }
        copy := List(copied);
      case _ =>
    }
  }

  lemma PointerBelow(prefix: string, k: string, q: Path)
    ensures prefix + "/" + Escape(k) + Pointer(q) == prefix + Pointer([k] + q)
  {
    assert ([k] + q)[1..] == q;
  }

  /** The paths below some keys, each key with its own set. */
  function Below(paths: map<string, set<Path>>, keys: set<string>): set<Path> {
    set k, q | k in keys && k in paths && q in paths[k] :: [k] + q
  }

  lemma BelowOneMore(prefix: string, paths: map<string, set<Path>>, keys: set<string>, k: string)
    requires k in paths
    ensures Pointers(prefix, Below(paths, keys + {k})) ==
            Pointers(prefix, Below(paths, keys)) + Pointers(prefix + "/" + Escape(k), paths[k])
  {
    var a, b := Pointers(prefix, Below(paths, keys + {k})), Pointers(prefix + "/" + Escape(k), paths[k]);
    forall x | x in a
      ensures x in Pointers(prefix, Below(paths, keys)) + b
    {
      var p :| p in Below(paths, keys + {k}) && x == prefix + Pointer(p);
      var j, q :| j in keys + {k} && j in paths && q in paths[j] && p == [j] + q;
      if j in keys {
        assert p in Below(paths, keys);
      } else {
        PointerBelow(prefix, k, q);
      }
    }
    forall x | x in b
      ensures x in a
    {
      var q :| q in paths[k] && x == prefix + "/" + Escape(k) + Pointer(q);
      PointerBelow(prefix, k, q);
      assert [k] + q in Below(paths, keys + {k});
    }
    forall x | x in Pointers(prefix, Below(paths, keys))
      ensures x in a
    {
      var p :| p in Below(paths, keys) && x == prefix + Pointer(p);
      assert p in Below(paths, keys + {k});
    }
  }

  lemma StampTwice(m: map<string, string>, a: set<string>, b: set<string>, layer: string)
    ensures Stamp(Stamp(m, a, layer), b, layer) == Stamp(m, a + b, layer)
  {
  }

  /** Marking below one more key. */
  lemma StampOneMore(
      m: map<string, string>, base: set<string>, prefix: string, paths: map<string, set<Path>>, done: set<string>, k: string, layer: string)
    requires k in paths
    ensures Stamp(Stamp(m, base + Pointers(prefix, Below(paths, done)), layer), Pointers(prefix + "/" + Escape(k), paths[k]), layer)
            == Stamp(m, base + Pointers(prefix, Below(paths, done + {k})), layer)
  {
    var a, b := Pointers(prefix, Below(paths, done)), Pointers(prefix + "/" + Escape(k), paths[k]);
    BelowOneMore(prefix, paths, done, k);
    StampTwice(m, base + a, b, layer);
    assert base + a + b == base + (a + b);
  }

  lemma StampNothing(m: map<string, string>, layer: string)
    ensures Stamp(m, {}, layer) == m
  {
  }

  lemma StampOne(m: map<string, string>, path: string, paths: map<string, set<Path>>, layer: string)
    ensures m[path := layer] == Stamp(m, {path} + Pointers(path, Below(paths, {})), layer)
  {
    assert Below(paths, {}) == {};
    assert {path} + Pointers(path, {}) == {path};
  }

  function NamedLayer(index: nat, layer: string): (name: string)
    ensures name != ""
  {
    if layer == "" then "data layer " + Decimal.OfNat(index) else layer
  }

  /** Where a layer clashes with an earlier one and the layer named for it, if that is why it was refused. */
  datatype Refusal = NoClash | Clashes(at: Path, previous: string)

  /** The layer a clash is reported against. */
  function PreviousLayer(provenance: map<string, string>, pointer: string): string {
    if pointer in provenance && provenance[pointer] != "" then provenance[pointer] else "earlier data layer"
  }

  datatype Source = Source(layer: string, tree: Option<Fields>)

  function TreeOf(source: Source): Fields {
    if source.tree.Some? then source.tree.value else map[]
  }

  function TreesOf(sources: seq<Source>): (r: seq<Fields>)
    ensures |r| == |sources|
  {
    seq(|sources|, i requires 0 <= i < |sources| => TreeOf(sources[i]))
  }

  function NamesOf(sources: seq<Source>): (r: seq<string>)
    ensures |r| == |sources|
  {
    seq(|sources|, i requires 0 <= i < |sources| => NamedLayer(i, sources[i].layer))
  }

  /** A layer is known by its own name, or else by the number of its position in decimal digits. */
  lemma LayersNamed(sources: seq<Source>, i: nat)
    requires i < |sources|
    ensures sources[i].layer != "" ==> NamesOf(sources)[i] == sources[i].layer
    ensures sources[i].layer == "" ==>
              exists digits :: NamesOf(sources)[i] == "data layer " + digits && Decimal.AllDigits(digits) && Decimal.Value(digits) == i
  {
    Decimal.OfNatShape(i);
    assert sources[i].layer == "" ==> NamesOf(sources)[i] == "data layer " + Decimal.OfNat(i);
  }

  /** An absent tree changes neither the effective tree nor the provenance. */
  lemma EmptyLayer(target: Fields, provenance: map<string, string>, layer: string)
    ensures OverlayOne(target, map[]) == Some(target)
    ensures Stamp(provenance, Pointers("", Claimed(target, map[])), layer) == provenance
  {
    assert Merged(target, map[]) == target;
    assert Pointers("", Claimed(target, map[])) == {};
    StampNothing(provenance, layer);
  }

  class EffectiveData {
    var tree: Fields
    var provenance: map<string, string>

    constructor ()
      ensures tree == map[] && provenance == map[]
    {
      tree, provenance := map[], map[];
    }

    /** Marks a value and everything in it as coming from a layer. */
    method MarkProvenance(v: Json, layer: string, path: string)
      modifies this`provenance
      ensures provenance == Stamp(old(provenance), Pointers(path, AllPaths(v)), layer)
      decreases v
    {
      provenance := provenance[path := layer];
      if v.Object? {
        ghost var paths := map k | k in v.fields :: AllPaths(v.fields[k]);
        var todo := v.fields.Keys;
        StampOne(old(provenance), path, paths, layer);
        assert v.fields.Keys - todo == {};
        while todo != {}
          invariant todo <= v.fields.Keys
          invariant provenance == Stamp(old(provenance), {path} + Pointers(path, Below(paths, v.fields.Keys - todo)), layer)
        {
          var key :| key in todo;
          MarkProvenance(v.fields[key], layer, path + "/" + Escape(key));
          StampOneMore(old(provenance), {path}, path, paths, v.fields.Keys - todo, key, layer);
          OneDone(v.fields.Keys, todo, key);
          todo := todo - {key};
        }
        assert v.fields.Keys - {} == v.fields.Keys;
        MarkedObject(v.fields, path, paths);
      } else {
        assert AllPaths(v) == {[]};
        assert Pointers(path, {[]}) == {path} by { assert path + Pointer([]) == path; }
      }
    }

    /** Takes over one member of a layer's object, giving the member's new value. */
    method OverlayKey(target: Fields, source: Fields, key: string, layer: string, path: string)
        returns (fine: bool, next: Json, refusal: Refusal)
      requires key in source
      modifies this`provenance
      ensures fine <==> Fine(target, source, key)
      ensures fine ==> next == if key in target then MergedValue(target[key], source[key]) else source[key]
      ensures fine ==> provenance == Stamp(old(provenance), Pointers(path, ClaimedBelow(target, source, key)), layer)
      ensures refusal.Clashes? ==> Disagree(ShapeAt(target, [key] + refusal.at), ShapeAt(source, [key] + refusal.at))
      ensures refusal.Clashes? ==> refusal.previous == PreviousLayer(old(provenance), path + Pointer(refusal.at))
      ensures !fine && !refusal.Clashes? ==> HasNull(source[key])
      decreases Object(source), 0
    {
      refusal := NoClash;
      fine, next := CloneValue(source[key]);
      if !fine {
        return;
      }
      if key in target && target[key].Object? && next.Object? {
        var fields;
        fine, fields, refusal := OverlayObject(target[key].fields, next.fields, layer, path);
        next := Object(fields);
        if refusal.Clashes? {
          ShapeBelow(target, key, refusal.at);
          ShapeBelow(source, key, refusal.at);
        }
      } else if key in target && target[key].Object? != next.Object? {
        var previous := if path in provenance then provenance[path] else "";
        if previous == "" {
          previous := "earlier data layer";
        }
        fine, refusal := false, Clashes([], previous);
        ClashHere(target, source, key);
        assert path + Pointer([]) == path;
      } else {
        MarkProvenance(next, layer, path);
        assert key in target ==> AllPaths(next) == {[]};
      }
    }

    /** Merges one layer's object into the object at this path of the effective tree. */
    method OverlayObject(target: Fields, source: Fields, layer: string, path: string) returns (ok: bool, result: Fields, refusal: Refusal)
      modifies this`provenance
      ensures ok <==> OverlayOne(target, source).Some?
      ensures ok ==> result == Merged(target, source)
      ensures ok ==> provenance == Stamp(old(provenance), Pointers(path, Claimed(target, source)), layer)
      ensures refusal.Clashes? ==> Disagree(ShapeAt(target, refusal.at), ShapeAt(source, refusal.at))
      ensures refusal.Clashes? ==> refusal.previous == PreviousLayer(old(provenance), path + Pointer(refusal.at))
      ensures !ok && !refusal.Clashes? ==> HasNull(Object(source))
      decreases Object(source), 1
    {
      ghost var paths := map k | k in source :: ClaimedBelow(target, source, k);
      result, refusal := target, NoClash;
      var todo := source.Keys;
      StampStart(provenance, path, paths, layer);
      UpdateStart(target, source);
      assert source.Keys - todo == {};
      while todo != {}
        invariant todo <= source.Keys
        invariant result == Updated(target, source, source.Keys - todo)
        invariant source.Keys - todo <= FineKeys(target, source)
        invariant provenance == Stamp(old(provenance), {} + Pointers(path, Below(paths, source.Keys - todo)), layer)
      {
        var key :| key in todo;
        var fine, next, why := OverlayKey(target, source, key, layer, path + "/" + Escape(key));
        if !fine {
          NotFine(target, source, key);
          if why.Clashes? {
            NotStamped(old(provenance), path, paths, source.Keys - todo, key, why.at, layer);
            refusal := Clashes([key] + why.at, why.previous);
          }
          return false, target, refusal;
        }
        StampOneMore(old(provenance), {}, path, paths, source.Keys - todo, key, layer);
        UpdateOneMore(target, source, source.Keys - todo, key);
        OneDone(source.Keys, todo, key);
        result, todo := result[key := next], todo - {key};
      }
      ok := true;
      assert source.Keys - {} == source.Keys;
      AllMerged(target, source);
      AllClaimed(target, source, path, paths);
    }

    /** Overlays one source; an absent tree is skipped. */
    method OverlaySource(source: Source, layer: string) returns (ok: bool, refusal: Refusal)
      modifies this
      ensures ok <==> OverlayOne(old(tree), TreeOf(source)).Some?
      ensures ok ==> OverlayOne(old(tree), TreeOf(source)) == Some(tree)
      ensures ok ==> provenance == Stamp(old(provenance), Pointers("", Claimed(old(tree), TreeOf(source))), layer)
      ensures refusal.Clashes? ==> Disagree(ShapeAt(old(tree), refusal.at), ShapeAt(TreeOf(source), refusal.at))
      ensures refusal.Clashes? ==> refusal.previous == PreviousLayer(old(provenance), Pointer(refusal.at))
      ensures !ok && !refusal.Clashes? ==> HasNull(Object(TreeOf(source)))
    {
      refusal := NoClash;
      if source.tree.None? {
        EmptyLayer(tree, provenance, layer);
        return true, refusal;
      }
      var next;
      ok, next, refusal := OverlayObject(tree, source.tree.value, layer, "");
      if ok {
        tree := next;
      }
      assert refusal.Clashes? ==> "" + Pointer(refusal.at) == Pointer(refusal.at);
    }

    /** Overlays all sources, the first at the bottom. A clash names the layer its value came from. */
    method OverlaySources(sources: seq<Source>) returns (ok: bool, refusal: Refusal)
      requires tree == map[] && provenance == map[]
      modifies this
      ensures ok <==> OverlayAll(TreesOf(sources)).Some?
      ensures ok ==> OverlayAll(TreesOf(sources)) == Some(tree)
      ensures ok ==> provenance == Provenance(TreesOf(sources), NamesOf(sources))
      ensures !ok ==> Explained(sources, refusal)
    {
      ghost var trees, names := TreesOf(sources), NamesOf(sources);
      refusal := NoClash;
      for i := 0 to |sources|
        invariant OverlayAll(trees[..i]) == Some(tree)
        invariant provenance == Provenance(trees[..i], names[..i])
      {
        NextLayer(trees, names, i, tree);
        ghost var before := tree;
        var fine;
        fine, refusal := OverlaySource(sources[i], NamedLayer(i, sources[i].layer));
        if !fine {
          FailsEarly(trees, i + 1);
          RefusalExplained(sources, i, before, refusal);
          return false, refusal;
        }
      }
      assert trees[..|sources|] == trees && names[..|sources|] == names;
      ok := true;
    }
  }

  // ---------------------------------------------------------------------------------------
  // What a refusal says

  /** A layer disagrees with the layers below it at this path, and the layer named is the origin of
      what they have there. */
  predicate NamesOrigin(trees: seq<Fields>, names: seq<string>, i: nat, refusal: Refusal)
    requires i < |trees| == |names| && refusal.Clashes?
  {
    && Disagree(LastShape(trees[..i], refusal.at), ShapeAt(trees[i], refusal.at))
    && Origin(trees[..i], refusal.at) < i && refusal.previous == names[Origin(trees[..i], refusal.at)]
  }

  /** What stands at a clash has a provenance, and every layer has a name, so that the error always
      names a layer. */
  lemma ClashNamesOrigin(trees: seq<Fields>, names: seq<string>, i: nat, refusal: Refusal)
    requires i < |trees| == |names| && OverlayAll(trees[..i]).Some? && refusal.Clashes? && (forall k :: 0 <= k < |names| ==> names[k] != "")
    requires Disagree(ShapeAt(OverlayAll(trees[..i]).value, refusal.at), ShapeAt(trees[i], refusal.at))
    requires refusal.previous == PreviousLayer(Provenance(trees[..i], names[..i]), Pointer(refusal.at))
    ensures NamesOrigin(trees, names, i, refusal)
  {
    assert refusal.at != [];
    ProvenanceExact(trees[..i], names[..i], refusal.at);
    ResultShape(trees[..i], refusal.at);
  }

  /** Some layer has a null, or clashes with the layers below it as reported. */
  ghost predicate Explained(sources: seq<Source>, refusal: Refusal) {
    exists i :: 0 <= i < |sources| &&
      if refusal.Clashes? then NamesOrigin(TreesOf(sources), NamesOf(sources), i, refusal) else HasNull(Object(TreeOf(sources[i])))
  }

  lemma RefusalExplained(sources: seq<Source>, i: nat, target: Fields, refusal: Refusal)
    requires i < |sources| && OverlayAll(TreesOf(sources)[..i]) == Some(target)
    requires refusal.Clashes? ==> Disagree(ShapeAt(target, refusal.at), ShapeAt(TreeOf(sources[i]), refusal.at))
    requires refusal.Clashes? ==>
      refusal.previous == PreviousLayer(Provenance(TreesOf(sources)[..i], NamesOf(sources)[..i]), Pointer(refusal.at))
    requires !refusal.Clashes? ==> HasNull(Object(TreeOf(sources[i])))
    ensures Explained(sources, refusal)
  {
    if refusal.Clashes? {
      ClashNamesOrigin(TreesOf(sources), NamesOf(sources), i, refusal);
    }
  }

  lemma ClashHere(target: Fields, source: Fields, key: string)
    requires key in target && key in source && target[key].Object? != source[key].Object?
    ensures Disagree(ShapeAt(target, [key] + []), ShapeAt(source, [key] + []))
  {
    assert [key] + [] == [key];
    ShapeOfKey(target, key);
    ShapeOfKey(source, key);
  }

  /** The keys taken over before have not changed the provenance below this one. */
  lemma NotStamped(m: map<string, string>, path: string, paths: map<string, set<Path>>, done: set<string>, key: string, at: Path, layer: string)
    requires key !in done
    ensures
      PreviousLayer(Stamp(m, {} + Pointers(path, Below(paths, done)), layer), path + "/" + Escape(key) + Pointer(at)) ==
      PreviousLayer(m, path + Pointer([key] + at))
  {
    PointerBelow(path, key, at);
    var x := path + Pointer([key] + at);
    if x in Pointers(path, Below(paths, done)) {
      var q :| q in Below(paths, done) && x == path + Pointer(q);
      assert Pointer(q) == x[|path|..] == Pointer([key] + at);
      PointerInjective(q, [key] + at);
      assert false;
    }
  }

  lemma NextLayer(trees: seq<Fields>, names: seq<string>, i: nat, target: Fields)
    requires i < |trees| == |names| && OverlayAll(trees[..i]) == Some(target)
    ensures OverlayAll(trees[..i + 1]) == OverlayOne(target, trees[i])
    ensures Provenance(trees[..i + 1], names[..i + 1]) ==
            Stamp(Provenance(trees[..i], names[..i]), Pointers("", Claimed(target, trees[i])), names[i])
  {
    assert trees[..i + 1][..i] == trees[..i] && names[..i + 1][..i] == names[..i];
  }

  lemma OneDone(all: set<string>, todo: set<string>, key: string)
    requires key in todo && todo <= all
    ensures all - (todo - {key}) == all - todo + {key}
  {
  }

  predicate Fine(target: Fields, source: Fields, k: string)
    requires k in source
  {
    !HasNull(source[k]) && (k in target ==> !Clash(target[k], source[k]))
  }

  function NewValue(target: Fields, source: Fields, k: string): Json
    requires k in source
  {
    if k in target then MergedValue(target[k], source[k]) else source[k]
  }

  /** The target once some keys of the source have been taken over. */
  function Updated(target: Fields, source: Fields, done: set<string>): Fields {
    map k | k in target.Keys + source.Keys * done :: if k in source && k in done then NewValue(target, source, k) else target[k]
  }

  function FineKeys(target: Fields, source: Fields): set<string> {
    set k | k in source && Fine(target, source, k)
  }

  lemma UpdateStart(target: Fields, source: Fields)
    ensures Updated(target, source, {}) == target
  {
  }

  lemma UpdateOneMore(target: Fields, source: Fields, done: set<string>, k: string)
    requires k in source
    ensures Updated(target, source, done + {k}) == Updated(target, source, done)[k := NewValue(target, source, k)]
  {
  }

  lemma AllClaimed(target: Fields, source: Fields, path: string, paths: map<string, set<Path>>)
    requires paths == map k | k in source :: ClaimedBelow(target, source, k)
    ensures {} + Pointers(path, Below(paths, source.Keys)) == Pointers(path, Claimed(target, source))
  {
    assert Below(paths, source.Keys) == Claimed(target, source);
  }

  lemma NotFine(target: Fields, source: Fields, k: string)
    requires k in source && !Fine(target, source, k)
    ensures OverlayOne(target, source).None?
  {
  }

  lemma AllMerged(target: Fields, source: Fields)
    requires source.Keys <= FineKeys(target, source)
    ensures OverlayOne(target, source) == Some(Updated(target, source, source.Keys))
  {
    assert forall k :: k in source ==> k in FineKeys(target, source);
    assert Updated(target, source, source.Keys) == Merged(target, source);
  }

  /** Once some layers fail, more layers do. */
  lemma {:induction false} FailsEarly(layers: seq<Fields>, i: nat)
    requires i <= |layers| && OverlayAll(layers[..i]).None?
    ensures OverlayAll(layers).None?
    decreases |layers|
  {
    if i < |layers| {
      assert layers[..|layers| - 1][..i] == layers[..i];
      FailsEarly(layers[..|layers| - 1], i);
    } else {
      assert layers[..i] == layers;
    }
  }

  lemma StampStart(m: map<string, string>, prefix: string, paths: map<string, set<Path>>, layer: string)
    ensures m == Stamp(m, {} + Pointers(prefix, Below(paths, {})), layer)
  {
    assert Below(paths, {}) == {};
    assert {} + Pointers(prefix, {}) == {};
    StampNothing(m, layer);
  }

  lemma MarkedObject(fields: Fields, path: string, paths: map<string, set<Path>>)
    requires paths == map k | k in fields :: AllPaths(fields[k])
    ensures {path} + Pointers(path, Below(paths, fields.Keys)) == Pointers(path, AllPaths(Object(fields)))
  {
    assert AllPaths(Object(fields)) == {[]} + Below(paths, fields.Keys);
    assert path + Pointer([]) == path;
  }
}

/** Where every value of an overlay came from, keyed by JSON Pointer (sections 3 and 4 of
    RFC 6901), and the overlay as the program runs it, updating its maps in place. */
module OverlayProvenance {
  import opened JsonValue
  import opened Overlay

  // ---------------------------------------------------------------------------------------
  // JSON Pointers

  function EscapeChar(c: char): string {
    if c == '~' then "~0" else if c == '/' then "~1" else [c]
  }

  function Escape(segment: string): string {
    if segment == "" then "" else EscapeChar(segment[0]) + Escape(segment[1..])
  }

  function Pointer(p: Path): string {
    if p == [] then "" else "/" + Escape(p[0]) + Pointer(p[1..])
  }

  lemma {:induction false} EscapeInjective(a: string, b: string)
    requires Escape(a) == Escape(b)
    ensures a == b
  {
    if a != "" && b != "" {
      var x, y := EscapeChar(a[0]) + Escape(a[1..]), EscapeChar(b[0]) + Escape(b[1..]);
      assert x[0] == y[0];
      if a[0] == '~' || a[0] == '/' {
        assert x[1] == y[1];
      }
      assert a[0] == b[0];
      assert Escape(a[1..]) == x[|EscapeChar(a[0])|..] && Escape(b[1..]) == y[|EscapeChar(b[0])|..];
      EscapeInjective(a[1..], b[1..]);
    }
  }

  lemma {:induction false} EscapeHasNoSlash(a: string)
    ensures '/' !in Escape(a)
  {
    if a != "" {
      EscapeHasNoSlash(a[1..]);
    }
  }

  lemma PointerStart(p: Path)
    ensures Pointer(p) != "" <==> p != []
    ensures p != [] ==> Pointer(p)[0] == '/'
  {
  }

  lemma SlashInside(a: string, x: string, b: string, y: string)
    requires a + x == b + y && |a| < |b| && (x != "" ==> x[0] == '/')
    ensures '/' in b
  {
    assert b[|a|] == (b + y)[|a|] == (a + x)[|a|] == x[0];
  }

  /** A slash-free text followed by nothing or a slash is recognisable. */
  lemma SplitAtSlash(a: string, x: string, b: string, y: string)
    requires a + x == b + y && '/' !in a && '/' !in b
    requires (x != "" ==> x[0] == '/') && (y != "" ==> y[0] == '/')
    ensures a == b && x == y
  {
    if |a| < |b| {
      SlashInside(a, x, b, y);
      assert false;
    } else if |b| < |a| {
      SlashInside(b, y, a, x);
      assert false;
    }
    assert a == (a + x)[..|a|] && b == (b + y)[..|b|];
    assert x == (a + x)[|a|..] && y == (b + y)[|b|..];
  }

  lemma {:induction false} PointerTail(p: Path)
    requires p != []
    ensures Pointer(p)[1..] == Escape(p[0]) + Pointer(p[1..])
  {
    assert Pointer(p) == "/" + (Escape(p[0]) + Pointer(p[1..]));
  }

  lemma {:induction false} PointerSteps(p: Path, q: Path)
    requires Pointer(p) == Pointer(q) && p != [] && q != []
    ensures p[0] == q[0] && Pointer(p[1..]) == Pointer(q[1..])
  {
    var e, x, f, y := Escape(p[0]), Pointer(p[1..]), Escape(q[0]), Pointer(q[1..]);
    EscapeHasNoSlash(p[0]);
    EscapeHasNoSlash(q[0]);
    PointerStart(p[1..]);
    PointerStart(q[1..]);
    PointerTail(p);
    PointerTail(q);
    SplitAtSlash(e, x, f, y);
    EscapeInjective(p[0], q[0]);
  }

  /** Different paths have different pointers. */
  lemma {:induction false} PointerInjective(p: Path, q: Path)
    requires Pointer(p) == Pointer(q)
    ensures p == q
  {
    PointerStart(p);
    PointerStart(q);
    if p != [] {
      PointerSteps(p, q);
      PointerInjective(p[1..], q[1..]);
      assert p == [p[0]] + p[1..] && q == [q[0]] + q[1..];
    }
  }

  // ---------------------------------------------------------------------------------------
  // Reading a pointer

  /** A reference token decoded: `~1` is a slash, `~0` a tilde. */
  function Unescape(token: string): string {
    if |token| >= 2 && token[0] == '~' && token[1] == '1' then "/" + Unescape(token[2..])
    else if |token| >= 2 && token[0] == '~' && token[1] == '0' then "~" + Unescape(token[2..])
    else if token == "" then ""
    else [token[0]] + Unescape(token[1..])
  }

  /** The characters before the first slash. */
  function BeforeSlash(text: string): (n: nat)
    ensures n <= |text| && (n < |text| ==> text[n] == '/') && '/' !in text[..n]
  {
    if text == "" || text[0] == '/' then 0
    else
      var n := BeforeSlash(text[1..]) + 1;
      assert text[..n] == [text[0]] + text[1..][..n - 1];
      n
  }

  /** The path a pointer names: the tokens that its slashes introduce, decoded. */
  function ReadPointer(text: string): Path {
    if text == "" then []
    else
      var n := BeforeSlash(text[1..]);
      [Unescape(text[1..][..n])] + ReadPointer(text[1..][n..])
  }

  lemma {:induction false} UnescapeEscape(segment: string)
    ensures Unescape(Escape(segment)) == segment
  {
    if segment != "" {
      var head, rest := EscapeChar(segment[0]), Escape(segment[1..]);
      UnescapeEscape(segment[1..]);
      assert (head + rest)[|head|..] == rest;
      assert segment == [segment[0]] + segment[1..];
      if segment[0] != '~' && segment[0] != '/' {
        assert (head + rest)[1..] == rest;
      }
    }
  }

  lemma {:induction false} TokenBeforeSlash(token: string, rest: string)
    requires '/' !in token && (rest != "" ==> rest[0] == '/')
    ensures BeforeSlash(token + rest) == |token|
  {
    if token != "" {
      TokenBeforeSlash(token[1..], rest);
      assert (token + rest)[1..] == token[1..] + rest;
    }
  }

  /** Reading the pointer of a path as the standard says gives the path. */
  lemma {:induction false} PointerReads(p: Path)
    ensures ReadPointer(Pointer(p)) == p
  {
    if p != [] {
      var token, rest := Escape(p[0]), Pointer(p[1..]);
      EscapeHasNoSlash(p[0]);
      PointerStart(p[1..]);
      PointerTail(p);
      TokenBeforeSlash(token, rest);
      assert (token + rest)[..|token|] == token && (token + rest)[|token|..] == rest;
      UnescapeEscape(p[0]);
      PointerReads(p[1..]);
      assert p == [p[0]] + p[1..];
    }
  }

  // ---------------------------------------------------------------------------------------
  // The paths a layer claims

  /** All paths of a value, its own first. */
  function AllPaths(v: Json): set<Path>
    decreases v
  {
    {[]} + if v.Object? then set k, q | k in v.fields.Keys && q in AllPaths(v.fields[k]) :: [k] + q else {}
  }

  /** What a layer claims below one of its keys: everything when the key is new, what the merge
      claims when both sides are objects, and the value itself otherwise. */
  function ClaimedBelow(target: Fields, source: Fields, k: string): set<Path>
    requires k in source
    decreases Object(source), 0
  {
    if k !in target then AllPaths(source[k])
    else if target[k].Object? && source[k].Object? then Claimed(target[k].fields, source[k].fields)
    else {[]}
  }

  function Claimed(target: Fields, source: Fields): set<Path>
    decreases Object(source), 1
  {
    set k, q | k in source.Keys && q in ClaimedBelow(target, source, k) :: [k] + q
  }

  lemma {:induction false} AllPathsExact(o: Fields, p: Path)
    ensures p in AllPaths(Object(o)) <==> ShapeAt(o, p) != Absent
    decreases |p|
  {
    if p != [] {
      var k := p[0];
      assert p == [k] + p[1..];
      if k in o {
        if o[k].Object? {
          AllPathsExact(o[k].fields, p[1..]);
        } else {
          assert AllPaths(o[k]) == {[]};
        }
        if p[1..] in AllPaths(o[k]) {
          assert k in Object(o).fields.Keys && [k] + p[1..] in AllPaths(Object(o));
        }
      }
      if p in AllPaths(Object(o)) {
        var j, q :| j in o.Keys && q in AllPaths(o[j]) && p == [j] + q;
        assert q == p[1..];
      }
    }
  }

  predicate Claims(t: Shape, s: Shape) {
    s.Leaf? || (s.Branch? && t == Absent)
  }

  /** A layer claims its leaves and the objects that are new. */
  lemma {:induction false} ClaimedExact(t: Fields, s: Fields, p: Path)
    requires !Conflict(t, s)
    ensures p in Claimed(t, s) <==> p != [] && Claims(ShapeAt(t, p), ShapeAt(s, p))
    decreases |p|, 1
  {
    if p != [] {
      var k := p[0];
      assert p == [k] + p[1..];
      if k in s {
        ClaimedBelowExact(t, s, k, p[1..]);
        if p[1..] in ClaimedBelow(t, s, k) {
          assert [k] + p[1..] in Claimed(t, s);
        }
      }
      if p in Claimed(t, s) {
        var j, q :| j in s.Keys && q in ClaimedBelow(t, s, j) && p == [j] + q;
        assert q == p[1..];
      }
    }
  }

  lemma {:induction false} ClaimedBelowExact(t: Fields, s: Fields, k: string, q: Path)
    requires !Conflict(t, s) && k in s
    ensures q in ClaimedBelow(t, s, k) <==> Claims(ShapeAt(t, [k] + q), ShapeAt(s, [k] + q))
    decreases |q| + 1, 0
  {
    assert ([k] + q)[1..] == q;
    if k !in t {
      if s[k].Object? {
        AllPathsExact(s[k].fields, q);
      } else {
        assert AllPaths(s[k]) == {[]};
      }
    } else {
      assert !Clash(t[k], s[k]);
      if s[k].Object? {
        ClaimedExact(t[k].fields, s[k].fields, q);
      }
    }
  }

  // ---------------------------------------------------------------------------------------
  // The provenance map

  function Pointers(prefix: string, paths: set<Path>): set<string> {
    set p | p in paths :: prefix + Pointer(p)
  }

  function Stamp(provenance: map<string, string>, pointers: set<string>, layer: string): map<string, string> {
    map p | p in provenance.Keys + pointers :: if p in pointers then layer else provenance[p]
  }

  /** The provenance after all layers. */
  function Provenance(layers: seq<Fields>, names: seq<string>): map<string, string>
    requires |names| == |layers|
  {
    if layers == [] then map[]
    else
      var last := |layers| - 1;
      var target := OverlayAll(layers[..last]);
      Stamp(Provenance(layers[..last], names[..last]),
            if target.Some? then Pointers("", Claimed(target.value, layers[last])) else {}, names[last])
  }

  lemma PointersExact(paths: set<Path>, p: Path)
    ensures Pointer(p) in Pointers("", paths) <==> p in paths
  {
    if Pointer(p) in Pointers("", paths) {
      var q :| q in paths && Pointer(p) == "" + Pointer(q);
      PointerInjective(p, q);
    }
    if p in paths {
      assert "" + Pointer(p) == Pointer(p);
    }
  }

  /** The layer a path's provenance should name: the last to define a leaf, the first to define an
      object. */
  function Origin(layers: seq<Fields>, p: Path): (i: nat)
    ensures i <= |layers|
  {
    if layers == [] then 0
    else
      var last := |layers| - 1;
      if Claims(LastShape(layers[..last], p), ShapeAt(layers[last], p)) then last
      else
        var i := Origin(layers[..last], p);
        if i == last then |layers| else i
  }

  /** Provenance names the origin of exactly the paths of the effective tree. */
  lemma {:induction false} ProvenanceExact(layers: seq<Fields>, names: seq<string>, p: Path)
    requires |names| == |layers| && OverlayAll(layers).Some? && p != []
    ensures Pointer(p) in Provenance(layers, names) <==> ShapeAt(OverlayAll(layers).value, p) != Absent
    ensures
      Pointer(p) in Provenance(layers, names) ==>
      Origin(layers, p) < |layers| && Provenance(layers, names)[Pointer(p)] == names[Origin(layers, p)]
  {
    ResultShape(layers, p);
    if layers != [] {
      var last := |layers| - 1;
      var front := layers[..last];
      var t := OverlayAll(front).value;
      ProvenanceExact(front, names[..last], p);
      ResultShape(front, p);
      ClaimedExact(t, layers[last], p);
      PointersExact(Claimed(t, layers[last]), p);
    }
  }

  predicate IsOrigin(layers: seq<Fields>, p: Path, i: nat) {
    && i < |layers| && ShapeAt(layers[i], p) != Absent
    && (LastShape(layers, p).Leaf? ==> forall j :: i < j < |layers| ==> ShapeAt(layers[j], p) == Absent)
    && (LastShape(layers, p).Branch? ==> forall j :: 0 <= j < i ==> ShapeAt(layers[j], p) == Absent)
  }

  lemma LastClaims(layers: seq<Fields>, p: Path)
    requires layers != [] && Compatible(layers) && p != [] && Claims(LastShape(layers[..|layers| - 1], p), ShapeAt(layers[|layers| - 1], p))
    ensures IsOrigin(layers, p, |layers| - 1)
  {
    var last := |layers| - 1;
    var front := layers[..last];
    FrontCompatible(layers);
    forall j | 0 <= j < last && LastShape(layers, p).Branch?
      ensures ShapeAt(layers[j], p) == Absent
    {
      assert front[j] == layers[j];
      if ShapeAt(front[j], p) != Absent {
        DefinedSomewhere(front, p, j);
      }
    }
  }

  lemma FrontClaims(layers: seq<Fields>, p: Path, i: nat)
    requires layers != [] && Compatible(layers) && p != [] && IsOrigin(layers[..|layers| - 1], p, i)
    requires !Claims(LastShape(layers[..|layers| - 1], p), ShapeAt(layers[|layers| - 1], p))
    ensures IsOrigin(layers, p, i)
  {
    var front := layers[..|layers| - 1];
    FrontCompatible(layers);
    assert front[i] == layers[i];
    SameKind(layers, p, i);
    SameKind(front, p, i);
  }

  /** The origin is the last layer defining a leaf, and the first defining an object. */
  lemma {:induction false} OriginExact(layers: seq<Fields>, p: Path)
    requires Compatible(layers) && p != [] && LastShape(layers, p) != Absent
    ensures Origin(layers, p) < |layers| && ShapeAt(layers[Origin(layers, p)], p) != Absent
    ensures LastShape(layers, p).Leaf? ==> forall j :: Origin(layers, p) < j < |layers| ==> ShapeAt(layers[j], p) == Absent
    ensures LastShape(layers, p).Branch? ==> forall j :: 0 <= j < Origin(layers, p) ==> ShapeAt(layers[j], p) == Absent
  {
    var last := |layers| - 1;
    var front := layers[..last];
    if Claims(LastShape(front, p), ShapeAt(layers[last], p)) {
      LastClaims(layers, p);
    } else {
      FrontCompatible(layers);
      OriginExact(front, p);
      FrontClaims(layers, p, Origin(front, p));
    }
  }

  /** Every key of the provenance is the pointer of a path of the effective tree. */
  lemma {:induction false} ProvenanceKeys(layers: seq<Fields>, names: seq<string>, key: string) returns (p: Path)
    requires |names| == |layers| && OverlayAll(layers).Some? && key in Provenance(layers, names)
    ensures p != [] && key == Pointer(p) && ShapeAt(OverlayAll(layers).value, p) != Absent
  {
    var last := |layers| - 1;
    var front := layers[..last];
    var t := OverlayAll(front).value;
    var claimed := Claimed(t, layers[last]);
    if key in Pointers("", claimed) {
      p :| p in claimed && key == "" + Pointer(p);
      ClaimedExact(t, layers[last], p);
    } else {
      p := ProvenanceKeys(front, names[..last], key);
    }
    MergedShape(t, layers[last], p);
  }
}

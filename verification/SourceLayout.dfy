/** White space, escapes and member order of a source never change what it decodes to, and so never
    change its canonical text. */
module SourceLayout {
  import opened JsonText
  import opened JsonRoundTrip
  import opened CanonicalJson
  import opened StrictJson

  /** Two lists of positions that undo each other. */
  predicate Inverse(p: seq<nat>, q: seq<nat>) {
    && |p| == |q|
    && (forall i :: 0 <= i < |p| ==> p[i] < |q| && q[p[i]] == i)
    && (forall i :: 0 <= i < |q| ==> q[i] < |p| && p[q[i]] == i)
  }

  /** The same document up to the order of members, at every level. */
  ghost predicate SameDocument(a: Raw, b: Raw)
    decreases a, 0
  {
    match (a, b)
    case (RList(xs), RList(ys)) => |xs| == |ys| && forall i :: 0 <= i < |xs| ==> SameDocument(xs[i], ys[i])
    case (RObject(ms), RObject(ns)) => exists p, q :: SameMembers(ms, ns, p, q)
    case _ => a == b
  }

  ghost predicate SameMembers(ms: seq<RawMember>, ns: seq<RawMember>, p: seq<nat>, q: seq<nat>)
    decreases ms, 2
  {
    && |p| == |ms| && |q| == |ns| && Inverse(p, q)
    && forall i :: 0 <= i < |ms| ==> SameMember(ms[i], ns[p[i]])
  }

  ghost predicate SameMember(m: RawMember, n: RawMember)
    decreases m, 1
  {
    m.key == n.key && SameDocument(m.value, n.value)
  }

  /** Same value, and repeated keys in both or in neither. */
  predicate Agrees(a: Raw, b: Raw) {
    && (NoDuplicates(a) <==> NoDuplicates(b))
    && (NoDuplicates(a) ==> LaxOf(a) == LaxOf(b))
  }

  lemma {:induction false} SameDocumentAgrees(a: Raw, b: Raw)
    requires SameDocument(a, b)
    ensures Agrees(a, b)
    decreases a, 0
  {
    if a.RList? {
      assert b.RList?;
      forall i | 0 <= i < |a.items|
        ensures Agrees(a.items[i], b.items[i])
      {
        SameDocumentAgrees(a.items[i], b.items[i]);
      }
      ListsAgree(a.items, b.items);
    } else if a.RObject? {
      assert b.RObject?;
      var p, q :| SameMembers(a.members, b.members, p, q);
      forall i | 0 <= i < |a.members|
        ensures a.members[i].key == b.members[p[i]].key && Agrees(a.members[i].value, b.members[p[i]].value)
      {
        assert SameMember(a.members[i], b.members[p[i]]);
        SameMemberAgrees(a.members[i], b.members[p[i]]);
      }
      ObjectsAgree(a.members, b.members, p, q);
    } else {
      assert a == b;
    }
  }

  lemma {:induction false} SameMemberAgrees(m: RawMember, n: RawMember)
    requires SameMember(m, n)
    ensures Agrees(m.value, n.value)
    decreases m, 1
  {
    SameDocumentAgrees(m.value, n.value);
  }

  lemma ListsAgree(xs: seq<Raw>, ys: seq<Raw>)
    requires |xs| == |ys| && forall i :: 0 <= i < |xs| ==> Agrees(xs[i], ys[i])
    ensures Agrees(RList(xs), RList(ys))
  {
    if NoDuplicates(RList(xs)) {
      forall i | 0 <= i < |ys|
        ensures NoDuplicates(ys[i]) && LaxOf(xs[i]) == LaxOf(ys[i])
      {
        assert Agrees(xs[i], ys[i]);
      }
      assert LaxOf(RList(xs)).items == LaxOf(RList(ys)).items;
    }
    if NoDuplicates(RList(ys)) {
      forall i | 0 <= i < |xs|
        ensures NoDuplicates(xs[i])
      {
        assert Agrees(xs[i], ys[i]);
      }
    }
  }

  predicate MembersAgree(ms: seq<RawMember>, ns: seq<RawMember>, p: seq<nat>, q: seq<nat>) {
    && |p| == |ms| && |q| == |ns| && Inverse(p, q)
    && forall i :: 0 <= i < |ms| ==> ms[i].key == ns[p[i]].key && Agrees(ms[i].value, ns[p[i]].value)
  }

  lemma Swapped(ms: seq<RawMember>, ns: seq<RawMember>, p: seq<nat>, q: seq<nat>)
    requires MembersAgree(ms, ns, p, q)
    ensures forall i :: 0 <= i < |ns| ==> ns[i].key == ms[q[i]].key && Agrees(ms[q[i]].value, ns[i].value)
  {
    forall i | 0 <= i < |ns|
      ensures ns[i].key == ms[q[i]].key && Agrees(ms[q[i]].value, ns[i].value)
    {
      assert p[q[i]] == i;
    }
  }

  lemma DistinctMoved(ms: seq<RawMember>, ns: seq<RawMember>, p: seq<nat>, q: seq<nat>)
    requires |p| == |ms| && |q| == |ns| && Inverse(p, q)
    requires forall i :: 0 <= i < |ns| ==> ns[i].key == ms[q[i]].key
    requires DistinctKeys(ms)
    ensures DistinctKeys(ns)
  {
    forall i, j | 0 <= i < j < |ns|
      ensures ns[i].key != ns[j].key
    {
      assert p[q[i]] == i && p[q[j]] == j;
      assert q[i] != q[j];
    }
  }

  lemma ObjectsAgree(ms: seq<RawMember>, ns: seq<RawMember>, p: seq<nat>, q: seq<nat>)
    requires MembersAgree(ms, ns, p, q)
    ensures Agrees(RObject(ms), RObject(ns))
  {
    Swapped(ms, ns, p, q);
    if NoDuplicates(RObject(ms)) {
      DistinctMoved(ms, ns, p, q);
      forall i | 0 <= i < |ns|
        ensures NoDuplicatesIn(ns[i])
      {
        assert NoDuplicatesIn(ms[q[i]]);
      }
      FieldsAgree(ms, ns, p, q);
    }
    if NoDuplicates(RObject(ns)) {
      DistinctMoved(ns, ms, q, p);
      forall i | 0 <= i < |ms|
        ensures NoDuplicatesIn(ms[i])
      {
        assert NoDuplicatesIn(ns[p[i]]);
      }
    }
  }

  lemma FieldsAgree(ms: seq<RawMember>, ns: seq<RawMember>, p: seq<nat>, q: seq<nat>)
    requires MembersAgree(ms, ns, p, q) && DistinctKeys(ms) && DistinctKeys(ns)
    requires forall i :: 0 <= i < |ms| ==> NoDuplicatesIn(ms[i])
    ensures LaxFields(ms) == LaxFields(ns)
  {
    Swapped(ms, ns, p, q);
    var a, b := LaxFields(ms), LaxFields(ns);
    forall k
      ensures k in a <==> k in b
      ensures k in a && k in b ==> a[k] == b[k]
    {
      LaxFieldsKeys(ms, k);
      LaxFieldsKeys(ns, k);
      if k in b {
        var i :| 0 <= i < |ns| && ns[i].key == k;
        assert ms[q[i]].key == k;
      }
      if k in a {
        var i :| 0 <= i < |ms| && ms[i].key == k;
        LaxFieldsLookup(ms, i);
        LaxFieldsLookup(ns, p[i]);
        assert NoDuplicatesIn(ms[i]) && Agrees(ms[i].value, ns[p[i]].value);
      }
    }
  }

  /** Two texts that read as the same document up to the order of members decode alike, and so have
      the same canonical text; what a text reads as does not depend on white space and escapes. */
  lemma LayoutIsIrrelevant(a: string, b: string)
    requires Parse(a).Some? && Parse(b).Some? && SameDocument(Parse(a).value, Parse(b).value)
    ensures StrictDecode(a) == StrictDecode(b)
    ensures StrictDecode(a).Some? ==> CanonicalText(StrictDecode(a).value) == CanonicalText(StrictDecode(b).value)
  {
    SameDocumentAgrees(Parse(a).value, Parse(b).value);
    StrictIsLaxWithoutDuplicates(Parse(a).value);
    StrictIsLaxWithoutDuplicates(Parse(b).value);
  }

  /** Two concrete documents with the same meaning up to the order of members have such texts. */
  lemma DocumentsDecodeAlike(a: Cell, b: Cell)
    requires ValidCell(a) && ValidCell(b) && SameDocument(CellMeaning(a), CellMeaning(b))
    ensures StrictDecode(PrintCell(a)) == StrictDecode(PrintCell(b))
  {
    DocumentRead(a);
    DocumentRead(b);
    LayoutIsIrrelevant(PrintCell(a), PrintCell(b));
  }
}

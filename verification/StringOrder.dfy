/** Strings in code point order, as sort.Strings orders valid UTF-8, and sorted lists of keys. */
module StringOrder {

  predicate Less(a: string, b: string) {
    if b == "" then false
    else if a == "" then true
    else if a[0] != b[0] then a[0] < b[0]
    else Less(a[1..], b[1..])
  }

  lemma {:induction false} Irreflexive(a: string)
    ensures !Less(a, a)
  {
    if a != "" {
      Irreflexive(a[1..]);
    }
  }

  lemma {:induction false} Transitive(a: string, b: string, c: string)
    requires Less(a, b) && Less(b, c)
    ensures Less(a, c)
  {
    if a != "" && a[0] == b[0] && b[0] == c[0] {
      Transitive(a[1..], b[1..], c[1..]);
    }
  }

  lemma {:induction false} Total(a: string, b: string)
    ensures Less(a, b) || a == b || Less(b, a)
  {
    if a != "" && b != "" && a[0] == b[0] {
      Total(a[1..], b[1..]);
      assert a == [a[0]] + a[1..] && b == [b[0]] + b[1..];
    }
  }

  /** At this position the strings first differ, and the first ends or has the smaller code point. */
  predicate SmallerAt(a: string, b: string, k: int) {
    0 <= k <= |a| && k < |b| && a[..k] == b[..k] && (k == |a| || a[k] as int < b[k] as int)
  }

  /** The order is that of the code points, position by position, with a prefix before the longer string. */
  lemma {:induction false} CodePointOrder(a: string, b: string)
    ensures Less(a, b) <==> exists k :: SmallerAt(a, b, k)
  {
    if a != "" && b != "" && a[0] == b[0] {
      CodePointOrder(a[1..], b[1..]);
      if Less(a, b) {
        var k :| SmallerAt(a[1..], b[1..], k);
        assert a[..k + 1] == [a[0]] + a[1..][..k] && b[..k + 1] == [b[0]] + b[1..][..k];
        assert SmallerAt(a, b, k + 1);
      }
      if k :| SmallerAt(a, b, k) {
        assert k > 0;
        assert a[1..][..k - 1] == a[..k][1..] && b[1..][..k - 1] == b[..k][1..];
        assert SmallerAt(a[1..], b[1..], k - 1);
      }
    } else {
      if Less(a, b) {
        assert SmallerAt(a, b, 0);
      }
      if k :| SmallerAt(a, b, k) {
        if k > 0 {
          SameFirst(a, b, k);
          assert false;
        }
      }
    }
  }

  lemma SameFirst(a: string, b: string, k: nat)
    requires 0 < k <= |a| && k <= |b| && a[..k] == b[..k]
    ensures a[0] == b[0]
  {
    assert a[0] == a[..k][0] && b[0] == b[..k][0];
  }

  predicate StrictlySorted(keys: seq<string>) {
    forall i, j :: 0 <= i < j < |keys| ==> Less(keys[i], keys[j])
  }

  lemma SortedDistinct(keys: seq<string>, i: nat, j: nat)
    requires StrictlySorted(keys) && i < |keys| && j < |keys| && keys[i] == keys[j]
    ensures i == j
  {
    Irreflexive(keys[i]);
  }

  lemma HeadListed(keys: seq<string>)
    requires keys != []
    ensures keys[0] in keys
  {
  }

  /** A set of keys has only one sorted list. */
  lemma {:induction false} SortedUnique(a: seq<string>, b: seq<string>)
    requires StrictlySorted(a) && StrictlySorted(b)
    requires forall k :: k in a <==> k in b
    ensures a == b
  {
    if a == [] {
      if b != [] {
        HeadListed(b);
      }
    } else {
      assert a[0] in a;
      SortedHead(a, b);
      SortedTail(a, b);
      SortedUnique(a[1..], b[1..]);
    }
  }

  lemma SortedHead(a: seq<string>, b: seq<string>)
    requires StrictlySorted(a) && StrictlySorted(b) && a != [] && a[0] in b && (forall k :: k in b ==> k in a)
    ensures b != [] && a[0] == b[0]
  {
    var j :| 0 <= j < |b| && b[j] == a[0];
    assert b[0] in a;
    var i :| 0 <= i < |a| && a[i] == b[0];
    if i > 0 && j > 0 {
      Transitive(a[0], a[i], b[j]);
      Irreflexive(a[0]);
    }
  }

  lemma SortedTail(a: seq<string>, b: seq<string>)
    requires StrictlySorted(a) && StrictlySorted(b) && a != [] && b != [] && a[0] == b[0]
    requires forall k :: k in a <==> k in b
    ensures forall k :: k in a[1..] <==> k in b[1..]
  {
    forall k
      ensures k in a[1..] <==> k in b[1..]
    {
      TailWithout(a, k);
      TailWithout(b, k);
    }
  }

  lemma TailWithout(a: seq<string>, k: string)
    requires StrictlySorted(a) && a != []
    ensures k in a[1..] <==> k in a && k != a[0]
  {
    if k in a[1..] {
      var i :| 0 <= i < |a[1..]| && a[1..][i] == k;
      assert a[i + 1] == k && Less(a[0], a[i + 1]);
      Irreflexive(k);
    }
    if k in a && k != a[0] {
      var i :| 0 <= i < |a| && a[i] == k;
      assert a[1..][i - 1] == k;
    }
  }

  function Insert(keys: seq<string>, k: string): seq<string> {
    if keys == [] then [k]
    else if Less(keys[0], k) then [keys[0]] + Insert(keys[1..], k)
    else [k] + keys
  }

  lemma {:induction false} InsertMembers(keys: seq<string>, k: string, x: string)
    ensures x in Insert(keys, k) <==> x in keys || x == k
  {
    if keys != [] {
      assert x in keys <==> x == keys[0] || x in keys[1..];
      if Less(keys[0], k) {
        InsertMembers(keys[1..], k, x);
      }
    }
  }

  lemma {:induction false} InsertSorted(keys: seq<string>, k: string)
    requires StrictlySorted(keys) && k !in keys
    ensures StrictlySorted(Insert(keys, k))
  {
    if keys != [] {
      var rest := Insert(keys[1..], k);
      if Less(keys[0], k) {
        InsertSorted(keys[1..], k);
        forall j | 0 <= j < |rest|
          ensures Less(keys[0], rest[j])
        {
          InsertMembers(keys[1..], k, rest[j]);
        }
      } else {
        Total(keys[0], k);
        forall j | 0 <= j < |keys|
          ensures Less(k, keys[j])
        {
          if j > 0 {
            Transitive(k, keys[0], keys[j]);
          }
        }
      }
    }
  }

  ghost predicate Lists(r: seq<string>, keys: set<string>) {
    StrictlySorted(r) && forall k :: k in r <==> k in keys
  }

  lemma {:induction false} SortedListExists(keys: set<string>)
    ensures exists r :: Lists(r, keys)
    decreases |keys|
  {
    if |keys| == 0 {
      assert Lists([], keys);
    } else {
      var k :| k in keys;
      SortedListExists(keys - {k});
      var rest :| Lists(rest, keys - {k});
      var r := Insert(rest, k);
      InsertSorted(rest, k);
      forall x
        ensures x in r <==> x in keys
      {
        InsertMembers(rest, k, x);
      }
      assert Lists(r, keys);
    }
  }

  /** The keys of a set in order. */
  ghost function SortedKeys(keys: set<string>): (r: seq<string>)
    ensures StrictlySorted(r) && forall k :: k in r <==> k in keys
  {
    SortedListExists(keys);
    var r :| Lists(r, keys);
    r
  }

  /** Collecting keys and sorting them. */
  method SortKeys(keys: set<string>) returns (r: seq<string>)
    ensures r == SortedKeys(keys)
  {
    r := [];
    var todo := keys;
    while todo != {}
      invariant todo <= keys && StrictlySorted(r)
      invariant forall k :: k in r <==> k in keys && k !in todo
    {
      var key :| key in todo;
      InsertSorted(r, key);
      forall x
        ensures x in Insert(r, key) <==> x in r || x == key
      {
        InsertMembers(r, key, x);
      }
      r, todo := Insert(r, key), todo - {key};
    }
    SortedUnique(r, SortedKeys(keys));
  }
}

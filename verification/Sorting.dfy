/** Sorting work items by index and then by id. */
module Sorting {
  import opened StringOrder

  datatype Key = Key(index: int, id: string)

  predicate Before(a: Key, b: Key) {
    a.index < b.index || (a.index == b.index && Less(a.id, b.id))
  }

  lemma BeforeIrreflexive(a: Key)
    ensures !Before(a, a)
  {
    Irreflexive(a.id);
  }

  lemma BeforeTransitive(a: Key, b: Key, c: Key)
    requires Before(a, b) && Before(b, c)
    ensures Before(a, c)
  {
    if a.index == b.index && b.index == c.index {
      Transitive(a.id, b.id, c.id);
    }
  }

  lemma BeforeTotal(a: Key, b: Key)
    ensures Before(a, b) || a == b || Before(b, a)
  {
    Total(a.id, b.id);
  }

  predicate InOrder<T>(xs: seq<T>, key: T -> Key) {
    forall i, j :: 0 <= i < j < |xs| ==> !Before(key(xs[j]), key(xs[i]))
  }

  predicate DistinctKeys<T>(xs: seq<T>, key: T -> Key) {
    forall i, j :: 0 <= i < j < |xs| ==> key(xs[i]) != key(xs[j])
  }

  function InsertBy<T>(xs: seq<T>, x: T, key: T -> Key): (r: seq<T>)
    ensures |r| == |xs| + 1
    ensures multiset(r) == multiset(xs) + multiset{x}
  {
    if xs == [] then [x]
    else if Before(key(x), key(xs[0])) then [x] + xs
    else
      assert xs == [xs[0]] + xs[1..];
      [xs[0]] + InsertBy(xs[1..], x, key)
  }

  function SortBy<T>(xs: seq<T>, key: T -> Key): (r: seq<T>)
    ensures |r| == |xs|
    ensures multiset(r) == multiset(xs)
  {
    if xs == [] then []
    else
      assert xs == xs[..|xs| - 1] + [xs[|xs| - 1]];
      InsertBy(SortBy(xs[..|xs| - 1], key), xs[|xs| - 1], key)
  }

  lemma {:induction false} InsertInOrder<T>(xs: seq<T>, x: T, key: T -> Key)
    requires InOrder(xs, key)
    ensures InOrder(InsertBy(xs, x, key), key)
  {
    if xs != [] {
      if Before(key(x), key(xs[0])) {
        forall j | 0 <= j < |xs|
          ensures !Before(key(xs[j]), key(x))
        {
          NotBeforeHead(xs, x, key, j);
        }
      } else {
        InsertInOrder(xs[1..], x, key);
        var rest := InsertBy(xs[1..], x, key);
        forall j | 0 <= j < |rest|
          ensures !Before(key(rest[j]), key(xs[0]))
        {
          assert rest[j] in multiset(rest);
          assert rest[j] in multiset(xs[1..]) || rest[j] == x;
        }
      }
    }
  }

  lemma NotBeforeHead<T>(xs: seq<T>, x: T, key: T -> Key, j: nat)
    requires InOrder(xs, key) && j < |xs| && Before(key(x), key(xs[0]))
    ensures !Before(key(xs[j]), key(x))
  {
    if Before(key(xs[j]), key(x)) {
      BeforeTransitive(key(xs[j]), key(x), key(xs[0]));
      BeforeIrreflexive(key(xs[0]));
    }
  }

  lemma {:induction false} SortInOrder<T>(xs: seq<T>, key: T -> Key)
    ensures InOrder(SortBy(xs, key), key)
  {
    if xs != [] {
      SortInOrder(xs[..|xs| - 1], key);
      InsertInOrder(SortBy(xs[..|xs| - 1], key), xs[|xs| - 1], key);
    }
  }

  lemma SameHead<T>(a: seq<T>, b: seq<T>, key: T -> Key)
    requires multiset(a) == multiset(b) && a != [] && InOrder(a, key) && DistinctKeys(a, key) && InOrder(b, key)
    ensures b != [] && a[0] == b[0]
  {
    assert a[0] in multiset(a);
    assert a[0] in b;
    var j :| 0 <= j < |b| && b[j] == a[0];
    assert b[0] in multiset(b);
    assert b[0] in a;
    var k :| 0 <= k < |a| && a[k] == b[0];
    if k > 0 && j > 0 {
      BeforeTotal(key(a[0]), key(a[k]));
    }
  }

  lemma TailItems<T>(a: seq<T>)
    requires a != []
    ensures multiset(a[1..]) == multiset(a) - multiset{a[0]}
  {
    assert a == [a[0]] + a[1..];
  }

  /** Two sorted arrangements of the same items are equal when no two items have the same key. */
  lemma {:induction false} SortedUnique<T>(a: seq<T>, b: seq<T>, key: T -> Key)
    requires multiset(a) == multiset(b) && InOrder(a, key) && DistinctKeys(a, key) && InOrder(b, key)
    ensures a == b
  {
    if a == [] {
      assert |multiset(b)| == 0;
    } else {
      SameHead(a, b, key);
      TailItems(a);
      TailItems(b);
      SortedUnique(a[1..], b[1..], key);
      assert a == [a[0]] + a[1..] && b == [b[0]] + b[1..];
    }
  }

  /** Sorting a permutation gives the same list, unless keys repeat on both sides. */
  lemma SortOfPermutation<T>(xs: seq<T>, ys: seq<T>, key: T -> Key)
    requires multiset(xs) == multiset(ys)
    ensures SortBy(xs, key) == SortBy(ys, key) || (!DistinctKeys(SortBy(xs, key), key) && !DistinctKeys(SortBy(ys, key), key))
  {
    var a, b := SortBy(xs, key), SortBy(ys, key);
    SortInOrder(xs, key);
    SortInOrder(ys, key);
    if DistinctKeys(a, key) {
      SortedUnique(a, b, key);
    } else if DistinctKeys(b, key) {
      SortedUnique(b, a, key);
    }
  }

  // ---------------------------------------------------------------------------------------
  // Permutations

  ghost predicate NoRepeats<T>(xs: seq<T>) {
    forall i, j :: 0 <= i < j < |xs| ==> xs[i] != xs[j]
  }

  lemma CountedTwice<T>(xs: seq<T>, i: nat, j: nat)
    requires i < j < |xs| && xs[i] == xs[j]
    ensures multiset(xs)[xs[i]] >= 2
  {
    var a, b := xs[..j], xs[j..];
    assert xs == a + b && a[i] in multiset(a) && b[0] in multiset(b);
    assert multiset(xs) == multiset(a) + multiset(b);
  }

  lemma CountedOnce<T>(xs: seq<T>, i: nat)
    requires i < |xs| && NoRepeats(xs)
    ensures multiset(xs)[xs[i]] == 1
  {
    var before, after := xs[..i], xs[i + 1..];
    assert xs == before + [xs[i]] + after;
    assert xs[i] !in before && xs[i] !in after;
    assert multiset(xs) == multiset(before) + multiset{xs[i]} + multiset(after);
  }

  lemma NoRepeatsPermuted<T>(xs: seq<T>, ys: seq<T>)
    requires multiset(xs) == multiset(ys) && NoRepeats(xs)
    ensures NoRepeats(ys) && |xs| == |ys| && forall x :: x in xs <==> x in ys
  {
    assert |multiset(xs)| == |xs| && |multiset(ys)| == |ys|;
    forall x
      ensures x in xs <==> x in ys
    {
      assert x in multiset(xs) <==> x in multiset(ys);
    }
    if i, j :| 0 <= i < j < |ys| && ys[i] == ys[j] {
      CountedTwice(ys, i, j);
      var k :| 0 <= k < |xs| && xs[k] == ys[i];
      CountedOnce(xs, k);
      assert false;
    }
  }

  /** Positions in the one list of two different positions in the other. */
  lemma Positions<T>(xs: seq<T>, ys: seq<T>, i: nat, j: nat) returns (a: nat, b: nat)
    requires multiset(xs) == multiset(ys) && NoRepeats(xs) && i < j < |ys|
    ensures a < |xs| && b < |xs| && a != b && xs[a] == ys[i] && xs[b] == ys[j]
  {
    NoRepeatsPermuted(xs, ys);
    assert ys[i] in ys && ys[j] in ys;
    a :| 0 <= a < |xs| && xs[a] == ys[i];
    b :| 0 <= b < |xs| && xs[b] == ys[j];
  }
}

/**
 The stable `sort` of the host language, restricted to comparisons of an integer key
 (every sort in the modelled code compares timestamps).
 */
module StableSort {

  ghost predicate SortedBy<T>(xs: seq<T>, key: T -> int) {
    forall i, j :: 0 <= i < j < |xs| ==> key(xs[i]) <= key(xs[j])
  }

  ghost predicate StrictlySortedBy<T>(xs: seq<T>, key: T -> int) {
    forall i, j :: 0 <= i < j < |xs| ==> key(xs[i]) < key(xs[j])
  }

  // Places x after every element whose key is not greater: equal keys keep their order.
  function Insert<T>(xs: seq<T>, x: T, key: T -> int): seq<T> {
    if |xs| == 0 || key(xs[|xs| - 1]) <= key(x) then xs + [x]
    else Insert(xs[..|xs| - 1], x, key) + [xs[|xs| - 1]]
  }

  function Sort<T>(xs: seq<T>, key: T -> int): seq<T> {
    if |xs| == 0 then [] else Insert(Sort(xs[..|xs| - 1], key), xs[|xs| - 1], key)
  }

  lemma {:induction false} InsertElements<T>(xs: seq<T>, x: T, key: T -> int)
    ensures multiset(Insert(xs, x, key)) == multiset(xs) + multiset{x}
  {
    if |xs| == 0 || key(xs[|xs| - 1]) <= key(x) {
    } else {
      var front, last := xs[..|xs| - 1], xs[|xs| - 1];
      assert xs == front + [last];
      InsertElements(front, x, key);
    }
  }

  lemma {:induction false} InsertKeepsOrder<T>(xs: seq<T>, x: T, key: T -> int)
    requires SortedBy(xs, key)
    ensures SortedBy(Insert(xs, x, key), key)
  {
    if |xs| == 0 || key(xs[|xs| - 1]) <= key(x) {
    } else {
      var front, last := xs[..|xs| - 1], xs[|xs| - 1];
      InsertKeepsOrder(front, x, key);
      var r := Insert(front, x, key);
      forall i | 0 <= i < |r|
        ensures key(r[i]) <= key(last)
      {
        InsertElements(front, x, key);
        assert r[i] in multiset(r);
        assert r[i] in front || r[i] == x;
      }
    }
  }

  // The result is the sorted rearrangement of the input.
  lemma {:induction false} SortIsSorted<T>(xs: seq<T>, key: T -> int)
    ensures SortedBy(Sort(xs, key), key)
    ensures multiset(Sort(xs, key)) == multiset(xs)
    ensures |Sort(xs, key)| == |xs|
  {
    if |xs| == 0 {
    } else {
      var front, last := xs[..|xs| - 1], xs[|xs| - 1];
      assert xs == front + [last];
      SortIsSorted(front, key);
      InsertElements(Sort(front, key), last, key);
      InsertKeepsOrder(Sort(front, key), last, key);
      assert |multiset(Sort(xs, key))| == |multiset(xs)|;
    }
  }

  // Membership form of SortIsSorted.
  lemma {:induction false} SortMembers<T>(xs: seq<T>, key: T -> int, y: T)
    ensures y in Sort(xs, key) <==> y in xs
  {
    SortIsSorted(xs, key);
    assert y in Sort(xs, key) <==> y in multiset(Sort(xs, key));
    assert y in xs <==> y in multiset(xs);
  }

  ghost predicate DistinctKeys<T>(xs: seq<T>, key: T -> int) {
    forall i, j :: 0 <= i < j < |xs| ==> key(xs[i]) != key(xs[j])
  }

  lemma {:induction false} InsertKeepsStrictOrder<T>(xs: seq<T>, x: T, key: T -> int)
    requires StrictlySortedBy(xs, key)
    requires forall y :: y in xs ==> key(y) != key(x)
    ensures StrictlySortedBy(Insert(xs, x, key), key)
  {
    if |xs| == 0 {
    } else if key(xs[|xs| - 1]) <= key(x) {
      assert xs[|xs| - 1] in xs;
    } else {
      var front, last := xs[..|xs| - 1], xs[|xs| - 1];
      InsertKeepsStrictOrder(front, x, key);
      var r := Insert(front, x, key);
      forall i | 0 <= i < |r|
        ensures key(r[i]) < key(last)
      {
        InsertElements(front, x, key);
        assert r[i] in multiset(r);
        assert r[i] in front || r[i] == x;
      }
    }
  }

  lemma {:induction false} SortIsStrict<T>(xs: seq<T>, key: T -> int)
    requires DistinctKeys(xs, key)
    ensures StrictlySortedBy(Sort(xs, key), key)
  {
    if |xs| > 0 {
      var front, last := xs[..|xs| - 1], xs[|xs| - 1];
      SortIsStrict(front, key);
      forall y | y in Sort(front, key)
        ensures key(y) != key(last)
      {
        SortMembers(front, key, y);
      }
      InsertKeepsStrictOrder(Sort(front, key), last, key);
    }
  }

  // Sorting a sorted sequence changes nothing.
  lemma {:induction false} SortOfSorted<T>(xs: seq<T>, key: T -> int)
    requires SortedBy(xs, key)
    ensures Sort(xs, key) == xs
  {
    if |xs| > 0 {
      SortOfSorted(xs[..|xs| - 1], key);
    }
  }

  // A strictly sorted sequence is determined by its elements.
  lemma {:induction false} StrictlySortedUnique<T>(xs: seq<T>, ys: seq<T>, key: T -> int)
    requires StrictlySortedBy(xs, key) && StrictlySortedBy(ys, key)
    requires forall x :: x in xs <==> x in ys
    ensures xs == ys
  {
    if |xs| > 0 {
      assert xs[0] in ys;
    }
    if |ys| > 0 {
      assert ys[0] in xs;
      var x, y := xs[|xs| - 1], ys[|ys| - 1];
      assert x in ys && y in xs;
      var i :| 0 <= i < |ys| && ys[i] == x;
      var j :| 0 <= j < |xs| && xs[j] == y;
      assert x == y;
      var xs', ys' := xs[..|xs| - 1], ys[..|ys| - 1];
      forall z
        ensures z in xs' <==> z in ys'
      {
        if z in xs' {
          assert z in ys;
          var k :| 0 <= k < |xs'| && xs'[k] == z;
        }
        if z in ys' {
          assert z in xs;
          var k :| 0 <= k < |ys'| && ys'[k] == z;
        }
      }
      StrictlySortedUnique(xs', ys', key);
    }
  }

  // The elements of one key, in their order.
  function WithKey<T>(xs: seq<T>, key: T -> int, k: int): seq<T> {
    if |xs| == 0 then []
    else WithKey(xs[..|xs| - 1], key, k) + if key(xs[|xs| - 1]) == k then [xs[|xs| - 1]] else []
  }

  lemma {:induction false} WithKeyAppend<T>(xs: seq<T>, x: T, key: T -> int, k: int)
    ensures WithKey(xs + [x], key, k) == WithKey(xs, key, k) + if key(x) == k then [x] else []
  {
    assert (xs + [x])[..|xs|] == xs;
  }

  lemma {:induction false} InsertIsStable<T>(xs: seq<T>, x: T, key: T -> int, k: int)
    requires SortedBy(xs, key)
    ensures WithKey(Insert(xs, x, key), key, k) == WithKey(xs, key, k) + if key(x) == k then [x] else []
  {
    hide WithKey;
    if |xs| == 0 || key(xs[|xs| - 1]) <= key(x) {
      WithKeyAppend(xs, x, key, k);
    } else {
      var front, last := xs[..|xs| - 1], xs[|xs| - 1];
      assert xs == front + [last];
      InsertIsStable(front, x, key, k);
      WithKeyAppend(front, last, key, k);
      WithKeyAppend(Insert(front, x, key), last, key, k);
      if key(x) == k {
        assert WithKey(front, key, k) + [] == WithKey(front, key, k);
        assert WithKey(front, key, k) + [x] + [] == WithKey(front, key, k) + [x];
      }
    }
  }

  // Equal keys keep their order.
  lemma {:induction false} SortIsStable<T>(xs: seq<T>, key: T -> int, k: int)
    ensures WithKey(Sort(xs, key), key, k) == WithKey(xs, key, k)
  {
    if |xs| > 0 {
      var front, last := xs[..|xs| - 1], xs[|xs| - 1];
      SortIsStable(front, key, k);
      SortIsSorted(front, key);
      InsertIsStable(Sort(front, key), last, key, k);
    }
  }
}

/**
 * Python's `sorted(xs, key=key, reverse=True)`: a stable sort into
 * non-increasing key order, in which elements with equal keys keep their
 * input order.
 */
module StableSort {

  /** `x` placed before the first element whose key does not exceed its own. */
  function InsertDesc<T>(x: T, xs: seq<T>, key: T -> int): (r: seq<T>)
    ensures multiset(r) == multiset(xs) + multiset{x}
    ensures |r| == |xs| + 1
    decreases |xs|
  {
    if xs == [] then [x]
    else if key(xs[0]) <= key(x) then [x] + xs
    else
      assert xs == [xs[0]] + xs[1..];
      [xs[0]] + InsertDesc(x, xs[1..], key)
  }

  function SortDesc<T>(xs: seq<T>, key: T -> int): (r: seq<T>)
    ensures multiset(r) == multiset(xs)
    ensures |r| == |xs|
    decreases |xs|
  {
    if xs == [] then []
    else
      assert xs == [xs[0]] + xs[1..];
      InsertDesc(xs[0], SortDesc(xs[1..], key), key)
  }

  predicate SortedDesc<T>(xs: seq<T>, key: T -> int)
  {
    forall i, j :: 0 <= i < j < |xs| ==> key(xs[i]) >= key(xs[j])
  }

  /** The elements of `xs` whose key is `k`, in order. */
  function WithKey<T>(xs: seq<T>, key: T -> int, k: int): (r: seq<T>)
    decreases |xs|
  {
    if xs == [] then []
    else (if key(xs[0]) == k then [xs[0]] else []) + WithKey(xs[1..], key, k)
  }

  /** An element of `InsertDesc(x, xs)` is `x` or an element of `xs`. */
  lemma InsertDescMember<T>(x: T, xs: seq<T>, key: T -> int, y: T)
    requires y in InsertDesc(x, xs, key)
    ensures y == x || y in xs
  {
    assert y in multiset(InsertDesc(x, xs, key));
  }

  lemma {:induction false} InsertDescSorted<T>(x: T, xs: seq<T>, key: T -> int)
    requires SortedDesc(xs, key)
    ensures SortedDesc(InsertDesc(x, xs, key), key)
    decreases |xs|
  {
    if xs != [] && key(xs[0]) > key(x) {
      InsertDescSorted(x, xs[1..], key);
      var t := InsertDesc(x, xs[1..], key);
      forall j | 0 <= j < |t| ensures key(xs[0]) >= key(t[j]) {
        InsertDescMember(x, xs[1..], key, t[j]);
      }
    }
  }

  /** The result is in non-increasing key order. */
  lemma {:induction false} SortDescSorted<T>(xs: seq<T>, key: T -> int)
    ensures SortedDesc(SortDesc(xs, key), key)
    decreases |xs|
  {
    if xs != [] {
      SortDescSorted(xs[1..], key);
      InsertDescSorted(xs[0], SortDesc(xs[1..], key), key);
    }
  }

  lemma {:induction false} InsertDescWithKey<T>(x: T, xs: seq<T>, key: T -> int, k: int)
    ensures WithKey(InsertDesc(x, xs, key), key, k) == (if key(x) == k then [x] else []) + WithKey(xs, key, k)
    decreases |xs|
  {
    if xs == [] {
      assert [x][1..] == [];
    } else if key(xs[0]) <= key(x) {
      assert ([x] + xs)[1..] == xs;
    } else {
      var t := InsertDesc(x, xs[1..], key);
      var head := if key(xs[0]) == k then [xs[0]] else [];
      assert ([xs[0]] + t)[1..] == t;
      assert WithKey([xs[0]] + t, key, k) == head + WithKey(t, key, k);
      InsertDescWithKey(x, xs[1..], key, k);
      if key(x) == k {
        assert head == [];
      } else {
        assert WithKey(t, key, k) == WithKey(xs[1..], key, k);
      }
    }
  }

  /** Stability: for every key, the elements with that key appear in the
      output in the same order as in the input. */
  lemma {:induction false} SortDescStable<T>(xs: seq<T>, key: T -> int, k: int)
    ensures WithKey(SortDesc(xs, key), key, k) == WithKey(xs, key, k)
    decreases |xs|
  {
    if xs != [] {
      SortDescStable(xs[1..], key, k);
      InsertDescWithKey(xs[0], SortDesc(xs[1..], key), key, k);
    }
  }

  /** Every two elements at different positions are related by `rel`. */
  predicate Pairwise<T>(xs: seq<T>, rel: (T, T) -> bool)
  {
    forall i, j :: 0 <= i < |xs| && 0 <= j < |xs| && i != j ==> rel(xs[i], xs[j])
  }

  lemma ConsPairwise<T>(x: T, xs: seq<T>, rel: (T, T) -> bool)
    requires Pairwise(xs, rel)
    requires forall y :: y in xs ==> rel(x, y) && rel(y, x)
    ensures Pairwise([x] + xs, rel)
  {
    var r := [x] + xs;
    forall i, j | 0 <= i < |r| && 0 <= j < |r| && i != j ensures rel(r[i], r[j]) {
      if i == 0 {
        assert r[j] == xs[j - 1];
      } else if j == 0 {
        assert r[i] == xs[i - 1];
      } else {
        assert r[i] == xs[i - 1] && r[j] == xs[j - 1];
      }
    }
  }

  lemma TailPairwise<T>(xs: seq<T>, rel: (T, T) -> bool)
    requires xs != [] && Pairwise(xs, rel)
    ensures Pairwise(xs[1..], rel)
  {
    var rest := xs[1..];
    forall i, j | 0 <= i < |rest| && 0 <= j < |rest| && i != j ensures rel(rest[i], rest[j]) {
      assert rest[i] == xs[i + 1] && rest[j] == xs[j + 1];
    }
  }

  /** The head of a pairwise-related sequence is related to every later element. */
  lemma HeadRelated<T>(xs: seq<T>, rel: (T, T) -> bool, y: T)
    requires xs != [] && Pairwise(xs, rel) && y in xs[1..]
    ensures rel(xs[0], y) && rel(y, xs[0])
  {
    var m :| 0 <= m < |xs| - 1 && xs[1..][m] == y;
    assert xs[m + 1] == y;
  }

  lemma {:induction false} InsertDescPairwise<T>(x: T, xs: seq<T>, key: T -> int, rel: (T, T) -> bool)
    requires Pairwise(xs, rel)
    requires forall y :: y in xs ==> rel(x, y) && rel(y, x)
    ensures Pairwise(InsertDesc(x, xs, key), rel)
    decreases |xs|
  {
    if xs == [] || key(xs[0]) <= key(x) {
      ConsPairwise(x, xs, rel);
    } else {
      var t := InsertDesc(x, xs[1..], key);
      TailPairwise(xs, rel);
      InsertDescPairwise(x, xs[1..], key, rel);
      forall y | y in t ensures rel(xs[0], y) && rel(y, xs[0]) {
        InsertDescMember(x, xs[1..], key, y);
        if y != x {
          HeadRelated(xs, rel, y);
        }
      }
      ConsPairwise(xs[0], t, rel);
    }
  }

  /** A relation that holds between every two elements still does after sorting. */
  lemma {:induction false} SortDescPairwise<T>(xs: seq<T>, key: T -> int, rel: (T, T) -> bool)
    requires Pairwise(xs, rel)
    ensures Pairwise(SortDesc(xs, key), rel)
    decreases |xs|
  {
    if xs != [] {
      TailPairwise(xs, rel);
      SortDescPairwise(xs[1..], key, rel);
      var sr := SortDesc(xs[1..], key);
      forall y | y in sr ensures rel(xs[0], y) && rel(y, xs[0]) {
        assert y in multiset(sr);
        HeadRelated(xs, rel, y);
      }
      InsertDescPairwise(xs[0], sr, key, rel);
    }
  }

  /** An element of the sorted sequence is an element of the input. */
  lemma SortDescMember<T>(xs: seq<T>, key: T -> int, y: T)
    requires y in SortDesc(xs, key)
    ensures y in xs
  {
    assert y in multiset(SortDesc(xs, key));
  }
}

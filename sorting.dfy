/** Newest-first ordering by a millisecond timestamp, shared by the list
    queries (`order(..., { ascending: false })`) and the public job board
    (`sort((a, b) => time(b) - time(a))`). */
module Sorting {

  /** Newest first: a later position never has a larger key. */
  ghost predicate SortedDesc<T>(xs: seq<T>, key: T -> int) {
    forall i, j :: 0 <= i < j < |xs| ==> key(xs[i]) >= key(xs[j])
  }

  /** `x` placed before the first element whose key is not above its own. */
  function Insert<T>(x: T, ys: seq<T>, key: T -> int): (r: seq<T>)
    ensures |r| == |ys| + 1
  {
    if ys == [] || key(ys[0]) <= key(x) then [x] + ys
    else [ys[0]] + Insert(x, ys[1..], key)
  }

  lemma {:induction false} InsertPermutes<T>(x: T, ys: seq<T>, key: T -> int)
    ensures multiset(Insert(x, ys, key)) == multiset(ys) + multiset{x}
  {
    if ys != [] && key(ys[0]) > key(x) {
      InsertPermutes(x, ys[1..], key);
      assert ys == [ys[0]] + ys[1..];
    }
  }

  /** No key in `xs` is above `b`. */
  ghost predicate AllAtMost<T>(xs: seq<T>, b: int, key: T -> int) {
    forall i :: 0 <= i < |xs| ==> key(xs[i]) <= b
  }

  lemma {:induction false} InsertAtMost<T>(x: T, ys: seq<T>, key: T -> int, b: int)
    requires AllAtMost(ys, b, key) && key(x) <= b
    ensures AllAtMost(Insert(x, ys, key), b, key)
  {
    if ys != [] && key(ys[0]) > key(x) {
      var tail := ys[1..];
      assert AllAtMost(tail, b, key) by {
        forall i | 0 <= i < |tail| ensures key(tail[i]) <= b {
          assert tail[i] == ys[i + 1];
        }
      }
      InsertAtMost(x, tail, key, b);
      var rest := Insert(x, tail, key);
      var r := [ys[0]] + rest;
      assert Insert(x, ys, key) == r;
      forall i | 0 <= i < |r| ensures key(r[i]) <= b {
        if i > 0 {
          assert r[i] == rest[i - 1];
        }
      }
    } else {
      var r := [x] + ys;
      forall i | 0 <= i < |r| ensures key(r[i]) <= b {
        if i > 0 {
          assert r[i] == ys[i - 1];
        }
      }
    }
  }

  lemma {:induction false} InsertSorted<T>(x: T, ys: seq<T>, key: T -> int)
    requires SortedDesc(ys, key)
    ensures SortedDesc(Insert(x, ys, key), key)
  {
    if ys != [] && key(ys[0]) > key(x) {
      var tail := ys[1..];
      assert SortedDesc(tail, key) && AllAtMost(tail, key(ys[0]), key) by {
        forall i, j | 0 <= i < j < |tail| ensures key(tail[i]) >= key(tail[j]) {
          assert tail[i] == ys[i + 1] && tail[j] == ys[j + 1];
        }
        forall i | 0 <= i < |tail| ensures key(tail[i]) <= key(ys[0]) {
          assert tail[i] == ys[i + 1];
        }
      }
      InsertSorted(x, tail, key);
      InsertAtMost(x, tail, key, key(ys[0]));
      var rest := Insert(x, tail, key);
      var r := [ys[0]] + rest;
      assert Insert(x, ys, key) == r;
      forall i, j | 0 <= i < j < |r| ensures key(r[i]) >= key(r[j]) {
        assert r[j] == rest[j - 1];
        if i > 0 {
          assert r[i] == rest[i - 1];
        }
      }
    } else {
      var r := [x] + ys;
      forall i, j | 0 <= i < j < |r| ensures key(r[i]) >= key(r[j]) {
        assert r[j] == ys[j - 1];
        if i > 0 {
          assert r[i] == ys[i - 1];
        } else if j > 1 {
          assert key(ys[0]) >= key(ys[j - 1]);
        }
      }
    }
  }

  /** Insertion sort, newest first. */
  function SortDesc<T>(xs: seq<T>, key: T -> int): (r: seq<T>)
    ensures |r| == |xs|
  {
    if xs == [] then [] else Insert(xs[0], SortDesc(xs[1..], key), key)
  }

  /** The sort returns a permutation of its input, ordered by decreasing key. */
  lemma {:induction false} SortDescSorts<T>(xs: seq<T>, key: T -> int)
    ensures multiset(SortDesc(xs, key)) == multiset(xs)
    ensures SortedDesc(SortDesc(xs, key), key)
  {
    if xs != [] {
      var sorted := SortDesc(xs[1..], key);
      SortDescSorts(xs[1..], key);
      InsertPermutes(xs[0], sorted, key);
      InsertSorted(xs[0], sorted, key);
      assert xs == [xs[0]] + xs[1..];
    }
  }
}

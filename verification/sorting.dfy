/** Ordering by a key, most recent (largest key) first, as `orderBy: ... 'desc'` and `sort((a, b) => b - a)` do. */
module Sorting {

  /** Keys never increase from left to right. */
  predicate SortedDesc<T>(s: seq<T>, key: T -> int) {
    forall i, j :: 0 <= i < j < |s| ==> key(s[i]) >= key(s[j])
  }

  /** No key of `s` exceeds `bound`. */
  predicate AllAtMost<T>(s: seq<T>, key: T -> int, bound: int) {
    forall k :: 0 <= k < |s| ==> key(s[k]) <= bound
  }

  /** Dropping the first element keeps the order. */
  lemma {:induction false} SortedTail<T>(s: seq<T>, key: T -> int)
    requires |s| > 0 && SortedDesc(s, key)
    ensures SortedDesc(s[1..], key)
  {
    forall i, j | 0 <= i < j < |s| - 1 ensures key(s[1..][i]) >= key(s[1..][j]) {
      assert s[1..][i] == s[i + 1] && s[1..][j] == s[j + 1];
    }
  }

  /** The first key of a sorted sequence bounds all of them. */
  lemma {:induction false} HeadBounds<T>(s: seq<T>, key: T -> int)
    requires |s| > 0 && SortedDesc(s, key)
    ensures AllAtMost(s, key, key(s[0]))
  {
    forall k | 0 < k < |s| ensures key(s[k]) <= key(s[0]) {
      assert key(s[0]) >= key(s[k]);
    }
  }

  /** An element with a key at least every key of a sorted sequence can go in front of it. */
  lemma {:induction false} SortedCons<T>(y: T, s: seq<T>, key: T -> int)
    requires SortedDesc(s, key) && AllAtMost(s, key, key(y))
    ensures SortedDesc([y] + s, key)
  {
    var r := [y] + s;
    forall i, j | 0 <= i < j < |r| ensures key(r[i]) >= key(r[j]) {
      assert r[j] == s[j - 1];
      if i > 0 {
        assert r[i] == s[i - 1];
      }
    }
  }

  /** Inserts `x` into a sequence sorted by decreasing key, before the first element with a smaller key. */
  function Insert<T>(x: T, s: seq<T>, key: T -> int): (r: seq<T>)
    requires SortedDesc(s, key)
    ensures |r| == |s| + 1
    ensures SortedDesc(r, key)
    ensures multiset(r) == multiset(s) + multiset{x}
    ensures forall b :: AllAtMost(s, key, b) && key(x) <= b ==> AllAtMost(r, key, b)
    decreases |s|
  {
    if |s| == 0 || key(x) >= key(s[0]) then
      InsertFront(x, s, key);
      [x] + s
    else
      SortedTail(s, key);
      HeadBounds(s, key);
      var rest := Insert(x, s[1..], key);
      TailBounded(s, key);
      SortedCons(s[0], rest, key);
      assert s == [s[0]] + s[1..];
      InsertBehindBounded(s[0], rest, s, x, key);
      [s[0]] + rest
  }

  /** The base case of `Insert`: `x` goes in front. */
  lemma {:induction false} InsertFront<T>(x: T, s: seq<T>, key: T -> int)
    requires SortedDesc(s, key) && (|s| == 0 || key(x) >= key(s[0]))
    ensures SortedDesc([x] + s, key)
    ensures forall b :: AllAtMost(s, key, b) && key(x) <= b ==> AllAtMost([x] + s, key, b)
  {
    if |s| > 0 {
      HeadBounds(s, key);
    }
    SortedCons(x, s, key);
    InsertFrontBounded(x, s, key);
  }

  /** Bounds on `s` and `x` bound `[x] + s`. */
  lemma {:induction false} InsertFrontBounded<T>(x: T, s: seq<T>, key: T -> int)
    ensures forall b :: AllAtMost(s, key, b) && key(x) <= b ==> AllAtMost([x] + s, key, b)
  {
    forall b | AllAtMost(s, key, b) && key(x) <= b ensures AllAtMost([x] + s, key, b) {
      forall k | 0 < k < |s| + 1 ensures key(([x] + s)[k]) <= b {
        assert ([x] + s)[k] == s[k - 1];
      }
    }
  }

  /** A bound on a sequence bounds its tail. */
  lemma {:induction false} TailBounded<T>(s: seq<T>, key: T -> int)
    requires |s| > 0
    ensures forall b :: AllAtMost(s, key, b) ==> AllAtMost(s[1..], key, b)
  {
    forall b | AllAtMost(s, key, b) ensures AllAtMost(s[1..], key, b) {
      forall k | 0 <= k < |s| - 1 ensures key(s[1..][k]) <= b {
        assert s[1..][k] == s[k + 1];
      }
    }
  }

  /** The bound carried through the recursive case of `Insert`. */
  lemma {:induction false} InsertBehindBounded<T>(h: T, rest: seq<T>, s: seq<T>, x: T, key: T -> int)
    requires |s| > 0 && h == s[0]
    requires forall b :: AllAtMost(s[1..], key, b) && key(x) <= b ==> AllAtMost(rest, key, b)
    ensures forall b :: AllAtMost(s, key, b) && key(x) <= b ==> AllAtMost([h] + rest, key, b)
  {
    TailBounded(s, key);
    forall b | AllAtMost(s, key, b) && key(x) <= b ensures AllAtMost([h] + rest, key, b) {
      assert AllAtMost(rest, key, b);
      forall k | 0 < k < |rest| + 1 ensures key(([h] + rest)[k]) <= b {
        assert ([h] + rest)[k] == rest[k - 1];
      }
    }
  }

  /** Insertion sort into decreasing key order: a permutation of `s` that is sorted. */
  function SortDesc<T>(s: seq<T>, key: T -> int): (r: seq<T>)
    ensures |r| == |s|
    ensures SortedDesc(r, key)
    ensures multiset(r) == multiset(s)
    decreases |s|
  {
    if |s| == 0 then []
    else
      assert s == [s[0]] + s[1..];
      Insert(s[0], SortDesc(s[1..], key), key)
  }
}

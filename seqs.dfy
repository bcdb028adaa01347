/** The array operations the administration tool uses on its collections:
    `findIndex`, `some`, `filter`, and the `reduce` that groups a list into
    buckets keyed by a field. Predicates are passed as total arrows. */
module Seqs {

  datatype Option<+T> = None | Some(value: T) {
    /** The value, or `default` when absent (the source's `x || default`). */
    function GetOr(default: T): T {
      if Some? then value else default
    }
  }

  /** `Array.prototype.findIndex`: the first index whose element satisfies `p`, or -1. */
  function FindIndex<T(!new)>(s: seq<T>, p: T -> bool): (k: int)
    ensures -1 <= k < |s|
    ensures k == -1 <==> forall i :: 0 <= i < |s| ==> !p(s[i])
    ensures 0 <= k ==> p(s[k]) && forall i :: 0 <= i < k ==> !p(s[i])
  {
    if s == [] then -1
    else if p(s[0]) then 0
    else
      var k := FindIndex(s[1..], p);
      assert forall i :: 1 <= i < |s| ==> s[i] == s[1..][i - 1];
      if k == -1 then -1 else k + 1
  }

  /** `Array.prototype.some`. */
  predicate Any<T(!new)>(s: seq<T>, p: T -> bool) {
    exists i :: 0 <= i < |s| && p(s[i])
  }

  /** `Array.prototype.filter`: the elements satisfying `p`, in their order. */
  function Filter<T(!new)>(s: seq<T>, p: T -> bool): (r: seq<T>)
    ensures |r| <= |s|
    ensures forall x :: x in r <==> x in s && p(x)
  {
    if s == [] then []
    else
      assert forall x :: x in s <==> x == s[0] || x in s[1..];
      (if p(s[0]) then [s[0]] else []) + Filter(s[1..], p)
  }

  /** `flatMap`: the concatenation of `f` applied to each element, in order. */
  function FlatMap<T, U>(s: seq<T>, f: T -> seq<U>): seq<U> {
    if s == [] then [] else f(s[0]) + FlatMap(s[1..], f)
  }

  /** `flatMap` of a concatenation is the concatenation of the two. */
  lemma {:induction false} FlatMapConcat<T, U>(a: seq<T>, b: seq<T>, f: T -> seq<U>)
    ensures FlatMap(a + b, f) == FlatMap(a, f) + FlatMap(b, f)
  {
    if a == [] {
      assert a + b == b;
    } else {
      assert (a + b)[0] == a[0] && (a + b)[1..] == a[1..] + b;
      FlatMapConcat(a[1..], b, f);
    }
  }

  /** Filtering commutes with concatenation, so it keeps the relative order. */
  lemma {:induction false} FilterConcat<T(!new)>(a: seq<T>, b: seq<T>, p: T -> bool)
    ensures Filter(a + b, p) == Filter(a, p) + Filter(b, p)
  {
    if a == [] {
      assert a + b == b;
    } else {
      assert (a + b)[0] == a[0];
      assert (a + b)[1..] == a[1..] + b;
      FilterConcat(a[1..], b, p);
    }
  }

  /** Filtering keeps a sequence whose every element passes. */
  lemma {:induction false} FilterAllKept<T(!new)>(s: seq<T>, p: T -> bool)
    requires forall i :: 0 <= i < |s| ==> p(s[i])
    ensures Filter(s, p) == s
  {
    if s != [] {
      assert forall i :: 1 <= i < |s| ==> s[1..][i - 1] == s[i];
      FilterAllKept(s[1..], p);
    }
  }

  /** Filtering empties a sequence whose every element fails. */
  lemma FilterNoneKept<T(!new)>(s: seq<T>, p: T -> bool)
    requires forall i :: 0 <= i < |s| ==> !p(s[i])
    ensures Filter(s, p) == []
  {
  }

  /** Filtering drops exactly the one element at `k` when it alone fails. */
  lemma {:induction false} FilterRemovesOne<T(!new)>(s: seq<T>, p: T -> bool, k: int)
    requires 0 <= k < |s| && !p(s[k])
    requires forall i :: 0 <= i < |s| && i != k ==> p(s[i])
    ensures Filter(s, p) == s[..k] + s[k + 1..]
  {
    var t := s[1..];
    assert forall i :: 0 <= i < |t| && i != k - 1 ==> p(t[i]) by {
      forall i | 0 <= i < |t| && i != k - 1 ensures p(t[i]) { assert t[i] == s[i + 1]; }
    }
    if k == 0 {
      calc {
        Filter(s, p);
        Filter(t, p);
        { FilterAllKept(t, p); }
        t;
        { assert s[..0] == []; }
        s[..0] + s[1..];
      }
    } else {
      calc {
        Filter(s, p);
        [s[0]] + Filter(t, p);
        { FilterRemovesOne(t, p, k - 1); }
        [s[0]] + (t[..k - 1] + t[k..]);
        { assert s[..k] == [s[0]] + t[..k - 1] && s[k + 1..] == t[k..]; }
        s[..k] + s[k + 1..];
      }
    }
  }

  /** Replacing an element that fails `p` by another that fails `p` does not change the filter. */
  lemma {:induction false} FilterUpdateRejected<T(!new)>(s: seq<T>, k: int, y: T, p: T -> bool)
    requires 0 <= k < |s| && !p(s[k]) && !p(y)
    ensures Filter(s[k := y], p) == Filter(s, p)
  {
    if k == 0 {
      assert s[k := y][1..] == s[1..];
    } else {
      assert s[k := y][1..] == s[1..][k - 1 := y];
      FilterUpdateRejected(s[1..], k - 1, y, p);
    }
  }

  /** When every element that passes `q` also passes `p`, filtering by `p` first loses none of them. */
  lemma {:induction false} FilterImplied<T(!new)>(s: seq<T>, p: T -> bool, q: T -> bool)
    requires forall i :: 0 <= i < |s| ==> q(s[i]) ==> p(s[i])
    ensures Filter(Filter(s, p), q) == Filter(s, q)
  {
    if s != [] {
      assert forall i :: 1 <= i < |s| ==> s[1..][i - 1] == s[i];
      FilterImplied(s[1..], p, q);
      FilterConcat(if p(s[0]) then [s[0]] else [], Filter(s[1..], p), q);
    }
  }

  /** Every two elements, the earlier first, are related by `ok`. */
  predicate Pairwise<T(!new)>(s: seq<T>, ok: (T, T) -> bool) {
    forall i, j :: 0 <= i < j < |s| ==> ok(s[i], s[j])
  }

  /** No element occurs twice. */
  predicate NoDup<T(!new,==)>(s: seq<T>) {
    forall i, j :: 0 <= i < j < |s| ==> s[i] != s[j]
  }

  /** Appending an element related to every earlier one keeps the relation pairwise. */
  lemma PairwiseSnoc<T(!new)>(s: seq<T>, y: T, ok: (T, T) -> bool)
    requires Pairwise(s, ok)
    requires forall i :: 0 <= i < |s| ==> ok(s[i], y)
    ensures Pairwise(s + [y], ok)
  {
    var t := s + [y];
    forall i, j | 0 <= i < j < |t| ensures ok(t[i], t[j]) {
      if j < |s| { assert t[i] == s[i] && t[j] == s[j]; }
    }
  }

  /** Replacing one element by another related to every other element, in both orders,
      keeps the relation pairwise. */
  lemma PairwiseUpdate<T(!new)>(s: seq<T>, k: int, y: T, ok: (T, T) -> bool)
    requires 0 <= k < |s| && Pairwise(s, ok)
    requires forall i :: 0 <= i < k ==> ok(s[i], y)
    requires forall i :: k < i < |s| ==> ok(y, s[i])
    ensures Pairwise(s[k := y], ok)
  {
  }

  /** A filtered sequence is a subsequence, so a pairwise relation survives filtering. */
  lemma {:induction false} PairwiseFilter<T(!new)>(s: seq<T>, ok: (T, T) -> bool, p: T -> bool)
    requires Pairwise(s, ok)
    ensures Pairwise(Filter(s, p), ok)
  {
    if s != [] {
      var tail := s[1..];
      assert forall i :: 1 <= i < |s| ==> tail[i - 1] == s[i];
      PairwiseFilter(tail, ok, p);
      var f := Filter(tail, p);
      if p(s[0]) {
        var t := [s[0]] + f;
        forall i, j | 0 <= i < j < |t| ensures ok(t[i], t[j]) {
          if i == 0 {
            assert t[j] in tail;
            var m :| 0 <= m < |tail| && tail[m] == t[j];
            assert ok(s[0], s[m + 1]);
          } else {
            assert t[i] == f[i - 1] && t[j] == f[j - 1];
          }
        }
      } else {
        assert Filter(s, p) == f;
      }
    }
  }

  /** Filtering keeps a sequence free of duplicates. */
  lemma {:induction false} NoDupFilter<T(!new)>(s: seq<T>, p: T -> bool)
    requires NoDup(s)
    ensures NoDup(Filter(s, p))
  {
    if s != [] {
      var tail := s[1..];
      assert forall i :: 1 <= i < |s| ==> tail[i - 1] == s[i];
      NoDupFilter(tail, p);
      var f := Filter(tail, p);
      assert s[0] !in tail;
      if p(s[0]) {
        var t := [s[0]] + f;
        forall i, j | 0 <= i < j < |t| ensures t[i] != t[j] {
          if i == 0 {
            assert t[j] in f;
          } else {
            assert t[i] == f[i - 1] && t[j] == f[j - 1];
          }
        }
      }
    }
  }

  // ---------------------------------------------------------------------------
  // Grouping: the `reduce` that pushes every element into the bucket of its key.
  // ---------------------------------------------------------------------------

  /** The test "the element's key is `k`". */
  function HasKey<T(!new), K(!new,==)>(key: T -> K, k: K): T -> bool {
    x => key(x) == k
  }

  /** The distinct keys of `s`, in the order in which each first appears. */
  function KeysInOrder<T(!new), K(!new,==)>(s: seq<T>, key: T -> K): (ks: seq<K>)
    ensures NoDup(ks)
    ensures forall k :: k in ks <==> exists i :: 0 <= i < |s| && key(s[i]) == k
  {
    if s == [] then []
    else
      var init := s[..|s| - 1];
      var ks := KeysInOrder(init, key);
      var k := key(s[|s| - 1]);
      assert forall i :: 0 <= i < |init| ==> init[i] == s[i];
      if k in ks then ks else ks + [k]
  }

  /** `groups` and `order` are what the reduce has built after visiting all of `s`. */
  ghost predicate Grouped<T(!new), K(!new)>(s: seq<T>, key: T -> K, groups: map<K, seq<T>>, order: seq<K>) {
    && order == KeysInOrder(s, key)
    && (forall k :: k in groups <==> k in order)
    && (forall k :: k in groups ==> groups[k] == Filter(s, HasKey(key, k)))
  }

  /** The keys after one more element: its key is added when it is new. */
  lemma KeysSnoc<T(!new), K(!new)>(pre: seq<T>, x: T, key: T -> K)
    ensures KeysInOrder(pre + [x], key)
         == if key(x) in KeysInOrder(pre, key) then KeysInOrder(pre, key) else KeysInOrder(pre, key) + [key(x)]
  {
    assert (pre + [x])[..|pre|] == pre;
  }

  /** A key that does not occur has an empty bucket. */
  lemma AbsentKeyEmpty<T(!new), K(!new)>(s: seq<T>, key: T -> K, k: K)
    requires k !in KeysInOrder(s, key)
    ensures Filter(s, HasKey(key, k)) == []
  {
    forall j | 0 <= j < |s| ensures !HasKey(key, k)(s[j]) {
      assert key(s[j]) in KeysInOrder(s, key);
    }
    FilterNoneKept(s, HasKey(key, k));
  }

  /** The buckets after one more element: only the bucket of its key grows, by that element. */
  lemma BucketsSnoc<T(!new), K(!new)>(pre: seq<T>, x: T, key: T -> K, groups: map<K, seq<T>>, groups': map<K, seq<T>>)
    requires forall k :: k in groups ==> groups[k] == Filter(pre, HasKey(key, k))
    requires key(x) !in groups ==> Filter(pre, HasKey(key, key(x))) == []
    requires groups' == if key(x) in groups then groups[key(x) := groups[key(x)] + [x]] else groups[key(x) := [x]]
    ensures forall k :: k in groups' ==> groups'[k] == Filter(pre + [x], HasKey(key, k))
  {
    forall k | k in groups' ensures groups'[k] == Filter(pre + [x], HasKey(key, k)) {
      FilterConcat(pre, [x], HasKey(key, k));
    }
  }

  /** One step of the reduce: push `x` into its bucket, creating the bucket if it is new. */
  lemma GroupSnoc<T(!new), K(!new)>(pre: seq<T>, x: T, key: T -> K, groups: map<K, seq<T>>, order: seq<K>)
    requires Grouped(pre, key, groups, order)
    ensures var k := key(x);
      if k in groups then Grouped(pre + [x], key, groups[k := groups[k] + [x]], order)
      else Grouped(pre + [x], key, groups[k := [x]], order + [k])
  {
    var k := key(x);
    KeysSnoc(pre, x, key);
    var groups' := if k in groups then groups[k := groups[k] + [x]] else groups[k := [x]];
    if k !in groups {
      AbsentKeyEmpty(pre, key, k);
    }
    BucketsSnoc(pre, x, key, groups, groups');
  }

  /** Appending a non-empty block whose elements all have the new key `k` adds `k` to the keys. */
  lemma {:induction false} KeysOfBlock<T(!new), K(!new)>(a: seq<T>, b: seq<T>, key: T -> K, k: K)
    requires b != [] && forall i :: 0 <= i < |b| ==> key(b[i]) == k
    requires k !in KeysInOrder(a, key)
    ensures KeysInOrder(a + b, key) == KeysInOrder(a, key) + [k]
    decreases |b|
  {
    var init, y := b[..|b| - 1], b[|b| - 1];
    assert a + b == (a + init) + [y];
    KeysSnoc(a + init, y, key);
    if init == [] {
      assert a + init == a;
    } else {
      assert forall i :: 0 <= i < |init| ==> init[i] == b[i];
      KeysOfBlock(a, init, key, k);
    }
  }

  /** The reduce over `s` into buckets keyed by `key`; `order` lists the buckets as they were created. */
  method GroupBy<T(!new), K(!new,==)>(s: seq<T>, key: T -> K) returns (groups: map<K, seq<T>>, order: seq<K>)
    ensures order == KeysInOrder(s, key)
    ensures forall k :: k in groups <==> k in order
    ensures forall k :: k in groups ==> groups[k] == Filter(s, HasKey(key, k))
  {
    groups, order := map[], [];
    var i := 0;
    while i < |s|
      invariant 0 <= i <= |s|
      invariant Grouped(s[..i], key, groups, order)
    {
      var x := s[i];
      var k := key(x);
      assert s[..i + 1] == s[..i] + [x];
      GroupSnoc(s[..i], x, key, groups, order);
      if k in groups {
        groups := groups[k := groups[k] + [x]];
      } else {
        groups := groups[k := [x]];
        order := order + [k];
      }
      i := i + 1;
    }
    assert s[..i] == s;
  }

  /** The total size of the buckets named in `ks`. */
  function BucketSizes<T(!new), K(!new,==)>(ks: seq<K>, s: seq<T>, key: T -> K): nat {
    if ks == [] then 0 else |Filter(s, HasKey(key, ks[0]))| + BucketSizes(ks[1..], s, key)
  }

  lemma {:induction false} BucketSizesSnocKey<T(!new), K(!new)>(ks: seq<K>, k: K, s: seq<T>, key: T -> K)
    ensures BucketSizes(ks + [k], s, key) == BucketSizes(ks, s, key) + |Filter(s, HasKey(key, k))|
  {
    if ks != [] {
      assert (ks + [k])[1..] == ks[1..] + [k];
      BucketSizesSnocKey(ks[1..], k, s, key);
    }
  }

  lemma {:induction false} BucketSizesSnocElem<T(!new), K(!new)>(ks: seq<K>, s: seq<T>, x: T, key: T -> K)
    requires NoDup(ks)
    ensures BucketSizes(ks, s + [x], key) == BucketSizes(ks, s, key) + (if key(x) in ks then 1 else 0)
  {
    if ks != [] {
      assert forall i :: 1 <= i < |ks| ==> ks[1..][i - 1] == ks[i];
      assert key(x) in ks <==> key(x) == ks[0] || key(x) in ks[1..];
      BucketSizesSnocElem(ks[1..], s, x, key);
      FilterConcat(s, [x], HasKey(key, ks[0]));
    }
  }

  /** No element is lost or counted twice: the bucket sizes add up to the list length. */
  lemma {:induction false} GroupSizesSum<T(!new), K(!new)>(s: seq<T>, key: T -> K)
    ensures BucketSizes(KeysInOrder(s, key), s, key) == |s|
  {
    if s != [] {
      var init, x := s[..|s| - 1], s[|s| - 1];
      assert s == init + [x];
      var ks := KeysInOrder(init, key);
      GroupSizesSum(init, key);
      BucketSizesSnocElem(ks, init, x, key);
      if key(x) !in ks {
        BucketSizesSnocKey(ks, key(x), s, key);
        forall i | 0 <= i < |init| ensures !HasKey(key, key(x))(init[i]) {
          assert key(init[i]) in ks;
        }
        FilterNoneKept(init, HasKey(key, key(x)));
        FilterConcat(init, [x], HasKey(key, key(x)));
      }
    }
  }

  /** Every element lies in the bucket of its own key and in no other. */
  lemma GroupedExactlyOnce<T(!new), K(!new)>(s: seq<T>, key: T -> K, i: int, k: K)
    requires 0 <= i < |s|
    ensures s[i] in Filter(s, HasKey(key, k)) <==> key(s[i]) == k
  {
  }
}

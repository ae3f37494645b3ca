/**
 * A stable sort into non-increasing key order: what `Array.prototype.sort`
 * does with a comparator of the form `(a, b) => key(b) - key(a)`. The
 * language standard requires that sort to be stable (section 23.1.3.30 of
 * ECMA-262, 2023 edition): elements whose keys compare equal keep their
 * input order.
 */
module Sorting {

  /** Keys never increase from left to right. */
  ghost predicate Descending<T>(s: seq<T>, key: T -> int) {
    forall i, j :: 0 <= i < j < |s| ==> key(s[i]) >= key(s[j])
  }

  /** Keys strictly grow from left to right. */
  ghost predicate Increasing<T>(s: seq<T>, key: T -> int) {
    forall i, j :: 0 <= i < j < |s| ==> key(s[i]) < key(s[j])
  }

  /** No two elements share a key. */
  ghost predicate DistinctKeys<T>(s: seq<T>, key: T -> int) {
    forall i, j :: 0 <= i < j < |s| ==> key(s[i]) != key(s[j])
  }

  /** The elements of `s` whose key is `k`, in their order in `s`. */
  function WithKey<T>(s: seq<T>, key: T -> int, k: int): seq<T> {
    if |s| == 0 then []
    else (if key(s[0]) == k then [s[0]] else []) + WithKey(s[1..], key, k)
  }

  /**
   * Places `x` in front of the first element whose key is not larger than
   * its own, so `x` precedes the equal-keyed elements of `t`.
   */
  function Insert<T>(x: T, t: seq<T>, key: T -> int): (r: seq<T>)
    ensures multiset(r) == multiset(t) + multiset{x}
    ensures Descending(t, key) ==> Descending(r, key)
  {
    if |t| == 0 || key(t[0]) <= key(x) then [x] + t
    else
      var rest := Insert(x, t[1..], key);
      assert t == [t[0]] + t[1..];
      assert Descending(t, key) ==> Descending([t[0]] + rest, key) by {
        if Descending(t, key) {
          InsertStep(x, t, rest, key);
        }
      }
      [t[0]] + rest
  }

  /** Putting the larger head back in front of the insertion into the tail keeps the order. */
  lemma InsertStep<T>(x: T, t: seq<T>, rest: seq<T>, key: T -> int)
    requires |t| > 0 && key(t[0]) > key(x) && Descending(t, key)
    requires Descending(t[1..], key) ==> Descending(rest, key)
    requires multiset(rest) == multiset(t[1..]) + multiset{x}
    ensures Descending([t[0]] + rest, key)
  {
    DescendingTail(t, key);
    forall y | y in rest ensures key(t[0]) >= key(y) {
      assert y in multiset(rest);
      if y != x {
        assert y in multiset(t[1..]);
        var j :| 0 <= j < |t[1..]| && t[1..][j] == y;
        assert t[j + 1] == y;
      }
    }
    DescendingCons(t[0], rest, key);
  }

  lemma DescendingTail<T>(t: seq<T>, key: T -> int)
    requires |t| > 0 && Descending(t, key)
    ensures Descending(t[1..], key)
  {
    forall i, j | 0 <= i < j < |t| - 1 ensures key(t[1..][i]) >= key(t[1..][j]) {
      assert t[1..][i] == t[i + 1] && t[1..][j] == t[j + 1];
    }
  }

  lemma DescendingCons<T>(h: T, rest: seq<T>, key: T -> int)
    requires Descending(rest, key)
    requires forall y :: y in rest ==> key(h) >= key(y)
    ensures Descending([h] + rest, key)
  {
    var r := [h] + rest;
    forall i, j | 0 <= i < j < |r| ensures key(r[i]) >= key(r[j]) {
      assert r[j] == rest[j - 1];
      if i > 0 {
        assert r[i] == rest[i - 1];
      } else {
        assert rest[j - 1] in rest;
      }
    }
  }

  /** Insertion sort from the back: a stable non-increasing sort by `key`. */
  function SortDesc<T>(s: seq<T>, key: T -> int): (r: seq<T>)
    ensures multiset(r) == multiset(s)
    ensures Descending(r, key)
  {
    if |s| == 0 then []
    else
      assert s == [s[0]] + s[1..];
      Insert(s[0], SortDesc(s[1..], key), key)
  }

  lemma {:induction false} WithKeyInsert<T>(x: T, t: seq<T>, key: T -> int, k: int)
    ensures WithKey(Insert(x, t, key), key, k)
         == (if key(x) == k then [x] else []) + WithKey(t, key, k)
  {
    if |t| == 0 || key(t[0]) <= key(x) {
      assert ([x] + t)[1..] == t;
    } else {
      var rest := Insert(x, t[1..], key);
      var head := if key(t[0]) == k then [t[0]] else [];
      var mine := if key(x) == k then [x] else [];
      assert ([t[0]] + rest)[1..] == rest;
      assert WithKey([t[0]] + rest, key, k) == head + WithKey(rest, key, k);
      WithKeyInsert(x, t[1..], key, k);
      assert WithKey(t, key, k) == head + WithKey(t[1..], key, k);
      assert key(x) == k ==> head == [];
      assert head + (mine + WithKey(t[1..], key, k)) == mine + (head + WithKey(t[1..], key, k));
    }
  }

  /**
   * Stability: for every key, the elements carrying it appear in the
   * sorted sequence exactly in their input order.
   */
  lemma {:induction false} SortDescStable<T>(s: seq<T>, key: T -> int, k: int)
    ensures WithKey(SortDesc(s, key), key, k) == WithKey(s, key, k)
  {
    if |s| > 0 {
      WithKeyInsert(s[0], SortDesc(s[1..], key), key, k);
      SortDescStable(s[1..], key, k);
    }
  }

  /**
   * Filtering by key keeps the elements' relative order, so a filter of a
   * sequence strictly increasing in `order` is strictly increasing too.
   */
  lemma {:induction false} WithKeyIncreasing<T>(s: seq<T>, key: T -> int, k: int, order: T -> int)
    requires Increasing(s, order)
    ensures forall x :: x in WithKey(s, key, k) ==> x in s && key(x) == k
    ensures Increasing(WithKey(s, key, k), order)
  {
    if |s| > 0 {
      var tail := s[1..];
      WithKeyIncreasing(tail, key, k, order);
      var rest := WithKey(tail, key, k);
      forall x | x in rest ensures order(s[0]) < order(x) {
        var j :| 0 <= j < |tail| && tail[j] == x;
        assert s[j + 1] == x;
      }
      if key(s[0]) == k {
        var w := [s[0]] + rest;
        assert WithKey(s, key, k) == w;
        forall i, j | 0 <= i < j < |w| ensures order(w[i]) < order(w[j]) {
          assert w[j] == rest[j - 1] && w[j] in rest;
          if i > 0 {
            assert w[i] == rest[i - 1];
            assert order(rest[i - 1]) < order(rest[j - 1]);
          }
        }
      }
    }
  }

  /** A sequence whose keys are all `k` is its own `k`-filter. */
  lemma {:induction false} WithKeyAll<T>(s: seq<T>, key: T -> int, k: int)
    requires forall i :: 0 <= i < |s| ==> key(s[i]) == k
    ensures WithKey(s, key, k) == s
  {
    if |s| > 0 {
      WithKeyAll(s[1..], key, k);
      assert [s[0]] + s[1..] == s;
    }
  }

  /** When every key is the same the sort changes nothing. */
  lemma SortDescAllTied<T>(s: seq<T>, key: T -> int, k: int)
    requires forall i :: 0 <= i < |s| ==> key(s[i]) == k
    ensures SortDesc(s, key) == s
  {
    var r := SortDesc(s, key);
    forall i | 0 <= i < |r| ensures key(r[i]) == k {
      assert r[i] in multiset(s);
    }
    SortDescStable(s, key, k);
    WithKeyAll(s, key, k);
    WithKeyAll(r, key, k);
  }

  lemma {:induction false} InsertDistinct<T>(x: T, t: seq<T>, key: T -> int)
    requires DistinctKeys(t, key)
    requires forall y :: y in t ==> key(y) != key(x)
    ensures DistinctKeys(Insert(x, t, key), key)
  {
    if |t| == 0 || key(t[0]) <= key(x) {
    } else {
      var rest := Insert(x, t[1..], key);
      InsertDistinct(x, t[1..], key);
      forall y | y in rest ensures key(y) != key(t[0]) {
        assert y in multiset(rest);
        if y != x {
          assert y in multiset(t[1..]);
          var j :| 0 <= j < |t[1..]| && t[1..][j] == y;
          assert t[j + 1] == y;
        }
      }
      DistinctCons(t[0], rest, key);
    }
  }

  lemma DistinctCons<T>(h: T, rest: seq<T>, key: T -> int)
    requires DistinctKeys(rest, key)
    requires forall y :: y in rest ==> key(y) != key(h)
    ensures DistinctKeys([h] + rest, key)
  {
    var r := [h] + rest;
    forall i, j | 0 <= i < j < |r| ensures key(r[i]) != key(r[j]) {
      assert r[j] == rest[j - 1];
      if i > 0 {
        assert r[i] == rest[i - 1];
      } else {
        assert rest[j - 1] in rest;
      }
    }
  }

  /** Sorting input with pairwise distinct keys gives strictly decreasing keys. */
  lemma SortDescStrict<T>(s: seq<T>, key: T -> int)
    requires DistinctKeys(s, key)
    ensures forall i, j :: 0 <= i < j < |SortDesc(s, key)| ==> key(SortDesc(s, key)[i]) > key(SortDesc(s, key)[j])
  {
    SortDescDistinct(s, key);
  }

  lemma {:induction false} SortDescDistinct<T>(s: seq<T>, key: T -> int)
    requires DistinctKeys(s, key)
    ensures DistinctKeys(SortDesc(s, key), key)
  {
    if |s| > 0 {
      var tail := s[1..];
      assert DistinctKeys(tail, key) by {
        forall i, j | 0 <= i < j < |tail| ensures key(tail[i]) != key(tail[j]) {
          assert tail[i] == s[i + 1] && tail[j] == s[j + 1];
        }
      }
      SortDescDistinct(tail, key);
      var t := SortDesc(tail, key);
      forall y | y in t ensures key(y) != key(s[0]) {
        assert y in multiset(t);
        assert y in multiset(tail);
        var j :| 0 <= j < |tail| && tail[j] == y;
        assert s[j + 1] == y;
      }
      InsertDistinct(s[0], t, key);
    }
  }
}

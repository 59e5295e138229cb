/**
 * Python's stable sort in descending key order, `sorted(s, key=key, reverse=True)`
 * (and `list.sort` with the same arguments): larger keys first, and elements with
 * equal keys in their original order.
 */
module Sorting {

  predicate SortedDesc<T>(s: seq<T>, key: T -> int) {
    forall i, j :: 0 <= i < j < |s| ==> key(s[i]) >= key(s[j])
  }

  /** Places `x` before the first element whose key is not larger than its own. */
  function Insert<T>(x: T, s: seq<T>, key: T -> int): (r: seq<T>)
    ensures |r| == |s| + 1
    ensures multiset(r) == multiset(s) + multiset{x}
    ensures r[0] == x || (s != [] && r[0] == s[0])
  {
    if s == [] || key(s[0]) <= key(x) then [x] + s
    else
      var rest := Insert(x, s[1..], key);
      assert s == [s[0]] + s[1..];
      [s[0]] + rest
  }

  lemma {:induction false} InsertSorted<T>(x: T, s: seq<T>, key: T -> int)
    requires SortedDesc(s, key)
    ensures SortedDesc(Insert(x, s, key), key)
  {
    if s == [] || key(s[0]) <= key(x) {
      var r := [x] + s;
      forall i, j | 0 <= i < j < |r| ensures key(r[i]) >= key(r[j]) {
        if i > 0 { assert r[i] == s[i - 1] && r[j] == s[j - 1]; }
        else { assert r[j] == s[j - 1] && key(s[0]) >= key(s[j - 1]); }
      }
    } else {
      var rest := Insert(x, s[1..], key);
      assert SortedDesc(s[1..], key) by {
        forall i, j | 0 <= i < j < |s[1..]| ensures key(s[1..][i]) >= key(s[1..][j]) {
          assert s[1..][i] == s[i + 1] && s[1..][j] == s[j + 1];
        }
      }
      InsertSorted(x, s[1..], key);
      var r := [s[0]] + rest;
      assert key(s[0]) >= key(rest[0]);
      forall i, j | 0 <= i < j < |r| ensures key(r[i]) >= key(r[j]) {
        if i > 0 { assert r[i] == rest[i - 1] && r[j] == rest[j - 1]; }
        else { assert r[j] == rest[j - 1] && key(rest[0]) >= key(rest[j - 1]); }
      }
    }
  }

  /** Insertion sort; stands for Python's built-in sort. */
  function SortDesc<T>(s: seq<T>, key: T -> int): (r: seq<T>)
    ensures |r| == |s|
    ensures multiset(r) == multiset(s)
    ensures SortedDesc(r, key)
  {
    if s == [] then []
    else
      assert s == [s[0]] + s[1..];
      InsertSorted(s[0], SortDesc(s[1..], key), key);
      Insert(s[0], SortDesc(s[1..], key), key)
  }

  /** The elements of `s` whose key is `k`, in their order in `s`. */
  function WithKey<T>(s: seq<T>, key: T -> int, k: int): seq<T> {
    if s == [] then [] else (if key(s[0]) == k then [s[0]] else []) + WithKey(s[1..], key, k)
  }

  lemma WithKeyCons<T>(x: T, s: seq<T>, key: T -> int, k: int)
    ensures WithKey([x] + s, key, k) == (if key(x) == k then [x] else []) + WithKey(s, key, k)
  {
    assert ([x] + s)[1..] == s;
  }

  lemma {:induction false} InsertWithKey<T>(x: T, s: seq<T>, key: T -> int, k: int)
    ensures WithKey(Insert(x, s, key), key, k) == (if key(x) == k then [x] else []) + WithKey(s, key, k)
  {
    if s == [] || key(s[0]) <= key(x) {
      assert Insert(x, s, key) == [x] + s;
      WithKeyCons(x, s, key, k);
    } else {
      var rest := Insert(x, s[1..], key);
      assert Insert(x, s, key) == [s[0]] + rest;
      var e := if key(s[0]) == k then [s[0]] else [];
      var f := if key(x) == k then [x] else [];
      calc {
        WithKey([s[0]] + rest, key, k);
        { WithKeyCons(s[0], rest, key, k); }
        e + WithKey(rest, key, k);
        { InsertWithKey(x, s[1..], key, k); }
        e + (f + WithKey(s[1..], key, k));
        f + (e + WithKey(s[1..], key, k));
        { WithKeyCons(s[0], s[1..], key, k); assert s == [s[0]] + s[1..]; }
        f + WithKey(s, key, k);
      }
    }
  }

  /** Stability: for every key value, the elements carrying it keep their relative order. */
  lemma {:induction false} SortDescStable<T>(s: seq<T>, key: T -> int, k: int)
    ensures WithKey(SortDesc(s, key), key, k) == WithKey(s, key, k)
  {
    if s != [] {
      SortDescStable(s[1..], key, k);
      InsertWithKey(s[0], SortDesc(s[1..], key), key, k);
    }
  }

  /** No element of `top` has a smaller key than an element of `c` left out of it. */
  predicate Dominates<T(==)>(top: seq<T>, c: seq<T>, key: T -> int) {
    forall i, e :: 0 <= i < |top| && e in c && e !in top ==> key(top[i]) >= key(e)
  }

  /** The first `n` elements of a list sorted by descending key come from it, keep
      its order, and none has a smaller key than an element left out. */
  lemma TakeSorted<T>(s: seq<T>, c: seq<T>, key: T -> int, n: nat)
    requires SortedDesc(s, key) && multiset(s) == multiset(c) && n <= |s|
    ensures multiset(s[..n]) <= multiset(c)
    ensures SortedDesc(s[..n], key)
    ensures Dominates(s[..n], c, key)
  {
    assert s == s[..n] + s[n..];
    forall i, e | 0 <= i < n && e in c && e !in s[..n] ensures key(s[..n][i]) >= key(e) {
      assert e in multiset(s);
      var j :| 0 <= j < |s| && s[j] == e;
    }
  }
}

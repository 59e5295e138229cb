/**
 * A counting dictionary (`collections.Counter`, or a dict of counts updated with
 * `d[k] = d.get(k, 0) + 1`) as an association list in insertion order, which is
 * the order Python dicts keep and report.
 */
module Tally {

  type Counter<K> = seq<(K, nat)>

  /** No key appears twice. */
  predicate Distinct<K(==)>(t: Counter<K>) {
    forall i, j :: 0 <= i < j < |t| ==> t[i].0 != t[j].0
  }

  function Keys<K>(t: Counter<K>): set<K> {
    set i | 0 <= i < |t| :: t[i].0
  }

  /** `t[k]` for a Counter: 0 for a missing key. */
  function Get<K(==)>(t: Counter<K>, k: K): nat {
    if t == [] then 0 else if t[0].0 == k then t[0].1 else Get(t[1..], k)
  }

  /** The sum of all counts. */
  function Total<K>(t: Counter<K>): nat {
    if t == [] then 0 else t[0].1 + Total(t[1..])
  }

  lemma KeysTail<K>(t: Counter<K>)
    requires t != []
    ensures Keys(t) == {t[0].0} + Keys(t[1..])
  {
    forall x | x in Keys(t) ensures x in {t[0].0} + Keys(t[1..]) {
      var i :| 0 <= i < |t| && t[i].0 == x;
      if i > 0 { assert t[1..][i - 1].0 == x; }
    }
    forall x | x in Keys(t[1..]) ensures x in Keys(t) {
      var i :| 0 <= i < |t[1..]| && t[1..][i].0 == x;
      assert t[i + 1].0 == x;
    }
  }

  /** `t[k] += 1`: bumps an existing entry in place, or appends `(k, 1)`. */
  function Inc<K(==,!new)>(t: Counter<K>, k: K): (r: Counter<K>)
    ensures Get(r, k) == Get(t, k) + 1
    ensures forall j :: j != k ==> Get(r, j) == Get(t, j)
    ensures Total(r) == Total(t) + 1
    ensures Keys(r) == Keys(t) + {k}
    ensures Distinct(t) ==> Distinct(r)
  {
    if t == [] then [(k, 1)]
    else if t[0].0 == k then
      var r := [(k, t[0].1 + 1)] + t[1..];
      assert r[1..] == t[1..];
      KeysTail(t);
      KeysTail(r);
      r
    else
      var rest := Inc(t[1..], k);
      var r := [t[0]] + rest;
      assert r[1..] == rest;
      KeysTail(t);
      KeysTail(r);
      ConsDistinct(t, rest, k);
      r
  }

  /** Putting back the head of a distinct counter in front of a counter whose keys are
      those of its tail plus a key other than the head's keeps it distinct. */
  lemma ConsDistinct<K>(t: Counter<K>, rest: Counter<K>, k: K)
    requires t != [] && t[0].0 != k
    requires Keys(rest) == Keys(t[1..]) + {k}
    requires Distinct(t[1..]) ==> Distinct(rest)
    ensures Distinct(t) ==> Distinct([t[0]] + rest)
  {
    if Distinct(t) {
      var r := [t[0]] + rest;
      assert t[0].0 !in Keys(t[1..]) by {
        forall i | 0 <= i < |t[1..]| ensures t[1..][i].0 != t[0].0 {
          assert t[1..][i] == t[i + 1];
        }
      }
      assert Distinct(t[1..]) by {
        forall i, j | 0 <= i < j < |t[1..]| ensures t[1..][i].0 != t[1..][j].0 {
          assert t[1..][i] == t[i + 1] && t[1..][j] == t[j + 1];
        }
      }
      forall i, j | 0 <= i < j < |r| ensures r[i].0 != r[j].0 {
        if i == 0 {
          assert r[j].0 == rest[j - 1].0 && rest[j - 1].0 in Keys(rest);
        } else {
          assert r[i] == rest[i - 1] && r[j] == rest[j - 1];
        }
      }
    }
  }

  /** The counter after counting `ks` one after another with `Inc`. */
  function IncAll<K(==,!new)>(t: Counter<K>, ks: seq<K>): (r: Counter<K>)
    ensures Total(r) == Total(t) + |ks|
    ensures Distinct(t) ==> Distinct(r)
  {
    if ks == [] then t else Inc(IncAll(t, ks[..|ks| - 1]), ks[|ks| - 1])
  }

  /** Each key's count grows by the number of times it was counted. */
  lemma {:induction false} IncAllGet<K(!new)>(t: Counter<K>, ks: seq<K>, k: K)
    ensures Get(IncAll(t, ks), k) == Get(t, k) + multiset(ks)[k]
    decreases |ks|
  {
    if ks != [] {
      var p := ks[..|ks| - 1];
      IncAllGet(t, p, k);
      assert ks == p + [ks[|ks| - 1]];
      assert multiset(ks) == multiset(p) + multiset{ks[|ks| - 1]};
    }
  }

  /** Counting `a` and then `b` is counting `a + b`. */
  lemma {:induction false} IncAllAppend<K(!new)>(t: Counter<K>, a: seq<K>, b: seq<K>)
    ensures IncAll(t, a + b) == IncAll(IncAll(t, a), b)
    decreases |b|
  {
    if b == [] {
      assert a + b == a;
    } else {
      IncAllAppend(t, a, b[..|b| - 1]);
      assert (a + b)[..|a + b| - 1] == a + b[..|b| - 1];
      assert (a + b)[|a + b| - 1] == b[|b| - 1];
    }
  }
}

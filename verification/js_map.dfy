/**
 * JavaScript's `new Map(pairs)`: one entry per key, kept at the position
 * where the key first occurs, holding the value of its last occurrence.
 */
module JsMap {

  /** The position of `k` among the entries' keys, or -1. */
  function KeyIndex<K(==), V>(entries: seq<(K, V)>, k: K): (r: int)
    ensures -1 <= r < |entries|
    ensures r >= 0 ==> entries[r].0 == k
    ensures r == -1 <==> forall i :: 0 <= i < |entries| ==> entries[i].0 != k
  {
    if entries == [] then -1
    else if entries[|entries| - 1].0 == k then |entries| - 1
    else KeyIndex(entries[..|entries| - 1], k)
  }

  /** Map.prototype.set: replaces the value of a present key in place, appends a new one. */
  function Set<K(==), V>(entries: seq<(K, V)>, k: K, v: V): (r: seq<(K, V)>)
    ensures var i := KeyIndex(entries, k); i >= 0 ==> r == entries[i := (k, v)]
    ensures KeyIndex(entries, k) == -1 ==> r == entries + [(k, v)]
  {
    var i := KeyIndex(entries, k);
    if i >= 0 then entries[i := (k, v)] else entries + [(k, v)]
  }

  /** The entries of `new Map(pairs)`, in the Map's iteration order. */
  function FromPairs<K(==), V>(pairs: seq<(K, V)>): seq<(K, V)> {
    if pairs == [] then [] else Set(FromPairs(pairs[..|pairs| - 1]), pairs[|pairs| - 1].0, pairs[|pairs| - 1].1)
  }

  ghost predicate DistinctKeys<K, V>(entries: seq<(K, V)>) {
    forall a, b :: 0 <= a < b < |entries| ==> entries[a].0 != entries[b].0
  }

  ghost predicate HasKey<K, V>(entries: seq<(K, V)>, k: K) {
    exists i :: 0 <= i < |entries| && entries[i].0 == k
  }

  lemma HasKeyIndex<K, V>(entries: seq<(K, V)>, k: K)
    ensures HasKey(entries, k) <==> KeyIndex(entries, k) >= 0
  {
  }

  lemma HasKeyLast<K, V>(pairs: seq<(K, V)>, k: K)
    requires pairs != []
    ensures HasKey(pairs, k) <==> HasKey(pairs[..|pairs| - 1], k) || pairs[|pairs| - 1].0 == k
  {
    var n := |pairs|;
    if HasKey(pairs, k) && pairs[n - 1].0 != k {
      var i :| 0 <= i < n && pairs[i].0 == k;
      assert pairs[..n - 1][i].0 == k;
    }
    if HasKey(pairs[..n - 1], k) {
      var i :| 0 <= i < n - 1 && pairs[..n - 1][i].0 == k;
      assert pairs[i].0 == k;
    }
  }

  /** Setting a key keeps the keys distinct, adds that key, and keeps every other entry. */
  lemma SetFacts<K, V>(entries: seq<(K, V)>, k: K, v: V)
    requires DistinctKeys(entries)
    ensures DistinctKeys(Set(entries, k, v))
    ensures forall q :: HasKey(Set(entries, k, v), q) <==> HasKey(entries, q) || q == k
    ensures forall e :: e in Set(entries, k, v) ==> e == (k, v) || (e in entries && e.0 != k)
    ensures (k, v) in Set(entries, k, v)
  {
    var r := Set(entries, k, v);
    var x := KeyIndex(entries, k);
    forall q ensures HasKey(r, q) <==> HasKey(entries, q) || q == k {
      if HasKey(r, q) && q != k {
        var i :| 0 <= i < |r| && r[i].0 == q;
        assert entries[i].0 == q;
      }
      if HasKey(entries, q) && q != k {
        var i :| 0 <= i < |entries| && entries[i].0 == q;
        assert r[i].0 == q;
      }
      if q == k {
        if x >= 0 { assert r[x].0 == k; } else { assert r[|entries|].0 == k; }
      }
    }
    forall e | e in r ensures e == (k, v) || (e in entries && e.0 != k) {
      var p :| 0 <= p < |r| && r[p] == e;
      if e != (k, v) {
        assert p < |entries| && entries[p] == e;
      }
    }
    if x >= 0 { assert r[x] == (k, v); } else { assert r[|entries|] == (k, v); }
  }

  /** Each key occurs once, and exactly the keys of the pairs occur. */
  lemma {:induction false} FromPairsKeys<K, V>(pairs: seq<(K, V)>)
    ensures DistinctKeys(FromPairs(pairs))
    ensures forall k :: HasKey(FromPairs(pairs), k) <==> HasKey(pairs, k)
  {
    if pairs != [] {
      var n := |pairs|;
      FromPairsKeys(pairs[..n - 1]);
      SetFacts(FromPairs(pairs[..n - 1]), pairs[n - 1].0, pairs[n - 1].1);
      forall k ensures HasKey(FromPairs(pairs), k) <==> HasKey(pairs, k) {
        HasKeyLast(pairs, k);
      }
    }
  }

  /** FromPairsKeys for one key. */
  lemma FromPairsHasKey<K, V>(pairs: seq<(K, V)>, k: K)
    ensures HasKey(FromPairs(pairs), k) <==> HasKey(pairs, k)
  {
    FromPairsKeys(pairs);
  }

  /** The value of the last pair with key `k`. */
  ghost predicate LastWith<K, V>(pairs: seq<(K, V)>, e: (K, V)) {
    exists i :: 0 <= i < |pairs| && pairs[i] == e && forall j :: i < j < |pairs| ==> pairs[j].0 != e.0
  }

  /** Each entry holds the value of the last pair with its key. */
  lemma {:induction false} FromPairsLastWins<K, V>(pairs: seq<(K, V)>)
    ensures forall e :: e in FromPairs(pairs) ==> LastWith(pairs, e)
  {
    if pairs != [] {
      var n := |pairs|;
      var front := pairs[..n - 1];
      FromPairsLastWins(front);
      FromPairsKeys(front);
      SetFacts(FromPairs(front), pairs[n - 1].0, pairs[n - 1].1);
      forall e | e in FromPairs(pairs) ensures LastWith(pairs, e) {
        if e == pairs[n - 1] {
          assert pairs[n - 1] == e;
        } else {
          LastWithExtend(pairs, e);
        }
      }
    }
  }

  /** A pair that is last for its key among the earlier pairs stays last when a pair with another key follows. */
  lemma LastWithExtend<K, V>(pairs: seq<(K, V)>, e: (K, V))
    requires pairs != [] && LastWith(pairs[..|pairs| - 1], e) && e.0 != pairs[|pairs| - 1].0
    ensures LastWith(pairs, e)
  {
    var n := |pairs|;
    var front := pairs[..n - 1];
    var i :| 0 <= i < n - 1 && front[i] == e && forall j :: i < j < n - 1 ==> front[j].0 != e.0;
    assert pairs[i] == e;
    forall j | i < j < n ensures pairs[j].0 != e.0 {
      if j < n - 1 { assert pairs[j] == front[j]; }
    }
  }

  /** The first position of key `k` in the pairs (|pairs| when absent). */
  function FirstIndex<K(==), V>(pairs: seq<(K, V)>, k: K): (r: nat)
    ensures r <= |pairs|
    ensures r < |pairs| ==> pairs[r].0 == k
    ensures forall j :: 0 <= j < r ==> pairs[j].0 != k
  {
    if pairs == [] then 0 else if pairs[0].0 == k then 0 else 1 + FirstIndex(pairs[1..], k)
  }

  lemma FirstIndexPrefix<K, V>(pairs: seq<(K, V)>, m: nat, k: K)
    requires m <= |pairs| && HasKey(pairs[..m], k)
    ensures FirstIndex(pairs, k) < m
  {
    var i :| 0 <= i < m && pairs[..m][i].0 == k;
    assert pairs[i].0 == k;
  }

  lemma FirstIndexWithin<K, V>(pairs: seq<(K, V)>, m: nat, k: K)
    requires m <= |pairs|
    ensures FirstIndex(pairs, k) < m ==> HasKey(pairs[..m], k)
  {
    var f := FirstIndex(pairs, k);
    if f < m {
      assert pairs[..m][f].0 == k;
    }
  }

  lemma FirstIndexNew<K, V>(pairs: seq<(K, V)>)
    requires pairs != [] && !HasKey(pairs[..|pairs| - 1], pairs[|pairs| - 1].0)
    ensures FirstIndex(pairs, pairs[|pairs| - 1].0) == |pairs| - 1
  {
    FirstIndexWithin(pairs, |pairs| - 1, pairs[|pairs| - 1].0);
  }

  /** FirstIndex in the longer list agrees with the prefix for keys the prefix has. */
  lemma FirstIndexStable<K, V>(pairs: seq<(K, V)>, m: nat, k: K)
    requires m <= |pairs| && HasKey(pairs[..m], k)
    ensures FirstIndex(pairs, k) == FirstIndex(pairs[..m], k)
  {
    FirstIndexPrefix(pairs, m, k);
    var f := FirstIndex(pairs, k);
    var g := FirstIndex(pairs[..m], k);
    assert pairs[..m][f].0 == k;
    if g < |pairs[..m]| {
      assert pairs[g].0 == k;
    }
  }

  ghost predicate InFirstOrder<K, V>(pairs: seq<(K, V)>) {
    var r := FromPairs(pairs);
    forall a, b :: 0 <= a < b < |r| ==> FirstIndex(pairs, r[a].0) < FirstIndex(pairs, r[b].0)
  }

  /** Appending a pair keeps the keys of the earlier entries in place and may add one entry at the end. */
  lemma FromPairsGrows<K, V>(pairs: seq<(K, V)>)
    requires pairs != []
    ensures var prev := FromPairs(pairs[..|pairs| - 1]); var r := FromPairs(pairs);
      && |prev| <= |r| <= |prev| + 1
      && (forall p :: 0 <= p < |prev| ==> r[p].0 == prev[p].0)
      && (|r| == |prev| + 1 ==> r[|prev|] == pairs[|pairs| - 1] && !HasKey(prev, pairs[|pairs| - 1].0))
  {
    var prev := FromPairs(pairs[..|pairs| - 1]);
    HasKeyIndex(prev, pairs[|pairs| - 1].0);
  }

  /** One step of FromPairsFirstOrder: the pair (a, b) after appending the last pair. */
  lemma FirstOrderStep<K, V>(pairs: seq<(K, V)>, a: int, b: int)
    requires pairs != []
    requires InFirstOrder(pairs[..|pairs| - 1])
    requires 0 <= a < b < |FromPairs(pairs)|
    ensures FirstIndex(pairs, FromPairs(pairs)[a].0) < FirstIndex(pairs, FromPairs(pairs)[b].0)
  {
    var n := |pairs|;
    var front := pairs[..n - 1];
    var prev := FromPairs(front);
    var r := FromPairs(pairs);
    FromPairsGrows(pairs);
    assert r[a].0 == prev[a].0;
    EarlierKeyStable(pairs, a);
    if b < |prev| {
      assert r[b].0 == prev[b].0;
      EarlierKeyStable(pairs, b);
      assert FirstIndex(front, prev[a].0) < FirstIndex(front, prev[b].0);
    } else {
      var k := pairs[n - 1].0;
      assert r[b].0 == k && !HasKey(prev, k);
      FromPairsHasKey(front, k);
      FirstIndexNew(pairs);
    }
  }

  /** The key of an earlier entry first occurs in the earlier pairs, at the same place. */
  lemma EarlierKeyStable<K, V>(pairs: seq<(K, V)>, a: int)
    requires pairs != [] && 0 <= a < |FromPairs(pairs[..|pairs| - 1])|
    ensures var k := FromPairs(pairs[..|pairs| - 1])[a].0;
      FirstIndex(pairs, k) == FirstIndex(pairs[..|pairs| - 1], k) < |pairs| - 1
  {
    var n := |pairs|;
    var front := pairs[..n - 1];
    var prev := FromPairs(front);
    var k := prev[a].0;
    assert HasKey(prev, k);
    FromPairsHasKey(front, k);
    FirstIndexStable(pairs, n - 1, k);
    FirstIndexPrefix(pairs, n - 1, k);
  }

  /** Entries are ordered by the first occurrence of their keys. */
  lemma {:induction false} FromPairsFirstOrder<K, V>(pairs: seq<(K, V)>)
    ensures forall a, b :: 0 <= a < b < |FromPairs(pairs)| ==>
      FirstIndex(pairs, FromPairs(pairs)[a].0) < FirstIndex(pairs, FromPairs(pairs)[b].0)
  {
    if pairs != [] {
      FromPairsFirstOrder(pairs[..|pairs| - 1]);
      forall a, b | 0 <= a < b < |FromPairs(pairs)|
        ensures FirstIndex(pairs, FromPairs(pairs)[a].0) < FirstIndex(pairs, FromPairs(pairs)[b].0)
      {
        FirstOrderStep(pairs, a, b);
      }
    }
  }
}

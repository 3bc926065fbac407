/**
 * A JavaScript `Map` used as a counter, `m.set(k, (m.get(k) || 0) + 1)`:
 * its entries in insertion order, one per key.
 */
module Counters {

  type Counts<K> = seq<(K, nat)>

  /** No key occurs twice, as in any `Map`. */
  predicate KeysDistinct<K(==)>(m: Counts<K>) {
    forall i, j :: 0 <= i < j < |m| ==> m[i].0 != m[j].0
  }

  /** `m.get(k) || 0`. */
  function Get<K(==)>(m: Counts<K>, k: K): nat {
    if m == [] then 0
    else if m[|m| - 1].0 == k then m[|m| - 1].1
    else Get(m[..|m| - 1], k)
  }

  predicate HasKey<K(==)>(m: Counts<K>, k: K) {
    exists i :: 0 <= i < |m| && m[i].0 == k
  }

  /** `m.set(k, (m.get(k) || 0) + 1)`: an existing entry is updated in place, a new key is appended. */
  function Bump<K(==)>(m: Counts<K>, k: K): (r: Counts<K>)
    ensures |r| == if HasKey(m, k) then |m| else |m| + 1
  {
    if m == [] then [(k, 1)]
    else if m[|m| - 1].0 == k then m[..|m| - 1] + [(k, m[|m| - 1].1 + 1)]
    else
      var r := Bump(m[..|m| - 1], k) + [m[|m| - 1]];
      assert HasKey(m, k) <==> HasKey(m[..|m| - 1], k) by {
        if HasKey(m, k) {
          var i :| 0 <= i < |m| && m[i].0 == k;
          assert i < |m| - 1 && m[..|m| - 1][i] == m[i];
        }
      }
      r
  }

  /** Bumping every key of `ks` in turn. */
  function BumpAll<K(==)>(m: Counts<K>, ks: seq<K>): Counts<K> {
    if ks == [] then m else Bump(BumpAll(m, ks[..|ks| - 1]), ks[|ks| - 1])
  }

  /** How often `k` occurs in `ks`. */
  function Occurrences<K(==)>(ks: seq<K>, k: K): (n: nat)
    ensures n <= |ks|
  {
    if ks == [] then 0 else Occurrences(ks[..|ks| - 1], k) + (if ks[|ks| - 1] == k then 1 else 0)
  }

  lemma OccurrencesAppend<K>(a: seq<K>, b: seq<K>, k: K)
    ensures Occurrences(a + b, k) == Occurrences(a, k) + Occurrences(b, k)
    decreases |b|
  {
    if b == [] {
      assert a + b == a;
    } else {
      assert (a + b)[..|a + b| - 1] == a + b[..|b| - 1];
      OccurrencesAppend(a, b[..|b| - 1], k);
    }
  }

  /** Bumping `k` adds one to `k`'s count and leaves every other count alone. */
  lemma {:induction false} GetBump<K>(m: Counts<K>, k: K, x: K)
    ensures Get(Bump(m, k), x) == Get(m, x) + (if x == k then 1 else 0)
  {
    if m != [] && m[|m| - 1].0 != k {
      var init := m[..|m| - 1];
      GetBump(init, k, x);
      assert (Bump(init, k) + [m[|m| - 1]])[..|Bump(init, k)|] == Bump(init, k);
    } else if m != [] {
      assert (m[..|m| - 1] + [(k, m[|m| - 1].1 + 1)])[..|m| - 1] == m[..|m| - 1];
    }
  }

  /** After bumping every key of `ks`, each key's count has grown by its number of occurrences. */
  lemma {:induction false} GetBumpAll<K>(m: Counts<K>, ks: seq<K>, x: K)
    ensures Get(BumpAll(m, ks), x) == Get(m, x) + Occurrences(ks, x)
  {
    if ks != [] {
      GetBumpAll(m, ks[..|ks| - 1], x);
      GetBump(BumpAll(m, ks[..|ks| - 1]), ks[|ks| - 1], x);
    }
  }

  lemma {:induction false} BumpAllAppend<K>(m: Counts<K>, a: seq<K>, b: seq<K>)
    ensures BumpAll(m, a + b) == BumpAll(BumpAll(m, a), b)
    decreases |b|
  {
    if b == [] {
      assert a + b == a;
    } else {
      assert (a + b)[..|a + b| - 1] == a + b[..|b| - 1];
      BumpAllAppend(m, a, b[..|b| - 1]);
    }
  }

  /** Bumping keeps the keys distinct. */
  lemma {:induction false} BumpDistinct<K>(m: Counts<K>, k: K)
    requires KeysDistinct(m)
    ensures KeysDistinct(Bump(m, k))
  {
    if m != [] && m[|m| - 1].0 != k {
      var init := m[..|m| - 1];
      BumpDistinct(init, k);
      var r := Bump(init, k);
      forall i | 0 <= i < |r|
        ensures r[i].0 != m[|m| - 1].0
      {
        KeyOfBump(init, k, i);
        if r[i].0 != k {
          var j :| 0 <= j < |init| && init[j].0 == r[i].0;
          assert m[j] == init[j];
        }
      }
    }
  }

  lemma {:induction false} KeyOfBump<K>(m: Counts<K>, k: K, i: nat)
    requires i < |Bump(m, k)|
    ensures Bump(m, k)[i].0 == k || HasKey(m, Bump(m, k)[i].0)
  {
    if m != [] && m[|m| - 1].0 != k {
      var init := m[..|m| - 1];
      if i < |Bump(init, k)| {
        KeyOfBump(init, k, i);
        if Bump(init, k)[i].0 != k {
          var j :| 0 <= j < |init| && init[j].0 == Bump(init, k)[i].0;
          assert m[j] == init[j];
        }
      } else {
        assert Bump(m, k)[i] == m[|m| - 1];
      }
    } else if m != [] && i < |m| - 1 {
      assert Bump(m, k)[i] == m[i];
    }
  }

  lemma {:induction false} BumpAllDistinct<K>(m: Counts<K>, ks: seq<K>)
    requires KeysDistinct(m)
    ensures KeysDistinct(BumpAll(m, ks))
  {
    if ks != [] {
      BumpAllDistinct(m, ks[..|ks| - 1]);
      BumpDistinct(BumpAll(m, ks[..|ks| - 1]), ks[|ks| - 1]);
    }
  }

  /** An entry's count is what `Get` answers for its key. */
  lemma {:induction false} EntryIsGet<K>(m: Counts<K>, i: nat)
    requires KeysDistinct(m) && i < |m|
    ensures Get(m, m[i].0) == m[i].1
  {
    if i < |m| - 1 {
      EntryIsGet(m[..|m| - 1], i);
    }
  }

  /** In any reordering of the counter built from `ks`, each entry holds its key's number of occurrences. */
  lemma PermutedCounts<K>(ks: seq<K>, r: Counts<K>, i: nat)
    requires multiset(r) == multiset(BumpAll([], ks))
    requires i < |r|
    ensures r[i].1 == Occurrences(ks, r[i].0)
  {
    var b := BumpAll([], ks);
    BumpAllDistinct([], ks);
    assert r[i] in multiset(b);
    var j :| 0 <= j < |b| && b[j] == r[i];
    EntryIsGet(b, j);
    GetBumpAll([], ks, r[i].0);
  }
}

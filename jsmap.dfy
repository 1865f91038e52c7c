/**
 * A JavaScript `Map`: an insertion-ordered list of distinct keys with their
 * values. `set` on a present key replaces its value in place and keeps its
 * position; on a new key it appends. `new Map(pairs)` is a series of `set`s,
 * so a key given twice takes the value of its last pair.
 */
module JsMap {
  import opened Wrappers
  import Seqs

  type Entries<K, V> = seq<(K, V)>

  function Keys<K, V>(m: Entries<K, V>): (r: seq<K>)
    ensures |r| == |m| && forall i :: 0 <= i < |m| ==> r[i] == m[i].0
  {
    if m == [] then [] else [m[0].0] + Keys(m[1..])
  }

  predicate KeysDistinct<K(==), V>(m: Entries<K, V>) {
    Seqs.NoDup(Keys(m))
  }

  /** `m.get(k)`. */
  function Get<K(==), V>(m: Entries<K, V>, k: K): (r: Option<V>)
    ensures r.Some? <==> k in Keys(m)
    decreases |m|
  {
    if m == [] then None
    else if m[0].0 == k then Some(m[0].1)
    else Get(m[1..], k)
  }

  /** `m.set(k, v)`. */
  function Set<K(==), V>(m: Entries<K, V>, k: K, v: V): Entries<K, V>
    decreases |m|
  {
    if m == [] then [(k, v)]
    else if m[0].0 == k then [(k, v)] + m[1..]
    else [m[0]] + Set(m[1..], k, v)
  }

  /** `new Map(pairs)`. */
  function FromPairs<K(==), V>(pairs: seq<(K, V)>): Entries<K, V>
    decreases |pairs|
  {
    if pairs == [] then []
    else Set(FromPairs(pairs[..|pairs| - 1]), pairs[|pairs| - 1].0, pairs[|pairs| - 1].1)
  }

  /** The value of the last pair whose key is `k`. */
  function LastFor<K(==), V>(pairs: seq<(K, V)>, k: K): (r: Option<V>)
    ensures r.Some? <==> k in Keys(pairs)
    ensures r.Some? ==> (k, r.value) in pairs
    decreases |pairs|
  {
    if pairs == [] then None
    else if pairs[|pairs| - 1].0 == k then Some(pairs[|pairs| - 1].1)
    else
      assert Keys(pairs) == Keys(pairs[..|pairs| - 1]) + [pairs[|pairs| - 1].0];
      LastFor(pairs[..|pairs| - 1], k)
  }

  /** `set` keeps the key order, appending `k` exactly when it is new. */
  lemma {:induction false} SetKeys<K, V>(m: Entries<K, V>, k: K, v: V)
    ensures Keys(Set(m, k, v)) == if k in Keys(m) then Keys(m) else Keys(m) + [k]
    decreases |m|
  {
    if m != [] && m[0].0 != k {
      SetKeys(m[1..], k, v);
      assert Keys(m) == [m[0].0] + Keys(m[1..]);
      assert Keys(Set(m, k, v)) == [m[0].0] + Keys(Set(m[1..], k, v));
    } else if m != [] {
      assert Keys(Set(m, k, v)) == [k] + Keys(m[1..]);
      assert Keys(m) == [m[0].0] + Keys(m[1..]);
    }
  }

  /** With distinct keys, each entry's key reads back as that entry's value. */
  lemma {:induction false} GetAt<K, V>(m: Entries<K, V>, i: nat)
    requires KeysDistinct(m) && i < |m|
    ensures Get(m, m[i].0) == Some(m[i].1)
    decreases |m|
  {
    if i > 0 {
      assert Keys(m) == [m[0].0] + Keys(m[1..]);
      assert Keys(m)[i] == m[i].0;
      assert m[0].0 != m[i].0;
      assert Seqs.NoDup(Keys(m[1..]));
      assert m[1..][i - 1] == m[i];
      GetAt(m[1..], i - 1);
    }
  }

  /** `set` makes `k` read back as `v` and leaves every other key's value alone. */
  lemma {:induction false} SetGet<K, V>(m: Entries<K, V>, k: K, v: V, k': K)
    ensures Get(Set(m, k, v), k') == if k' == k then Some(v) else Get(m, k')
    decreases |m|
  {
    if m != [] && m[0].0 != k {
      SetGet(m[1..], k, v, k');
    } else if m != [] {
      assert Set(m, k, v)[1..] == m[1..];
    }
  }

  /** `set` keeps keys distinct. */
  lemma SetDistinct<K, V>(m: Entries<K, V>, k: K, v: V)
    requires KeysDistinct(m)
    ensures KeysDistinct(Set(m, k, v))
  {
    SetKeys(m, k, v);
  }

  /**
   * Building a map from pairs gives distinct keys, and each key reads back
   * as the value of its last pair.
   */
  lemma {:induction false} FromPairsLastWins<K, V>(pairs: seq<(K, V)>)
    ensures KeysDistinct(FromPairs(pairs))
    ensures forall k :: Get(FromPairs(pairs), k) == LastFor(pairs, k)
    decreases |pairs|
  {
    if pairs != [] {
      var init := pairs[..|pairs| - 1];
      var last := pairs[|pairs| - 1];
      FromPairsLastWins(init);
      SetDistinct(FromPairs(init), last.0, last.1);
      forall k ensures Get(FromPairs(pairs), k) == LastFor(pairs, k) {
        SetGet(FromPairs(init), last.0, last.1, k);
      }
    }
  }
}

/** Keyed tables enumerated in insertion order, as JavaScript's `Object.values` does. */
module Collections {

  /** No element occurs twice. */
  ghost predicate Distinct<T>(s: seq<T>) {
    forall i, j | 0 <= i < j < |s| :: s[i] != s[j]
  }

  /** `s` lists every key of `m` exactly once. */
  ghost predicate Enumerates<K(!new), V>(s: seq<K>, m: map<K, V>) {
    && Distinct(s)
    && |s| == |m|
    && (forall k :: k in m <==> k in s)
  }

  /** The values of `m` under the keys `ks`, in the order of `ks`. */
  function ValuesAt<K, V>(m: map<K, V>, ks: seq<K>): (vs: seq<V>)
    requires forall k | k in ks :: k in m
    ensures |vs| == |ks|
    ensures forall i | 0 <= i < |ks| :: vs[i] == m[ks[i]]
  {
    if ks == [] then [] else [m[ks[0]]] + ValuesAt(m, ks[1..])
  }

  /** Every value of an enumerated map occurs among its listed values. */
  lemma EnumeratedValues<K(!new), V>(m: map<K, V>, ks: seq<K>)
    requires Enumerates(ks, m)
    ensures forall k | k in m :: m[k] in ValuesAt(m, ks)
  {
    var vs := ValuesAt(m, ks);
    forall k | k in m
      ensures m[k] in vs
    {
      var i :| 0 <= i < |ks| && ks[i] == k;
      assert vs[i] == m[k];
    }
  }

  /** Appending a fresh key to the enumeration of a map enumerates the map with that key added. */
  lemma EnumeratesInsert<K(!new), V>(s: seq<K>, m: map<K, V>, k: K, v: V)
    requires Enumerates(s, m) && k !in m
    ensures Enumerates(s + [k], m[k := v])
  {
  }

  /** Overwriting a key that is already present keeps the enumeration. */
  lemma EnumeratesUpdate<K(!new), V>(s: seq<K>, m: map<K, V>, k: K, v: V)
    requires Enumerates(s, m) && k in m
    ensures Enumerates(s, m[k := v])
  {
  }

  /** The smaller of two integers. */
  function Min(a: int, b: int): (m: int)
    ensures m <= a && m <= b
    ensures m == a || m == b
  {
    if a < b then a else b
  }

  /** The key order after inserting `k`: a key seen for the first time goes last. */
  function Enrolled<K(==)>(s: seq<K>, k: K): (r: seq<K>)
    ensures k in r
  {
    if k in s then s else s + [k]
  }
}

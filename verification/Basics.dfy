/** What several components need and none of them owns. */
module Basics {
  function Min(a: nat, b: nat): nat {
    if a < b then a else b
  }

  /** Every entry of `m` is an entry of `n`. */
  predicate Within<K, V(==)>(m: map<K, V>, n: map<K, V>) {
    forall k :: k in m ==> k in n && m[k] == n[k]
  }

  lemma Assoc<T>(a: seq<T>, b: seq<T>, c: seq<T>)
    ensures a + b + c == a + (b + c)
  {
  }
}

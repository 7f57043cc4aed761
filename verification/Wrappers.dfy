/** Option values and map lookup, shared by every other module. */
module Wrappers {

  datatype Option<+T> = None | Some(value: T)

  /** What a Go map read with the two-value form returns. */
  function Lookup<K, V>(m: map<K, V>, key: K): Option<V> {
    if key in m then Some(m[key]) else None
  }

  function Min(a: nat, b: nat): nat {
    if a <= b then a else b
  }

  /** Maps that look the same under every key are equal. */
  lemma SameLookupsSameMap<K(!new), V(!new)>(a: map<K, V>, b: map<K, V>)
    requires forall key: K :: Lookup(a, key) == Lookup(b, key)
    ensures a == b
  {
    forall key: K ensures key in a <==> key in b { assert Lookup(a, key) == Lookup(b, key); }
    forall key: K | key in a ensures a[key] == b[key] { assert Lookup(a, key) == Lookup(b, key); }
  }
}

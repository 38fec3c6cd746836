/** Shared vocabulary: addresses, optional values, sequences without repeats. */
module Base {
  /** Addresses are opaque values; only the codecs of Staking and Takeover relate them to text. */
  type Addr = string

  datatype Option<+T> = None | Some(value: T)

  /** Decimals are stored as integers scaled by 10^18. */
  const PRECISION: int := 1_000_000_000_000_000_000

  predicate NoDup<T(==)>(xs: seq<T>) {
    forall i, j :: 0 <= i < j < |xs| ==> xs[i] != xs[j]
  }

  /** The keys of a map, in some order: what a store iterator walks over. */
  method Keys<K(==), V>(m: map<K, V>) returns (ks: seq<K>)
    ensures NoDup(ks)
    ensures forall k :: k in ks <==> k in m
  {
    ks := [];
    var rest := m.Keys;
    while rest != {}
      invariant rest <= m.Keys
      invariant NoDup(ks)
      invariant forall k :: k in ks <==> k in m && k !in rest
      decreases rest
    {
      var k :| k in rest;
      ks := ks + [k];
      rest := rest - {k};
    }
  }
}

/** Stock result types, and iteration over the keys of a map in no particular order. */
module Wrappers {

  datatype Option<+T> = None | Some(value: T)

  datatype Result<+T> = Ok(value: T) | Err(error: string)

  /** Each key once, in an arbitrary order. */
  method KeysOf<K(==), V>(m: map<K, V>) returns (keys: seq<K>)
    ensures forall k :: k in m <==> k in keys
    ensures forall i, j :: 0 <= i < j < |keys| ==> keys[i] != keys[j]
    ensures |keys| == |m|
  {
    keys := [];
    var rest := m.Keys;
    while rest != {}
      invariant rest <= m.Keys && |keys| + |rest| == |m|
      invariant forall k :: k in m && k !in rest <==> k in keys
      invariant forall i, j :: 0 <= i < j < |keys| ==> keys[i] != keys[j]
      decreases |rest|
    {
      var k :| k in rest;
      assert k !in keys;
      keys := keys + [k];
      rest := rest - {k};
    }
  }
}

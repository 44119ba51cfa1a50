/** An optional value, the value a map may have for a key, and a sequence backwards. */
module Wrappers {

  datatype Option<+T> = None | Some(value: T)

  function At<K, V>(m: map<K, V>, k: K): Option<V> {
    if k in m then Some(m[k]) else None
  }

  /** Maps that agree at every key are equal. */
  lemma MapsEqual<K(!new), V>(m: map<K, V>, m': map<K, V>)
    requires forall k :: At(m, k) == At(m', k)
    ensures m == m'
  {
    forall k ensures k in m <==> k in m' { assert At(m, k) == At(m', k); }
    forall k | k in m ensures m[k] == m'[k] { assert At(m, k) == At(m', k); }
  }

  function Reversed<E>(s: seq<E>): (r: seq<E>)
    ensures |r| == |s| && forall i :: 0 <= i < |s| ==> r[i] == s[|s| - 1 - i]
  {
    seq(|s|, i requires 0 <= i < |s| => s[|s| - 1 - i])
  }
}

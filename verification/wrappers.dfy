/** Nullable values and failure results shared by the model. */
module Wrappers {

  /** A nullable SQL value: `None` stands for NULL. */
  datatype Option<+T> = None | Some(value: T)

  /** The outcome of a routine that may raise. */
  datatype Result<+R, +E> = Success(value: R) | Failure(error: E)

  /** Looks a key up in a table; `None` when no row has that key. */
  function Get<K, V>(m: map<K, V>, k: K): (r: Option<V>)
    ensures r.Some? <==> k in m
    ensures r.Some? ==> r.value == m[k]
  {
    if k in m then Some(m[k]) else None
  }

  /** Two tables that agree on every lookup are the same table. */
  lemma GetExtensional<K, V>(m1: map<K, V>, m2: map<K, V>)
    requires forall k :: Get(m1, k) == Get(m2, k)
    ensures m1 == m2
  {
    assert m1.Keys == m2.Keys by {
      forall k | k in m1 ensures k in m2 { assert Get(m1, k).Some?; }
      forall k | k in m2 ensures k in m1 { assert Get(m2, k).Some?; }
    }
    forall k | k in m1 ensures m1[k] == m2[k] { assert Get(m1, k) == Get(m2, k); }
  }
}

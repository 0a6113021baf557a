/** Vocabulary shared by every module: optional values, outcomes and bytes. */
module Base {

  datatype Option<+T> = None | Some(value: T)

  datatype Result<+T, +E> = Ok(value: T) | Err(error: E)

  newtype byte = x: int | 0 <= x < 256

  type Bytes = seq<byte>

  /** The value stored under a key, if there is one. */
  function Lookup<K, V>(m: map<K, V>, k: K): Option<V> {
    if k in m then Some(m[k]) else None
  }

  /** `r` has the entries of `above`, and those of `below` for the other keys. */
  ghost predicate Overlays<K(!new), V>(r: map<K, V>, below: map<K, V>, above: map<K, V>) {
    forall k :: Lookup(r, k) == if k in above then Some(above[k]) else Lookup(below, k)
  }

  /** A Go map read: the zero value stands for a missing key. */
  function GetOr<K, V>(m: map<K, V>, k: K, zero: V): V {
    if k in m then m[k] else zero
  }

  function Later(a: int, b: int): int {
    if a < b then b else a
  }

  /** One more key taken off the list of those still to visit. */
  lemma VisitOne<K, V>(base: map<K, V>, items: map<K, V>, remaining: set<K>, k: K)
    requires k in remaining && k in items
    ensures items - (remaining - {k}) == (items - remaining)[k := items[k]]
    ensures base + (items - (remaining - {k})) == (base + (items - remaining))[k := items[k]]
  {
  }

  /** All keys, and no key, still to visit. */
  lemma VisitAllAndNone<K, V>(base: map<K, V>, items: map<K, V>)
    ensures items - items.Keys == map[] && base + (items - items.Keys) == base
    ensures items - {} == items && base + (items - {}) == base + items
  {
  }
}

/** Optional values, minimum and maximum, and choosing elements of finite collections. */
module Basics {

  datatype Option<+T> = None | Some(value: T)

  function Min(a: int, b: int): int { if a < b then a else b }
  function Max(a: int, b: int): int { if a > b then a else b }

  /** Some key of a map: the order of a loop over a map is unspecified. */
  method AnyKey<K(==), V>(m: map<K, V>) returns (k: K)
    requires m.Keys != {}
    ensures k in m
  {
    k :| k in m.Keys;
  }

  lemma KeyOf<K, V>(m: map<K, V>, v: V) returns (k: K)
    requires v in m.Values
    ensures k in m && m[k] == v
  {
    k :| k in m && m[k] == v;
  }
}

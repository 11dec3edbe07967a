/** Outcome types shared by every component of the model. */
module Prelude {
  datatype Option<+T> = None | Some(value: T)

  /** A Python call that either returns or raises. */
  datatype Result<+T, +E> = Ok(value: T) | Err(error: E)

  /** Where the last element with key `k` stands. */
  function Find<T, K(==)>(s: seq<T>, key: T -> K, k: K): (found: Option<nat>)
    ensures found.Some? ==> found.value < |s| && key(s[found.value]) == k
    ensures found.None? ==> forall i | 0 <= i < |s| :: key(s[i]) != k
  {
    if s == [] then None
    else if key(s[|s| - 1]) == k then Some(|s| - 1)
    else Find(s[..|s| - 1], key, k)
  }

  /** The element a dictionary keyed by `key` keeps for `k`: the last one. */
  function Lookup<T, K(==)>(s: seq<T>, key: T -> K, k: K): (found: Option<T>)
    ensures found.Some? ==> found.value in s && key(found.value) == k
    ensures found.None? ==> forall i | 0 <= i < |s| :: key(s[i]) != k
  {
    var i := Find(s, key, k);
    if i.Some? then Some(s[i.value]) else None
  }

  /** What stands first is overridden by any later element with the same key. */
  lemma {:induction false} FirstIsOverridden<T, K>(x: T, s: seq<T>, key: T -> K, k: K)
    requires Lookup(s, key, k).Some?
    ensures Lookup([x] + s, key, k) == Lookup(s, key, k)
  {
    var n := |s| - 1;
    assert ([x] + s)[..|s|] == [x] + s[..n];
    if key(s[n]) != k {
      FirstIsOverridden(x, s[..n], key, k);
    }
  }
}

/** Optional values, for the source's NULL results, and searching a sequence. */
module Wrappers {
  datatype Option<+T> = None | Some(value: T)

  // The index of the first x, or |xs|: strchr, and the item zlist_remove takes out
  function IndexOf<T(==)>(xs: seq<T>, x: T): (k: nat)
    ensures k <= |xs|
    ensures k < |xs| ==> xs[k] == x
    ensures forall i | 0 <= i < k :: xs[i] != x
  {
    if xs == [] || xs[0] == x then 0 else IndexOf(xs[1..], x) + 1
  }
}

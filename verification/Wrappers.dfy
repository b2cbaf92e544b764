/** Values shared by several modules. */
module Wrappers {
  datatype Option<+T> = None | Some(value: T)

  predicate Distinct<T(==)>(xs: seq<T>) { forall i, j :: 0 <= i < j < |xs| ==> xs[i] != xs[j] }

  /** Does a Redis key whose TTL ends at `end` still exist at `now`?  `lastInstant` tells
      whether it does at that very instant. */
  predicate Alive(end: int, now: int, lastInstant: bool) {
    now < end || (lastInstant && now == end)
  }
}

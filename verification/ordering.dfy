/** Orderings shared by the tracker and the array helpers. */
module Ordering {

  /** Every element is at or below every later one. */
  predicate NonDecreasing(s: seq<real>) {
    forall i, j :: 0 <= i < j < |s| ==> s[i] <= s[j]
  }
}

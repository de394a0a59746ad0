/** Order-preserving sub-sequences, used to say that a filter keeps the survivors in order. */
module Subsequence {

  /** `a` can be obtained from `b` by deleting elements, without reordering the rest.
      Matching greedily against the first element is complete for this relation. */
  predicate IsSubsequence<T(==)>(a: seq<T>, b: seq<T>)
    decreases |b|
  {
    if |a| == 0 then true
    else if |b| == 0 then false
    else if a[0] == b[0] then IsSubsequence(a[1..], b[1..])
    else IsSubsequence(a, b[1..])
  }
}

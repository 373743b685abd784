/** Order-preservation facts shared by the filters of the model. */
module Seqs {
  /** `a` can be obtained from `b` by deleting elements, keeping the order of
      the rest (greedy matching decides this correctly). */
  ghost predicate IsSubsequence<T>(a: seq<T>, b: seq<T>)
    decreases |b|
  {
    if a == [] then true
    else if b == [] then false
    else if a[0] == b[0] then IsSubsequence(a[1..], b[1..])
    else IsSubsequence(a, b[1..])
  }
}

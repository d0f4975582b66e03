/** Sequence vocabulary shared by the de-duplication and the filter. */
module Seqs {

  function Min(a: int, b: int): int {
    if a <= b then a else b
  }

  function Max(a: int, b: int): int {
    if a <= b then b else a
  }

  /** Index sequences that pick an order-preserving subsequence. */
  ghost predicate StrictlyIncreasing(idx: seq<nat>) {
    forall a, b :: 0 <= a < b < |idx| ==> idx[a] < idx[b]
  }

  /**
    Python's `s[:k]`: a non-negative bound keeps at most `k` leading items;
    a negative bound drops `-k` items from the end.
   */
  function PyPrefix<T>(s: seq<T>, k: int): (r: seq<T>)
    ensures |r| <= |s| && r == s[..|r|]
    ensures k >= 0 ==> |r| == Min(k, |s|)
    ensures k < 0 ==> |r| == Max(0, |s| + k)
  {
    if k >= 0 then
      if k < |s| then s[..k] else s
    else
      if |s| + k > 0 then s[..|s| + k] else []
  }
}

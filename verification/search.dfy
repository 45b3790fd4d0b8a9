/**
 * Bounded searches over positions. They give `Matcher.find()` its meaning in the URL
 * classifiers: the engine tries start positions from left to right (the least one wins) and,
 * at each greedy `.*` or `.+`, tries the longest extent first (the greatest end position wins).
 */
module Search {
  import opened Wrappers

  /** The least `k` in `[lo, hi)` with `P(k)`. */
  function FirstWhere(lo: nat, hi: nat, P: nat -> bool): (r: Option<nat>)
    ensures r.Some? ==> lo <= r.value < hi && P(r.value)
    ensures forall k :: lo <= k < hi && (r.None? || k < r.value) ==> !P(k)
    decreases hi - lo
  {
    if lo >= hi then None
    else if P(lo) then Some(lo)
    else FirstWhere(lo + 1, hi, P)
  }

  /** The greatest `k` in `[lo, hi)` with `P(k)`. */
  function LastWhere(lo: nat, hi: nat, P: nat -> bool): (r: Option<nat>)
    ensures r.Some? ==> lo <= r.value < hi && P(r.value)
    ensures forall k :: lo <= k < hi && (r.None? || k > r.value) ==> !P(k)
    decreases hi - lo
  {
    if lo >= hi then None
    else if P(hi - 1) then Some(hi - 1)
    else LastWhere(lo, hi - 1, P)
  }
}

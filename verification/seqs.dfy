/** First-match search over a list, as JavaScript's `Array.prototype.find`
    and `xs?.find(p)` do it. */
module Seqs {
  import opened Wrappers

  /** Index of the first element of `xs` at or after `from` that satisfies `p`. */
  function FirstIndexFrom<T>(xs: seq<T>, p: T -> bool, from: nat): (r: Option<nat>)
    ensures r.Some? ==> from <= r.value < |xs| && p(xs[r.value])
    ensures r.Some? ==> forall j :: from <= j < r.value ==> !p(xs[j])
    ensures r.None? ==> forall j :: from <= j < |xs| ==> !p(xs[j])
    decreases |xs| - from
  {
    if from >= |xs| then None
    else if p(xs[from]) then Some(from)
    else FirstIndexFrom(xs, p, from + 1)
  }

  /** `xs?.find(p)`: absent when the list is absent or nothing matches. */
  function Find<T>(xs: Option<seq<T>>, p: T -> bool): (r: Option<T>)
    ensures r.None? <==> xs.None? || forall j :: 0 <= j < |xs.value| ==> !p(xs.value[j])
    ensures r.Some? ==> exists i :: 0 <= i < |xs.value| && xs.value[i] == r.value && p(r.value)
                                    && forall j :: 0 <= j < i ==> !p(xs.value[j])
  {
    match xs
    case None => None
    case Some(s) =>
      match FirstIndexFrom(s, p, 0)
      case None => None
      case Some(i) => Some(s[i])
  }
}

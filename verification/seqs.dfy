/** Searching sequences front to back, as Rust's `Iterator::position` and `Iterator::find`. */
module Seqs {
  import opened Wrappers

  /** `i` is the index of the first element of `xs` that satisfies `p`. */
  ghost predicate IsFirst<T>(xs: seq<T>, i: int, p: T -> bool)
  {
    && 0 <= i < |xs|
    && p(xs[i])
    && forall k :: 0 <= k < i ==> !p(xs[k])
  }

  /** The index of the first element satisfying `p`, or `None` when no element does. */
  function Position<T>(xs: seq<T>, p: T -> bool): (r: Option<nat>)
    ensures r.None? <==> forall k :: 0 <= k < |xs| ==> !p(xs[k])
    ensures r.Some? ==> IsFirst(xs, r.value, p)
  {
    if |xs| == 0 then None
    else if p(xs[0]) then Some(0)
    else match Position(xs[1..], p)
      case None => None
      case Some(i) => Some(i + 1)
  }

  /** The first element satisfying `p`, or `None` when no element does. */
  function Find<T>(xs: seq<T>, p: T -> bool): (r: Option<T>)
    ensures r.None? <==> forall k :: 0 <= k < |xs| ==> !p(xs[k])
    ensures forall i :: IsFirst(xs, i, p) ==> r == Some(xs[i])
  {
    match Position(xs, p)
    case None => None
    case Some(i) => Some(xs[i])
  }

  /** Elements after the first match never influence `Find`. */
  lemma FindStopsAtFirst<T>(pre: seq<T>, x: T, post: seq<T>, p: T -> bool)
    requires forall k :: 0 <= k < |pre| ==> !p(pre[k])
    requires p(x)
    ensures Find(pre + [x] + post, p) == Some(x)
  {
    assert IsFirst(pre + [x] + post, |pre|, p);
  }
}

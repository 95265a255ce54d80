/**
 * Sequence combinators for the "loop over the input, push_back at most one
 * entry per element" shape that the contour filters share.
 */
module Seqs {
  import opened Wrappers

  /** Keeps, in input order, the value `f` produces for each element that produces one. */
  function FilterMap<A, B>(xs: seq<A>, f: A -> Option<B>): (ys: seq<B>)
    ensures |ys| <= |xs|
    decreases |xs|
  {
    if xs == [] then []
    else FilterMap(xs[..|xs| - 1], f) + Emit(f(xs[|xs| - 1]))
  }

  /** The zero- or one-element sequence an element contributes. */
  function Emit<B>(o: Option<B>): (s: seq<B>)
    ensures |s| <= 1
  {
    match o
    case None => []
    case Some(y) => [y]
  }

  /** The indices of the elements for which `f` produces a value, in increasing order. */
  function Kept<A, B>(xs: seq<A>, f: A -> Option<B>): (ks: seq<nat>)
    decreases |xs|
  {
    if xs == [] then []
    else Kept(xs[..|xs| - 1], f) + (if f(xs[|xs| - 1]).Some? then [|xs| - 1] else [])
  }

  /** FilterMap distributes over concatenation: each element is handled on its own. */
  lemma {:induction false} FilterMapAppend<A, B>(xs: seq<A>, ys: seq<A>, f: A -> Option<B>)
    ensures FilterMap(xs + ys, f) == FilterMap(xs, f) + FilterMap(ys, f)
    decreases |ys|
  {
    if ys == [] {
      assert xs + ys == xs;
    } else {
      var zs := ys[..|ys| - 1];
      assert (xs + ys)[..|xs + ys| - 1] == xs + zs;
      assert (xs + ys)[|xs + ys| - 1] == ys[|ys| - 1];
      FilterMapAppend(xs, zs, f);
    }
  }

  /**
   * The output of FilterMap is exactly the values of the kept elements, taken
   * in strictly increasing input position, and every element that produces a
   * value is kept.
   */
  lemma {:induction false} FilterMapOrder<A, B>(xs: seq<A>, f: A -> Option<B>)
    ensures var ys, ks := FilterMap(xs, f), Kept(xs, f);
      && |ks| == |ys|
      && (forall j :: 0 <= j < |ks| ==> ks[j] < |xs| && f(xs[ks[j]]) == Some(ys[j]))
      && (forall j, j' :: 0 <= j < j' < |ks| ==> ks[j] < ks[j'])
      && (forall i :: 0 <= i < |xs| && f(xs[i]).Some? ==> i in ks)
    decreases |xs|
  {
    if xs != [] {
      var init := xs[..|xs| - 1];
      FilterMapOrder(init, f);
      assert forall i :: 0 <= i < |init| ==> init[i] == xs[i];
    }
  }
}

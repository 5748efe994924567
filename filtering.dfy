/**
 * Keep-and-transform over a sequence: each element yields at most one output,
 * appended in input order. This is the shape of the report's record loop.
 */
module Filtering {
  import opened Wrappers

  /** The outputs of `f` over `xs`, in order, skipping the elements it rejects. */
  function FilterMap<T, U>(xs: seq<T>, f: T -> Option<U>): (ys: seq<U>)
    ensures |ys| <= |xs|
  {
    if xs == [] then []
    else
      var ys := FilterMap(xs[..|xs| - 1], f);
      match f(xs[|xs| - 1])
      case Some(y) => ys + [y]
      case None => ys
  }

  /** For each output, the index of the element it came from. */
  function Origins<T, U>(xs: seq<T>, f: T -> Option<U>): (idx: seq<nat>)
    ensures |idx| == |FilterMap(xs, f)|
    ensures forall k :: 0 <= k < |idx| ==> idx[k] < |xs|
  {
    if xs == [] then []
    else
      var n := |xs| - 1;
      var idx := Origins(xs[..n], f);
      if f(xs[n]).Some? then idx + [n] else idx
  }

  /**
   * The outputs form an order-preserving subsequence of the input, one output at
   * most per element, and an element yields an output exactly when `f` accepts it.
   */
  lemma {:induction false} OrderedSubsequence<T, U>(xs: seq<T>, f: T -> Option<U>)
    ensures forall k :: 0 <= k < |Origins(xs, f)| ==> f(xs[Origins(xs, f)[k]]) == Some(FilterMap(xs, f)[k])
    ensures forall k, l :: 0 <= k < l < |Origins(xs, f)| ==> Origins(xs, f)[k] < Origins(xs, f)[l]
    ensures forall i :: 0 <= i < |xs| ==> (i in Origins(xs, f) <==> f(xs[i]).Some?)
  {
    if xs != [] {
      var n := |xs| - 1;
      var front := xs[..n];
      OrderedSubsequence(front, f);
      assert forall i :: 0 <= i < n ==> front[i] == xs[i];
    }
  }

  /** Filtering a concatenation filters each part. */
  lemma {:induction false} FilterMapAppend<T, U>(a: seq<T>, b: seq<T>, f: T -> Option<U>)
    ensures FilterMap(a + b, f) == FilterMap(a, f) + FilterMap(b, f)
  {
    if b == [] {
      assert a + b == a;
    } else {
      var n := |b| - 1;
      assert (a + b)[..|a + b| - 1] == a + b[..n];
      assert (a + b)[|a + b| - 1] == b[n];
      FilterMapAppend(a, b[..n], f);
    }
  }
}

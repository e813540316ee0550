/** List comprehensions with a condition: `[x for x in xs if p(x)]`. */
module Seqs {

  /** The elements of `xs` satisfying `p`, in their order */
  function Filter<T>(xs: seq<T>, p: T -> bool): (r: seq<T>)
    ensures |r| <= |xs|
    ensures forall k :: 0 <= k < |r| ==> p(r[k]) && r[k] in xs
    decreases |xs|
  {
    if xs == [] then []
    else (if p(xs[0]) then [xs[0]] else []) + Filter(xs[1..], p)
  }

  /** Nothing that satisfies `p` is dropped */
  lemma {:induction false} FilterComplete<T>(xs: seq<T>, p: T -> bool, x: T)
    requires x in xs && p(x)
    ensures x in Filter(xs, p)
    decreases |xs|
  {
    if xs[0] != x {
      assert x in xs[1..];
      FilterComplete(xs[1..], p, x);
    }
  }

  /** The filter is empty exactly when no element satisfies `p` */
  lemma FilterEmpty<T>(xs: seq<T>, p: T -> bool)
    ensures Filter(xs, p) == [] <==> forall k :: 0 <= k < |xs| ==> !p(xs[k])
  {
    if exists k :: 0 <= k < |xs| && p(xs[k]) {
      var k :| 0 <= k < |xs| && p(xs[k]);
      FilterComplete(xs, p, xs[k]);
    }
  }
}

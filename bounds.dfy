/** The world bounds `UpdateBounds` computes over the committed samples'
    map coordinates: a running minimum from `FLT_MAX` and maximum from
    `-FLT_MAX`, then any span below 0.001 widened to 0.1. */
module Bounds {
  import opened CArith

  /** Spans narrower than this are widened. */
  const MIN_SPAN: real := 0.001
  /** The span a widened axis gets. */
  const WIDE_SPAN: real := 0.1

  /** One axis' bounds. */
  datatype Range = Range(lo: real, hi: real)

  /** The running minimum over the first `n` values, starting from `FLT_MAX`. */
  function MinOf(xs: seq<real>, n: nat): real
    requires n <= |xs|
  {
    if n == 0 then FLT_MAX
    else
      var m := MinOf(xs, n - 1);
      if xs[n - 1] < m then xs[n - 1] else m
  }

  /** The running maximum over the first `n` values, starting from `-FLT_MAX`. */
  function MaxOf(xs: seq<real>, n: nat): real
    requires n <= |xs|
  {
    if n == 0 then -FLT_MAX
    else
      var m := MaxOf(xs, n - 1);
      if xs[n - 1] > m then xs[n - 1] else m
  }

  /** The upper bound after widening a span below `MIN_SPAN`. */
  function Widened(lo: real, hi: real): real {
    if hi - lo < MIN_SPAN then lo + WIDE_SPAN else hi
  }

  /** The bounds of one axis over all of `xs`. */
  function AxisBounds(xs: seq<real>): Range {
    var lo := MinOf(xs, |xs|);
    Range(lo, Widened(lo, MaxOf(xs, |xs|)))
  }

  /** The running minimum lies below every value seen, and is one of them
      once a value at most `FLT_MAX` has been seen. */
  lemma {:induction false} MinOfIsMinimum(xs: seq<real>, n: nat)
    requires n <= |xs|
    ensures MinOf(xs, n) <= FLT_MAX
    ensures forall i :: 0 <= i < n ==> MinOf(xs, n) <= xs[i]
    ensures n > 0 && (forall i :: 0 <= i < n ==> xs[i] <= FLT_MAX) ==>
      exists i :: 0 <= i < n && MinOf(xs, n) == xs[i]
  {
    if n > 0 {
      MinOfIsMinimum(xs, n - 1);
      if n > 1 && (forall i :: 0 <= i < n ==> xs[i] <= FLT_MAX) {
        var k :| 0 <= k < n - 1 && MinOf(xs, n - 1) == xs[k];
        assert MinOf(xs, n) == xs[k] || MinOf(xs, n) == xs[n - 1];
      }
    }
  }

  /** The running maximum lies above every value seen, and is one of them
      once a value at least `-FLT_MAX` has been seen. */
  lemma {:induction false} MaxOfIsMaximum(xs: seq<real>, n: nat)
    requires n <= |xs|
    ensures MaxOf(xs, n) >= -FLT_MAX
    ensures forall i :: 0 <= i < n ==> xs[i] <= MaxOf(xs, n)
    ensures n > 0 && (forall i :: 0 <= i < n ==> xs[i] >= -FLT_MAX) ==>
      exists i :: 0 <= i < n && MaxOf(xs, n) == xs[i]
  {
    if n > 0 {
      MaxOfIsMaximum(xs, n - 1);
      if n > 1 && (forall i :: 0 <= i < n ==> xs[i] >= -FLT_MAX) {
        var k :| 0 <= k < n - 1 && MaxOf(xs, n - 1) == xs[k];
        assert MaxOf(xs, n) == xs[k] || MaxOf(xs, n) == xs[n - 1];
      }
    }
  }

  /** For at least one value the bounds contain every value and span at
      least `MIN_SPAN`; for finite floats the lower bound is a value and the
      upper one is a value or the lower bound plus `WIDE_SPAN`. With no
      values the bounds stay at `FLT_MAX` and `FLT_MAX + 0.1`. */
  lemma AxisBoundsContain(xs: seq<real>)
    ensures var r := AxisBounds(xs);
      && (|xs| > 0 ==> (forall i :: 0 <= i < |xs| ==> r.lo <= xs[i] <= r.hi) && r.hi - r.lo >= MIN_SPAN)
      && (|xs| > 0 && (forall i :: 0 <= i < |xs| ==> -FLT_MAX <= xs[i] <= FLT_MAX) ==>
            (r.lo in xs) && (r.hi in xs || r.hi == r.lo + WIDE_SPAN))
      && (|xs| == 0 ==> r == Range(FLT_MAX, FLT_MAX + WIDE_SPAN))
  {
    MinOfIsMinimum(xs, |xs|);
    MaxOfIsMaximum(xs, |xs|);
  }
}

/** The integer bookkeeping of `ProcessFile`: the zero-crossing count, the
    64-slot waveform preview, and the file name taken from the path. */
module Features {
  import opened Options

  /** Slots in the waveform preview. */
  const WAVEFORM_RES: nat := 64

  /** Samples `i - 1` and `i` cross zero: their product, in `int`, is negative. */
  predicate IsCrossing(s: seq<int>, i: nat)
    requires 0 < i < |s|
  {
    s[i] * s[i - 1] < 0
  }

  /** The crossings among the first `n` samples. */
  function CrossingsIn(s: seq<int>, n: nat): nat
    requires n <= |s|
  {
    if n <= 1 then 0 else CrossingsIn(s, n - 1) + (if IsCrossing(s, n - 1) then 1 else 0)
  }

  /** The same count as a set: the indices `i` in [1, n) that cross. */
  function CrossingSet(s: seq<int>, n: nat): set<nat>
    requires n <= |s|
  {
    set i: nat | 0 < i < n && IsCrossing(s, i)
  }

  /** A crossing is exactly a strict change of sign, so a zero sample never
      takes part in one. */
  lemma CrossingIsSignChange(s: seq<int>, i: nat)
    requires 0 < i < |s|
    ensures IsCrossing(s, i) <==> (s[i] < 0 < s[i - 1] || s[i - 1] < 0 < s[i])
  {
    var x, y := s[i], s[i - 1];
    if x < 0 && y > 0 {
      assert x * y <= -y by { assert x * y == -((-x) * y); }
    } else if x > 0 && y < 0 {
      assert x * y <= -x by { assert x * y == -(x * (-y)); }
    } else if x >= 0 && y >= 0 {
      assert x * y >= 0;
    } else {
      assert x <= 0 && y <= 0;
      assert x * y == (-x) * (-y);
    }
  }

  /** The counting loop and the set agree. */
  lemma {:induction false} CrossingsAreTheSet(s: seq<int>, n: nat)
    requires n <= |s|
    ensures CrossingsIn(s, n) == |CrossingSet(s, n)|
  {
    if n <= 1 {
      assert CrossingSet(s, n) == {};
    } else {
      CrossingsAreTheSet(s, n - 1);
      var prev := CrossingSet(s, n - 1);
      if IsCrossing(s, n - 1) {
        assert CrossingSet(s, n) == prev + {n - 1};
      } else {
        assert CrossingSet(s, n) == prev;
      }
    }
  }

  /** At most one crossing per adjacent pair: `crossings <= n - 1`. */
  lemma {:induction false} CrossingsBound(s: seq<int>, n: nat)
    requires 1 <= n <= |s|
    ensures CrossingsIn(s, n) <= n - 1
  {
    if n > 1 {
      CrossingsBound(s, n - 1);
    }
  }

  /** A signal that never goes below zero (or never above) has no crossing. */
  lemma {:induction false} OneSignedHasNoCrossings(s: seq<int>, n: nat)
    requires n <= |s|
    requires (forall i :: 0 <= i < n ==> s[i] >= 0) || (forall i :: 0 <= i < n ==> s[i] <= 0)
    ensures CrossingsIn(s, n) == 0
  {
    if n > 1 {
      CrossingIsSignChange(s, n - 1);
      OneSignedHasNoCrossings(s, n - 1);
    }
  }

  /** The preview's stride: `numSamples / 64`, at least 1. */
  function Stride(n: nat): (r: nat)
    ensures r >= 1
  {
    if n / WAVEFORM_RES < 1 then 1 else n / WAVEFORM_RES
  }

  /** A raw sample scaled to [-1, 1). */
  function Normalized(v: int): real {
    v as real / 32768.0
  }

  /** The preview: slot `k` holds sample `k * stride` when there is one, and
      keeps the zero of the cleared buffer otherwise. */
  function Preview(s: seq<int>): (r: seq<real>)
    ensures |r| == WAVEFORM_RES
  {
    var step := Stride(|s|);
    seq(WAVEFORM_RES, k requires 0 <= k < WAVEFORM_RES =>
      if k * step < |s| then Normalized(s[k * step]) else 0.0)
  }

  /** With at least 64 samples every slot is a sample. */
  lemma PreviewFull(s: seq<int>, k: nat)
    requires |s| >= WAVEFORM_RES && k < WAVEFORM_RES
    ensures k * Stride(|s|) < |s|
    ensures Preview(s)[k] == Normalized(s[k * Stride(|s|)])
  {
    var n, step := |s|, |s| / WAVEFORM_RES;
    assert Stride(n) == step;
    assert WAVEFORM_RES * step <= n;
    MulMono(k, WAVEFORM_RES - 1, step);
  }

  lemma MulMono(k: nat, m: nat, step: nat)
    requires k <= m
    ensures k * step <= m * step
  {
    assert m * step - k * step == (m - k) * step;
  }

  /** With fewer than 64 samples the stride is 1: slot `k` is sample `k`
      for `k < n` and stays 0 from `n` on. */
  lemma PreviewShort(s: seq<int>, k: nat)
    requires |s| < WAVEFORM_RES && k < WAVEFORM_RES
    ensures Stride(|s|) == 1
    ensures Preview(s)[k] == if k < |s| then Normalized(s[k]) else 0.0
  {
  }

  /** Sample `i` lands in slot `k` exactly when it is the `k`-th multiple of the stride. */
  lemma SlotOf(i: nat, step: nat, k: nat)
    requires step >= 1
    ensures k * step == i <==> (i % step == 0 && i / step == k)
  {
    var q, m := i / step, i % step;
    assert i == q * step + m;
    if k * step == i {
      var d := k - q;
      assert d * step == m by { assert d * step == k * step - q * step; }
    }
  }

  /** The preview after the samples before `i` have been visited. */
  predicate Filled(v: seq<real>, s: seq<int>, step: nat, i: nat)
    requires step >= 1 && i <= |s|
  {
    |v| == WAVEFORM_RES &&
    forall k :: 0 <= k < WAVEFORM_RES ==>
      v[k] == if k * step < i then Normalized(s[k * step]) else 0.0
  }

  /** The buffer after visiting sample `i` with value `x`: stored into
      slot `i / step` when `i` starts that slot. */
  function Visit(v: seq<real>, x: real, i: nat, step: nat): (r: seq<real>)
    requires step >= 1 && |v| == WAVEFORM_RES
    ensures |r| == WAVEFORM_RES
  {
    if i % step == 0 && i / step < WAVEFORM_RES then v[i / step := x] else v
  }

  /** Visiting sample `i` keeps the buffer filled up to `i + 1`. */
  lemma FilledStep(v: seq<real>, s: seq<int>, step: nat, i: nat)
    requires step >= 1 && i < |s| && Filled(v, s, step, i)
    ensures Filled(Visit(v, Normalized(s[i]), i, step), s, step, i + 1)
  {
    forall k | 0 <= k < WAVEFORM_RES {
      SlotOf(i, step, k);
    }
  }

  /** The preview store for sample `i`: into its slot when it starts one. */
  method Store(visual: array<real>, raw: array<int>, i: nat, step: nat)
    requires visual.Length == WAVEFORM_RES && step >= 1 && i < raw.Length
    modifies visual
    ensures visual[..] == Visit(old(visual[..]), Normalized(raw[i]), i, step)
  {
    if i % step == 0 && i / step < WAVEFORM_RES {
      visual[i / step] := Normalized(raw[i]);
    }
  }

  /** Once every sample is visited, the buffer is the preview. */
  lemma FilledIsPreview(v: seq<real>, s: seq<int>)
    requires Filled(v, s, Stride(|s|), |s|)
    ensures v == Preview(s)
  {
  }

  /** The sample loop of `ProcessFile` without its floating-point sums:
      it counts crossings and fills a cleared 64-slot preview. */
  method Extract(raw: array<int>, n: nat) returns (crossings: nat, preview: seq<real>)
    requires n <= raw.Length
    ensures crossings == CrossingsIn(raw[..n], n)
    ensures preview == Preview(raw[..n])
  {
    ghost var s := raw[..n];
    var visual := new real[WAVEFORM_RES](_ => 0.0);
    var step := n / WAVEFORM_RES;
    if step < 1 {
      step := 1;
    }
    assert step == Stride(n);
    crossings := 0;
    ghost var v := visual[..];
    var i := 0;
    while i < n
      invariant 0 <= i <= n
      invariant crossings == CrossingsIn(s, i)
      invariant v == visual[..] && Filled(v, s, step, i)
    {
      assert raw[i] == s[i] && (i > 0 ==> raw[i - 1] == s[i - 1]);
      if i > 0 && raw[i] * raw[i - 1] < 0 {
        crossings := crossings + 1;
      }
      FilledStep(v, s, step, i);
      Store(visual, raw, i, step);
      v := Visit(v, Normalized(s[i]), i, step);
      i := i + 1;
    }
    preview := visual[..];
    FilledIsPreview(preview, s);
  }

  /** The position of the last `c` in `s`, as `strrchr` finds it. */
  function LastIndexOf(s: string, c: char): (r: Option<nat>)
    ensures r.Some? ==> r.value < |s| && s[r.value] == c
    ensures r.Some? ==> forall j :: r.value < j < |s| ==> s[j] != c
    ensures r.None? ==> forall j :: 0 <= j < |s| ==> s[j] != c
  {
    if s == [] then None
    else if s[|s| - 1] == c then Some(|s| - 1)
    else LastIndexOf(s[..|s| - 1], c)
  }

  /** The file name: what follows the last backslash, or the whole path. */
  function FileName(path: string): (r: string)
    ensures |r| <= |path| && path == path[..|path| - |r|] + r
    ensures '\\' !in r
    ensures |r| < |path| ==> path[|path| - |r| - 1] == '\\'
  {
    match LastIndexOf(path, '\\')
    case None => path
    case Some(k) => path[k + 1..]
  }
}

/** The waveform drawn under the recorder: the meter history is cut into
    `max(1, barCount)` equal chunks by integer division, each chunk becomes its
    mean, and each mean is drawn as a bar whose height fraction is clamped to
    [0.07, 1]. Samples are reals; the geometry reader's width and height are
    `Scalar`s, since SwiftUI may hand over a non-finite size. */
module WaveformView {
  import opened Basics

  // ---------------------------------------------------------------------------
  // Bucketing

  function SafeBarCount(barCount: int): (n: nat)
    ensures n >= 1
    ensures barCount >= 1 ==> n == barCount
  {
    if barCount < 1 then 1 else barCount
  }

  /** `max(1, values.count / safeBarCount)`. */
  function ChunkSize(count: nat, n: nat): (c: nat)
    requires n >= 1
    ensures c >= 1
    ensures count >= n ==> c == count / n
    ensures count < n ==> c == 1
  {
    if count / n < 1 then 1 else count / n
  }

  /** `slice.reduce(0, +)`: a left fold from 0. */
  function Sum(s: seq<real>): real
  {
    if s == [] then 0.0 else Sum(s[..|s| - 1]) + s[|s| - 1]
  }

  function BucketStart(i: nat, c: nat): nat { i * c }

  function BucketEnd(i: nat, c: nat, count: nat): nat
  {
    if i * c + c < count then i * c + c else count
  }

  /** The value of bar `i`: 0 for an empty range, otherwise the mean of the range. */
  function Bucket(values: seq<real>, c: nat, i: nat): real
  {
    var start, end := BucketStart(i, c), BucketEnd(i, c, |values|);
    if start >= end then 0.0 else Sum(values[start..end]) / (end - start) as real
  }

  /** `barValues`: one value per bar, whatever the length of the history. */
  function BarValues(values: seq<real>, barCount: int): (bars: seq<real>)
    ensures |bars| == SafeBarCount(barCount)
    ensures forall i :: 0 <= i < |bars| ==>
      bars[i] == Bucket(values, ChunkSize(|values|, SafeBarCount(barCount)), i)
  {
    var n := SafeBarCount(barCount);
    var c := ChunkSize(|values|, n);
    seq(n, i requires 0 <= i < n => Bucket(values, c, i))
  }

  // ---------------------------------------------------------------------------
  // The bucket ranges

  /** Bucket `i` is the half-open range [i·c, min(i·c + c, count)); ranges come one
      after the other, do not overlap, and the range of a later bucket starts
      where the earlier one ended or later. */
  lemma BucketRangesOrdered(c: nat, count: nat, i: nat, j: nat)
    requires c >= 1 && i < j
    ensures BucketStart(i, c) + c <= count ==> BucketEnd(i, c, count) == BucketStart(i + 1, c)
    ensures BucketEnd(i, c, count) <= BucketStart(j, c)
    ensures BucketStart(i + 1, c) == BucketStart(i, c) + c
  {
    assert j * c >= (i + 1) * c by { MulMonotone(i + 1, j, c); }
  }

  lemma MulMonotone(a: nat, b: nat, c: nat)
    requires a <= b
    ensures a * c <= b * c
  {
  }

  /** Every index below min(n·c, count) lies in exactly the bucket `k / c`. */
  lemma BucketsCover(values: seq<real>, barCount: int, k: nat)
    requires k < |values|
    requires k < SafeBarCount(barCount) * ChunkSize(|values|, SafeBarCount(barCount))
    ensures var c := ChunkSize(|values|, SafeBarCount(barCount));
      k / c < SafeBarCount(barCount)
      && BucketStart(k / c, c) <= k < BucketEnd(k / c, c, |values|)
  {
    var n, c := SafeBarCount(barCount), ChunkSize(|values|, SafeBarCount(barCount));
    var q := k / c;
    DivParts(k, c);
    MulCancel(q, n, c);
  }

  /** The quotient's multiple is at most `k` and within `c` of it. */
  lemma DivParts(k: nat, c: nat)
    requires c >= 1
    ensures (k / c) * c <= k < (k / c) * c + c
  {
  }

  lemma MulCancel(q: nat, n: nat, c: nat)
    requires c >= 1 && q * c < n * c
    ensures q < n
  {
    if q >= n {
      MulMonotone(n, q, c);
    }
  }

  /** No index at or past n·c is in any bucket. */
  lemma TailUnread(c: nat, count: nat, n: nat, i: nat, k: nat)
    requires c >= 1 && i < n && k >= n * c
    ensures !(BucketStart(i, c) <= k < BucketEnd(i, c, count))
  {
    MulMonotone(i + 1, n, c);
  }

  // ---------------------------------------------------------------------------
  // What the bars are

  /** An empty history yields `n` bars of 0. */
  lemma EmptyHistory(barCount: int)
    ensures BarValues([], barCount) == seq(SafeBarCount(barCount), _ => 0.0)
  {
  }

  /** When there are at least as many samples as bars, every bucket holds exactly `c` samples. */
  lemma FullBuckets(count: nat, n: nat, i: nat)
    requires n >= 1 && count >= n && i < n
    ensures BucketEnd(i, ChunkSize(count, n), count) - BucketStart(i, ChunkSize(count, n)) == ChunkSize(count, n)
  {
    var c := count / n;
    assert n * c <= count by { DivMulBound(count, n); }
    MulMonotone(i + 1, n, c);
  }

  lemma DivMulBound(a: nat, b: nat)
    requires b >= 1
    ensures b * (a / b) <= a
  {
  }

  lemma SumSingle(x: real)
    ensures Sum([x]) == x
  {
    assert [x][..0] == [];
  }

  /** With fewer samples than bars, the first bars are the samples themselves and the rest are 0. */
  lemma FewSamples(values: seq<real>, barCount: int, i: nat)
    requires |values| < SafeBarCount(barCount) && i < SafeBarCount(barCount)
    ensures BarValues(values, barCount)[i] == if i < |values| then values[i] else 0.0
  {
    if i < |values| {
      assert values[i..i + 1] == [values[i]];
      SumSingle(values[i]);
    }
  }

  /** Between one and two times as many samples as bars: each bar is one sample,
      and only the first `n` samples are drawn (30 samples in 24 bars use the first 24). */
  lemma OneSamplePerBar(values: seq<real>, barCount: int)
    requires SafeBarCount(barCount) <= |values| < 2 * SafeBarCount(barCount)
    ensures BarValues(values, barCount) == values[..SafeBarCount(barCount)]
  {
    var n := SafeBarCount(barCount);
    assert |values| / n == 1 by { DivOne(|values|, n); }
    forall i | 0 <= i < n ensures BarValues(values, barCount)[i] == values[i] {
      assert values[i..i + 1] == [values[i]];
      SumSingle(values[i]);
    }
  }

  lemma DivOne(a: nat, b: nat)
    requires 1 <= b <= a < 2 * b
    ensures a / b == 1
  {
  }

  /** How many leading samples the buckets cover: min(n·c, count). */
  function UsedCount(count: nat, barCount: int): (m: nat)
    ensures m <= count
  {
    var n := SafeBarCount(barCount);
    var c := ChunkSize(count, n);
    if n * c < count then n * c else count
  }

  /** The bars depend only on the length of the history and on its first n·c samples. */
  lemma BarsIgnoreTail(a: seq<real>, b: seq<real>, barCount: int)
    requires |a| == |b|
    requires a[..UsedCount(|a|, barCount)] == b[..UsedCount(|b|, barCount)]
    ensures BarValues(a, barCount) == BarValues(b, barCount)
  {
    var n := SafeBarCount(barCount);
    var c := ChunkSize(|a|, n);
    var m := UsedCount(|a|, barCount);
    var bars, bars' := BarValues(a, barCount), BarValues(b, barCount);
    forall i | 0 <= i < n ensures bars[i] == bars'[i] {
      BucketEndWithinUsed(c, n, |a|, i);
      SamePrefixSameSlice(a, b, m, BucketStart(i, c), BucketEnd(i, c, |a|));
    }
  }

  lemma BucketEndWithinUsed(c: nat, n: nat, count: nat, i: nat)
    requires c >= 1 && i < n
    ensures BucketEnd(i, c, count) <= if n * c < count then n * c else count
  {
    MulMonotone(i + 1, n, c);
  }

  lemma SamePrefixSameSlice(a: seq<real>, b: seq<real>, m: nat, start: nat, end: nat)
    requires |a| == |b| && m <= |a| && a[..m] == b[..m]
    requires end <= m
    ensures start <= end ==> a[start..end] == b[start..end]
  {
    forall k | start <= k < end ensures a[k] == b[k] {
      assert a[k] == a[..m][k];
    }
  }

  // ---------------------------------------------------------------------------
  // Bounds

  lemma {:induction false} SumBounds(s: seq<real>, lo: real, hi: real)
    requires forall k :: 0 <= k < |s| ==> lo <= s[k] <= hi
    ensures lo * |s| as real <= Sum(s) <= hi * |s| as real
  {
    if s != [] {
      SumBounds(s[..|s| - 1], lo, hi);
    }
  }

  /** A mean lies between the smallest and the largest bound of its samples. */
  lemma MeanBounds(s: seq<real>, lo: real, hi: real)
    requires |s| > 0
    requires forall k :: 0 <= k < |s| ==> lo <= s[k] <= hi
    ensures lo <= Sum(s) / |s| as real <= hi
  {
    SumBounds(s, lo, hi);
    DivBounds(Sum(s), |s| as real, lo, hi);
  }

  lemma DivBounds(x: real, len: real, lo: real, hi: real)
    requires len > 0.0 && lo * len <= x <= hi * len
    ensures lo <= x / len <= hi
  {
  }

  /** Samples in [0, 1] give bars in [0, 1]. */
  lemma BarsInUnitRange(values: seq<real>, barCount: int)
    requires forall k :: 0 <= k < |values| ==> 0.0 <= values[k] <= 1.0
    ensures forall i :: 0 <= i < |BarValues(values, barCount)| ==> 0.0 <= BarValues(values, barCount)[i] <= 1.0
  {
    var n := SafeBarCount(barCount);
    var c := ChunkSize(|values|, n);
    forall i | 0 <= i < n ensures 0.0 <= Bucket(values, c, i) <= 1.0 {
      var start, end := BucketStart(i, c), BucketEnd(i, c, |values|);
      if start < end {
        MeanBounds(values[start..end], 0.0, 1.0);
      }
    }
  }

  // ---------------------------------------------------------------------------
  // Drawing one bar

  /** The reader's size made safe: a non-finite or negative extent counts as 0. */
  function Extent(raw: Scalar): (e: real)
    ensures e >= 0.0
    ensures raw.Finite? && raw.value >= 0.0 ==> e == raw.value
    ensures raw.NonFinite? || raw.value <= 0.0 ==> e == 0.0
  {
    if raw.Finite? then Max(0.0, raw.value) else 0.0
  }

  /** `max(0.07, min(v, 1))` with a non-finite value taken as 0. */
  function Capped(base: Scalar): (f: real)
    ensures 0.07 <= f <= 1.0
    ensures base.Finite? && 0.07 <= base.value <= 1.0 ==> f == base.value
    ensures (base.NonFinite? || base.value <= 0.07) ==> f == 0.07
    ensures base.Finite? && base.value >= 1.0 ==> f == 1.0
  {
    var v := if base.Finite? then base.value else 0.0;
    Max(0.07, Min(v, 1.0))
  }

  function BarHeight(rawHeight: Scalar, base: Scalar): (h: real)
    ensures 0.0 <= h <= Extent(rawHeight)
  {
    var height := Extent(rawHeight);
    Max(0.0, Min(height, Capped(base) * height))
  }

  /** The outer clamp of the bar height never bites: the height is the capped fraction of the view's height. */
  lemma BarHeightIsFraction(rawHeight: Scalar, base: Scalar)
    ensures BarHeight(rawHeight, base) == Capped(base) * Extent(rawHeight)
    ensures BarHeight(rawHeight, base) >= 0.07 * Extent(rawHeight)
  {
    var height, f := Extent(rawHeight), Capped(base);
    MulNonneg(1.0 - f, height);
    MulNonneg(f - 0.07, height);
  }

  lemma MulNonneg(a: real, b: real)
    requires a >= 0.0 && b >= 0.0
    ensures a * b >= 0.0
  {
  }

  /** The vertical offset centres the bar: equal space above and below. */
  function YOffset(rawHeight: Scalar, base: Scalar): (y: real)
    ensures y >= 0.0
    ensures y + BarHeight(rawHeight, base) + y == Extent(rawHeight)
  {
    (Extent(rawHeight) - BarHeight(rawHeight, base)) / 2.0
  }

  /** The bar width: the width left after the one-point gaps, shared out over the bars. */
  function BarWidth(rawWidth: Scalar, barCount: int): (w: real)
    ensures w >= 0.0
    ensures Extent(rawWidth) >= (SafeBarCount(barCount) - 1) as real ==>
      w * SafeBarCount(barCount) as real + (SafeBarCount(barCount) - 1) as real == Extent(rawWidth)
    ensures Extent(rawWidth) <= (SafeBarCount(barCount) - 1) as real ==> w == 0.0
  {
    var n := SafeBarCount(barCount);
    var totalSpacing := (n - 1) as real * 1.0;
    var available := Max(0.0, Extent(rawWidth) - totalSpacing);
    Max(0.0, available / n as real)
  }
}

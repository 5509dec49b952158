/**
 * Segment bookkeeping shared by `welch_psd` and `plot_spectrogram` in
 * analyze_vibration.py: the segment-length clamp, the hop between segment
 * starts, and the start offsets `range(0, N - nperseg + 1, step)`.
 */
module Segmenting {

  /** Python's `int()` on a float: truncation toward zero. */
  function Trunc(r: real): (t: int)
    ensures r >= 0.0 ==> t as real <= r < t as real + 1.0
    ensures r < 0.0 ==> t as real - 1.0 < r <= t as real
  {
    if r >= 0.0 then r.Floor else -((-r).Floor)
  }

  /** `if nperseg > N: nperseg = N`: the segment never outgrows the signal. */
  function ClampLength(nperseg: int, n: nat): (l: int)
    ensures l <= n && l <= nperseg
    ensures l == nperseg || l == n
  {
    if nperseg > n then n else nperseg
  }

  /** `step = int(nperseg * (1.0 - overlap))`, replaced by 1 when it is not positive. */
  function StepFor(nperseg: int, overlap: real): (step: nat)
    ensures step >= 1
  {
    var t := Trunc(nperseg as real * (1.0 - overlap));
    if t <= 0 then 1 else t
  }

  /** With a non-negative overlap consecutive segments touch or overlap: no sample is skipped. */
  lemma StepAtMostLength(nperseg: nat, overlap: real)
    requires nperseg >= 1 && overlap >= 0.0
    ensures StepFor(nperseg, overlap) <= nperseg
  {
    var p := nperseg as real * (1.0 - overlap);
    assert p <= nperseg as real by {
      assert nperseg as real * overlap >= 0.0;
    }
  }

  /** Python's `range(start, stop, step)` for a positive step. */
  function RangeFrom(start: int, stop: int, step: nat): (r: seq<int>)
    requires step >= 1
    ensures forall j :: 0 <= j < |r| ==> start <= r[j] < stop
    decreases stop - start
  {
    if start >= stop then [] else [start] + RangeFrom(start + step, stop, step)
  }

  /** The segment start offsets `range(0, n - l + 1, step)`. */
  function Starts(n: nat, l: int, step: nat): (r: seq<int>)
    requires step >= 1
    ensures forall j :: 0 <= j < |r| ==> 0 <= r[j] && r[j] + l <= n
  {
    RangeFrom(0, n - l + 1, step)
  }

  /** The `j`-th value of a range is `start + j * step`: starts are evenly spaced and strictly increasing. */
  lemma {:induction false} RangeElements(start: int, stop: int, step: nat)
    requires step >= 1
    ensures forall j :: 0 <= j < |RangeFrom(start, stop, step)| ==> RangeFrom(start, stop, step)[j] == start + j * step
    decreases stop - start
  {
    if start < stop {
      var r := RangeFrom(start, stop, step);
      var tail := RangeFrom(start + step, stop, step);
      RangeElements(start + step, stop, step);
      forall j | 0 <= j < |r|
        ensures r[j] == start + j * step
      {
        if j > 0 {
          assert r[j] == tail[j - 1];
          assert (j - 1) * step + step == j * step;
        }
      }
    }
  }

  /** A positive multiple of `d` is at least `d`. */
  lemma {:induction false} MultipleAtLeast(k: int, d: int)
    requires k >= 1 && d >= 1
    ensures k * d >= d
    decreases k
  {
    if k > 1 {
      MultipleAtLeast(k - 1, d);
      assert k * d == (k - 1) * d + d;
    }
  }

  /** Euclidean division is determined by quotient and remainder. */
  lemma DivUnique(a: int, d: int, q: int, r: int)
    requires d >= 1 && a == q * d + r && 0 <= r < d
    ensures a / d == q
  {
    var q0, r0 := a / d, a % d;
    assert (q0 - q) * d == r - r0 by {
      assert q0 * d + r0 == a;
      assert (q0 - q) * d == q0 * d - q * d;
    }
    if q0 > q {
      MultipleAtLeast(q0 - q, d);
    } else if q0 < q {
      MultipleAtLeast(q - q0, d);
    }
  }

  /** `(m - d) / d == m / d - 1` for `m >= d >= 1`. */
  lemma DivLessDivisor(m: int, d: int)
    requires d >= 1 && m >= d
    ensures (m - d) / d == m / d - 1
  {
    var q, r := m / d, m % d;
    assert m - d == (q - 1) * d + r by {
      assert (q - 1) * d == q * d - d;
    }
    DivUnique(m - d, d, q - 1, r);
  }

  /** A range holds `(stop - 1 - start) / step + 1` values when it is not empty. */
  lemma {:induction false} RangeLength(start: int, stop: int, step: nat)
    requires step >= 1
    ensures |RangeFrom(start, stop, step)| == if start >= stop then 0 else (stop - 1 - start) / step + 1
    decreases stop - start
  {
    if start < stop {
      var m := stop - 1 - start;
      assert |RangeFrom(start, stop, step)| == |RangeFrom(start + step, stop, step)| + 1;
      RangeLength(start + step, stop, step);
      if start + step < stop {
        DivLessDivisor(m, step);
        assert m - step == stop - 1 - (start + step);
      } else {
        DivUnique(m, step, 0, m);
      }
    }
  }

  /** The `j`-th start offset is `j * step`. */
  lemma StartsEvenlySpaced(n: nat, l: int, step: nat)
    requires step >= 1
    ensures forall j :: 0 <= j < |Starts(n, l, step)| ==> Starts(n, l, step)[j] == j * step
  {
    RangeElements(0, n - l + 1, step);
  }

  /**
   * The start offsets: there are `(n - l) / step + 1` of them when the
   * segment fits in the signal and none otherwise; the `j`-th is `j * step`;
   * every segment lies inside the signal and the next offset would not.
   */
  lemma StartsShape(n: nat, l: int, step: nat)
    requires step >= 1
    ensures |Starts(n, l, step)| == if l <= n then (n - l) / step + 1 else 0
    ensures forall j :: 0 <= j < |Starts(n, l, step)| ==> Starts(n, l, step)[j] == j * step
    ensures |Starts(n, l, step)| * step + l > n
  {
    RangeLength(0, n - l + 1, step);
    RangeElements(0, n - l + 1, step);
    if l <= n {
      var k := (n - l) / step;
      assert (n - l) == k * step + (n - l) % step;
      assert (k + 1) * step == k * step + step;
    }
  }

  /** With `1 <= l <= n` (the clamp's result on a non-empty signal) offset 0 is always a start. */
  lemma StartsNonEmpty(n: nat, l: int, step: nat)
    requires step >= 1 && 1 <= l <= n
    ensures |Starts(n, l, step)| >= 1 && Starts(n, l, step)[0] == 0
  {
  }
}

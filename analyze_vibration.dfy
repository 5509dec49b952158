/**
 * The spectral estimators of analyze_vibration.py: Welch's averaged
 * periodogram (`welch_psd`), the single-sided amplitude spectrum
 * (`amplitude_spectrum`) and the numeric half of `plot_spectrogram`,
 * together with the segment-length clamp `main` applies before the
 * spectrogram.
 *
 * Samples are exact reals. The cosine tapers and the FFT are floating-point
 * library calls the model does not compute: they are supplied as a
 * `Numerics` value whose only promise is the shape numpy gives them.
 */
module AnalyzeVibration {
  import opened Wrappers
  import opened Series
  import opened Segmenting

  /** The taper a call asks for by name. */
  datatype WindowKind = Hann | Hamming | Rectangular

  /** 'hann' and 'hamming' select those tapers; any other name falls through to `np.ones`. */
  function WindowKindOf(name: string): (k: WindowKind)
    ensures k == Hann <==> name == "hann"
    ensures k == Hamming <==> name == "hamming"
    ensures k == Rectangular <==> name != "hann" && name != "hamming"
  {
    if name == "hann" then Hann else if name == "hamming" then Hamming else Rectangular
  }

  /**
   * `np.hanning(L)`, `np.hamming(L)` and the magnitudes `|np.fft.rfft(s)|`
   * of a real input of length `|s|`.
   */
  datatype Numerics = Numerics(hanning: nat -> seq<real>, hamming: nat -> seq<real>, rfftAbs: seq<real> -> seq<real>)
  {
    /** The shapes numpy guarantees: `L` taper coefficients and `L/2 + 1` transform bins. */
    ghost predicate Valid()
    {
      && (forall l: nat :: |hanning(l)| == l)
      && (forall l: nat :: |hamming(l)| == l)
      && (forall s: seq<real> :: |rfftAbs(s)| == |s| / 2 + 1)
    }
  }

  /** Why an estimator produces no finite result. */
  datatype SpectralError =
    | EmptyTransform     // np.fft.rfft is asked for fewer than one point and raises
    | ZeroWindowEnergy   // U = 0: numpy divides by zero and yields nan/inf
    | ZeroCoherentGain   // cg = 0: numpy divides by zero and yields nan/inf
    | NoSegments         // no column: `Sxx.shape[1]` raises IndexError

  /** Frequency axis and one value per bin. */
  datatype Spectrum = Spectrum(freqs: seq<real>, values: seq<real>)

  /** Frequency axis, time axis and the floored PSD grid (`cells[row][column]`). */
  datatype Spectrogram = Spectrogram(freqs: seq<real>, times: seq<real>, cells: seq<seq<real>>)

  /** `np.finfo(float).eps`, the floor applied before the decibel conversion. */
  const EPS: real := 1.0 / 4503599627370496.0

  // ---------------------------------------------------------------- windows

  /** The taper of length `l` a call builds (lines 33-38, 77-82, 137-142). */
  function Window(kind: WindowKind, l: nat, num: Numerics): (w: seq<real>)
    requires num.Valid()
    ensures |w| == l
    ensures kind == Rectangular ==> forall i :: 0 <= i < l ==> w[i] == 1.0
  {
    match kind
    case Hann => num.hanning(l)
    case Hamming => num.hamming(l)
    case Rectangular => seq(l, _ => 1.0)
  }

  /** Element-wise squares `w**2`. */
  function Squares(w: seq<real>): (q: seq<real>)
    ensures |q| == |w|
    ensures forall i :: 0 <= i < |w| ==> q[i] == w[i] * w[i]
  {
    seq(|w|, i requires 0 <= i < |w| => w[i] * w[i])
  }

  /** The PSD normaliser `U = (w**2).sum()`; never negative. */
  function SumSquares(w: seq<real>): (u: real)
    ensures u >= 0.0
  {
    SumNonNegative(Squares(w));
    Sum(Squares(w))
  }

  /** The coherent gain `cg = w.mean()`. */
  function CoherentGain(w: seq<real>): real
    requires |w| > 0
  {
    Mean(w)
  }

  /** The rectangular window has `U = L` and `cg = 1` exactly. */
  lemma RectangularWindowGains(l: nat, num: Numerics)
    requires l >= 1 && num.Valid()
    ensures SumSquares(Window(Rectangular, l, num)) == l as real
    ensures CoherentGain(Window(Rectangular, l, num)) == 1.0
  {
    var w := Window(Rectangular, l, num);
    SumConstant(Squares(w), 1.0);
    SumConstant(w, 1.0);
  }

  /** Coefficients in [0, 1] give `U <= L` and `0 <= cg <= 1`. */
  lemma UnitWindowBounds(w: seq<real>)
    requires |w| > 0
    requires forall i :: 0 <= i < |w| ==> 0.0 <= w[i] <= 1.0
    ensures SumSquares(w) <= |w| as real
    ensures 0.0 <= CoherentGain(w) <= 1.0
  {
    var q := Squares(w);
    forall i | 0 <= i < |q|
      ensures q[i] <= 1.0
    {
      assert w[i] * w[i] <= 1.0 * w[i];
    }
    SumBoundedAbove(q, 1.0);
    SumBoundedAbove(w, 1.0);
    SumNonNegative(w);
  }

  // ------------------------------------------------------ per-segment power

  /** `seg *= w`. */
  function Taper(seg: seq<real>, w: seq<real>): (t: seq<real>)
    requires |seg| == |w|
    ensures |t| == |w|
  {
    seq(|w|, i requires 0 <= i < |w| => seg[i] * w[i])
  }

  /** `np.abs(X)**2 / norm` bin by bin. */
  function PowerBins(mag: seq<real>, norm: real): (p: seq<real>)
    requires norm > 0.0
    ensures |p| == |mag|
    ensures forall k :: 0 <= k < |p| ==> p[k] >= 0.0
  {
    seq(|mag|, k requires 0 <= k < |mag| => mag[k] * mag[k] / norm)
  }

  /** The PSD normaliser `fs * U`, positive for a positive rate and a window with energy. */
  function PsdScale(fs: real, u: real): (norm: real)
    requires fs > 0.0 && u > 0.0
    ensures norm > 0.0
  {
    fs * u
  }

  /**
   * The periodogram of one segment: optionally mean-detrended, tapered,
   * transformed and divided by `norm = fs * U` (lines 43-48, 149-153).
   */
  function SegmentPsd(seg: seq<real>, w: seq<real>, detrend: bool, norm: real, num: Numerics): (p: seq<real>)
    requires |seg| == |w| && norm > 0.0
    ensures num.Valid() ==> |p| == |w| / 2 + 1
    ensures forall k :: 0 <= k < |p| ==> p[k] >= 0.0
  {
    PowerBins(num.rfftAbs(Taper(if detrend then Detrend(seg) else seg, w)), norm)
  }

  /** The periodogram of the segment at each start, in start order. */
  function SegmentPsds(x: seq<real>, starts: seq<int>, w: seq<real>, detrend: bool, norm: real, num: Numerics): (rows: seq<seq<real>>)
    requires forall j :: 0 <= j < |starts| ==> 0 <= starts[j] && starts[j] + |w| <= |x|
    requires norm > 0.0
    ensures |rows| == |starts|
    ensures forall j :: 0 <= j < |starts| ==> rows[j] == SegmentPsd(x[starts[j]..starts[j] + |w|], w, detrend, norm, num)
    decreases |starts|
  {
    if |starts| == 0 then []
    else [SegmentPsd(x[starts[0]..starts[0] + |w|], w, detrend, norm, num)] + SegmentPsds(x, starts[1..], w, detrend, norm, num)
  }

  /** Column `k` of a row-major table. */
  function Column(rows: seq<seq<real>>, k: nat): (c: seq<real>)
    requires forall j :: 0 <= j < |rows| ==> k < |rows[j]|
    ensures |c| == |rows|
  {
    seq(|rows|, j requires 0 <= j < |rows| => rows[j][k])
  }

  /** `np.mean(np.vstack(rows), axis=0)`: the unweighted bin-wise mean. */
  function BinMean(rows: seq<seq<real>>, width: nat): (m: seq<real>)
    requires |rows| > 0
    requires forall j :: 0 <= j < |rows| ==> |rows[j]| == width
    ensures |m| == width
  {
    seq(width, k requires 0 <= k < width => Mean(Column(rows, k)))
  }

  /** Averaging non-negative periodograms gives a non-negative estimate. */
  lemma BinMeanNonNegative(rows: seq<seq<real>>, width: nat)
    requires |rows| > 0
    requires forall j :: 0 <= j < |rows| ==> |rows[j]| == width
    requires forall j, k :: 0 <= j < |rows| && 0 <= k < width ==> rows[j][k] >= 0.0
    ensures forall k :: 0 <= k < width ==> BinMean(rows, width)[k] >= 0.0
  {
    forall k | 0 <= k < width
      ensures BinMean(rows, width)[k] >= 0.0
    {
      SumNonNegative(Column(rows, k));
    }
  }

  /** The mean of a single periodogram is that periodogram. */
  lemma BinMeanOfOne(row: seq<real>)
    ensures BinMean([row], |row|) == row
  {
    forall k | 0 <= k < |row|
      ensures BinMean([row], |row|)[k] == row[k]
    {
      var c := Column([row], k);
      assert c == [row[k]];
      assert c[..0] == [];
      assert Sum(c) == Sum([]) + row[k];
      assert BinMean([row], |row|)[k] == Mean(c);
    }
  }

  /** `np.fft.rfftfreq(l, d=1.0/fs)`: bin `k` sits at `k * (1 / (l * d)) = k * (fs / l)`. */
  function RfftFreqs(l: nat, fs: real): (f: seq<real>)
    requires l >= 1
    ensures |f| == l / 2 + 1
  {
    seq(l / 2 + 1, k requires 0 <= k < l / 2 + 1 => k as real * (fs / l as real))
  }

  /** Strictly increasing. */
  ghost predicate Increasing(f: seq<real>)
  {
    forall i, j :: 0 <= i < j < |f| ==> f[i] < f[j]
  }

  /** A product of positive reals is positive. */
  lemma ProductPositive(a: real, b: real)
    requires a > 0.0 && b > 0.0
    ensures a * b > 0.0
  {
  }

  /** Scaling by a positive factor keeps the order of two reals. */
  lemma ScaleMonotone(a: real, b: real, c: real)
    requires a <= b && c > 0.0
    ensures a * c <= b * c
    ensures a < b ==> a * c < b * c
  {
    ProductPositive(c, 1.0);
    if a < b {
      ProductPositive(b - a, c);
    }
  }

  /** Bin `k` of the axis is `k` bin widths above DC. */
  lemma RfftFreqAt(l: nat, fs: real, k: nat)
    requires l >= 1 && k <= l / 2
    ensures RfftFreqs(l, fs)[k] == k as real * (fs / l as real)
  {
  }

  /** The frequency axis is strictly increasing. */
  lemma RfftFreqsIncreasing(l: nat, fs: real)
    requires l >= 1 && fs > 0.0
    ensures Increasing(RfftFreqs(l, fs))
  {
    var f := RfftFreqs(l, fs);
    var step := fs / l as real;
    forall i, j | 0 <= i < j < |f|
      ensures f[i] < f[j]
    {
      RfftFreqAt(l, fs, i);
      RfftFreqAt(l, fs, j);
      ScaleMonotone(i as real, j as real, step);
    }
  }

  /** No bin lies above the Nyquist rate `fs / 2`. */
  lemma RfftFreqsBelowNyquist(l: nat, fs: real)
    requires l >= 1 && fs > 0.0
    ensures forall k :: 0 <= k <= l / 2 ==> 2.0 * RfftFreqs(l, fs)[k] <= fs
  {
    var step := fs / l as real;
    assert l as real * step == fs;
    forall k | 0 <= k <= l / 2
      ensures 2.0 * RfftFreqs(l, fs)[k] <= fs
    {
      RfftFreqAt(l, fs, k);
      assert 2.0 * (k as real * step) == (2 * k) as real * step;
      ScaleMonotone((2 * k) as real, l as real, step);
    }
  }

  /** The last bin is the Nyquist rate exactly when `l` is even. */
  lemma RfftFreqsLastBin(l: nat, fs: real)
    requires l >= 1 && fs > 0.0
    ensures 2.0 * RfftFreqs(l, fs)[l / 2] == fs <==> l % 2 == 0
  {
    var step := fs / l as real;
    var m := l / 2;
    assert l as real * step == fs;
    RfftFreqAt(l, fs, m);
    assert 2.0 * (m as real * step) == (2 * m) as real * step;
    if l % 2 == 1 {
      ScaleMonotone((2 * m) as real, l as real, step);
    }
  }

  /**
   * The frequency axis starts at DC, rises by `fs / l` per bin and ends at
   * the Nyquist rate `fs / 2` exactly when `l` is even, below it when odd.
   */
  lemma RfftFreqsAxis(l: nat, fs: real)
    requires l >= 1 && fs > 0.0
    ensures RfftFreqs(l, fs)[0] == 0.0
    ensures Increasing(RfftFreqs(l, fs))
    ensures forall k :: 0 <= k < l / 2 ==> RfftFreqs(l, fs)[k + 1] - RfftFreqs(l, fs)[k] == fs / l as real
    ensures forall k :: 0 <= k <= l / 2 ==> 2.0 * RfftFreqs(l, fs)[k] <= fs
    ensures 2.0 * RfftFreqs(l, fs)[l / 2] == fs <==> l % 2 == 0
  {
    var step := fs / l as real;
    forall k | 0 <= k < l / 2
      ensures RfftFreqs(l, fs)[k + 1] - RfftFreqs(l, fs)[k] == step
    {
      RfftFreqAt(l, fs, k);
      RfftFreqAt(l, fs, k + 1);
      assert (k + 1) as real * step == k as real * step + step;
    }
    RfftFreqsIncreasing(l, fs);
    RfftFreqsBelowNyquist(l, fs);
    RfftFreqsLastBin(l, fs);
  }

  // --------------------------------------------------------------- welch_psd

  /**
   * The zero-padded single segment of lines 51-61: the whole signal,
   * optionally detrended, padded on the right to the window length. Where
   * numpy would fail instead (a signal longer than the window, a zero
   * normaliser) the result is empty; `WelchNeverFallsBack` shows the
   * fallback is never taken at all.
   */
  function FallbackPsd(x: seq<real>, w: seq<real>, detrend: bool, norm: real, num: Numerics): seq<real>
  {
    var seg := if detrend then Detrend(x) else x;
    var padded := if |seg| < |w| then seg + seq(|w| - |seg|, _ => 0.0) else seg;
    if |padded| == |w| && norm > 0.0 then SegmentPsd(padded, w, false, norm, num) else []
  }

  /**
   * The averaging step of lines 40-63: the periodogram of every segment
   * that fits, averaged bin by bin, or the zero-padded fallback when none fits.
   */
  function WelchAverage(x: seq<real>, w: seq<real>, step: nat, detrend: bool, norm: real, num: Numerics): seq<real>
    requires 1 <= |w| && step >= 1 && norm > 0.0 && num.Valid()
  {
    var segments := SegmentPsds(x, Starts(|x|, |w|, step), w, detrend, norm, num);
    if |segments| == 0 then FallbackPsd(x, w, detrend, norm, num) else BinMean(segments, |w| / 2 + 1)
  }

  /** `welch_psd(x, fs, nperseg, overlap, window, detrend)` (lines 20-66). */
  function Welch(x: seq<real>, fs: real, nperseg: int, overlap: real, kind: WindowKind, detrend: bool, num: Numerics): Result<Spectrum, SpectralError>
    requires fs > 0.0 && num.Valid()
  {
    var l := ClampLength(nperseg, |x|);
    if l < 1 then Failure(EmptyTransform)
    else
      var w := Window(kind, l, num);
      var u := SumSquares(w);
      if u == 0.0 then Failure(ZeroWindowEnergy)
      else
        Success(Spectrum(RfftFreqs(l, fs), WelchAverage(x, w, StepFor(l, overlap), detrend, PsdScale(fs, u), num)))
  }

  /**
   * When the segment fits in the signal, offset 0 is a start and the
   * estimate is the bin-wise mean of the segment periodograms: the
   * zero-padding fallback is not taken.
   */
  lemma AverageNeverFallsBack(x: seq<real>, w: seq<real>, step: nat, detrend: bool, norm: real, num: Numerics)
    requires 1 <= |w| <= |x| && step >= 1 && norm > 0.0 && num.Valid()
    ensures var starts := Starts(|x|, |w|, step);
            && |starts| >= 1 && starts[0] == 0
            && WelchAverage(x, w, step, detrend, norm, num) == BinMean(SegmentPsds(x, starts, w, detrend, norm, num), |w| / 2 + 1)
  {
    StartsNonEmpty(|x|, |w|, step);
  }

  /** When the segment fits, the average has one non-negative value per bin of an `|w|`-point transform. */
  lemma AverageShape(x: seq<real>, w: seq<real>, step: nat, detrend: bool, norm: real, num: Numerics)
    requires 1 <= |w| <= |x| && step >= 1 && norm > 0.0 && num.Valid()
    ensures |WelchAverage(x, w, step, detrend, norm, num)| == |w| / 2 + 1
    ensures forall k :: 0 <= k < |w| / 2 + 1 ==> WelchAverage(x, w, step, detrend, norm, num)[k] >= 0.0
  {
    AverageNeverFallsBack(x, w, step, detrend, norm, num);
    BinMeanNonNegative(SegmentPsds(x, Starts(|x|, |w|, step), w, detrend, norm, num), |w| / 2 + 1);
  }

  /**
   * A clamped segment length of at least 1 always fits in the signal, so
   * the zero-padding fallback is never taken; when the clamp leaves fewer
   * than one point (an empty signal, or a non-positive request) the
   * transform is rejected instead.
   */
  lemma WelchNeverFallsBack(x: seq<real>, fs: real, nperseg: int, overlap: real, kind: WindowKind, detrend: bool, num: Numerics)
    requires fs > 0.0 && num.Valid()
    ensures |x| == 0 || nperseg < 1 ==> Welch(x, fs, nperseg, overlap, kind, detrend, num) == Failure(EmptyTransform)
    ensures var l := ClampLength(nperseg, |x|);
            l >= 1 && SumSquares(Window(kind, l, num)) > 0.0 ==>
              var w := Window(kind, l, num);
              var starts := Starts(|x|, l, StepFor(l, overlap));
              && |starts| >= 1 && starts[0] == 0
              && Welch(x, fs, nperseg, overlap, kind, detrend, num)
                 == Success(Spectrum(RfftFreqs(l, fs), BinMean(SegmentPsds(x, starts, w, detrend, PsdScale(fs, SumSquares(w)), num), l / 2 + 1)))
  {
    if ClampLength(nperseg, |x|) >= 1 && SumSquares(Window(kind, ClampLength(nperseg, |x|), num)) > 0.0 {
      AverageNeverFallsBack(x, Window(kind, ClampLength(nperseg, |x|), num), StepFor(ClampLength(nperseg, |x|), overlap),
                            detrend, PsdScale(fs, SumSquares(Window(kind, ClampLength(nperseg, |x|), num))), num);
      assert Welch(x, fs, nperseg, overlap, kind, detrend, num).value.values
             == WelchAverage(x, Window(kind, ClampLength(nperseg, |x|), num), StepFor(ClampLength(nperseg, |x|), overlap),
                             detrend, PsdScale(fs, SumSquares(Window(kind, ClampLength(nperseg, |x|), num))), num);
    }
  }

  /**
   * `welch_psd` fails exactly when the clamped length is below 1 or the
   * window has no energy; otherwise it returns `l/2 + 1` frequencies and as
   * many non-negative PSD values, with `l = min(nperseg, N)`.
   */
  lemma WelchEstimate(x: seq<real>, fs: real, nperseg: int, overlap: real, kind: WindowKind, detrend: bool, num: Numerics)
    requires fs > 0.0 && num.Valid()
    ensures var l := ClampLength(nperseg, |x|);
            var failed := l < 1 || SumSquares(Window(kind, l, num)) == 0.0;
            Welch(x, fs, nperseg, overlap, kind, detrend, num).Failure? <==> failed
    ensures var r := Welch(x, fs, nperseg, overlap, kind, detrend, num);
            var l := ClampLength(nperseg, |x|);
            r.Success? ==>
              && 1 <= l <= |x| && l <= nperseg
              && |r.value.freqs| == l / 2 + 1 && |r.value.values| == l / 2 + 1
              && forall k :: 0 <= k < |r.value.values| ==> r.value.values[k] >= 0.0
  {
    if ClampLength(nperseg, |x|) >= 1 && SumSquares(Window(kind, ClampLength(nperseg, |x|), num)) > 0.0 {
      AverageShape(x, Window(kind, ClampLength(nperseg, |x|), num), StepFor(ClampLength(nperseg, |x|), overlap),
                   detrend, PsdScale(fs, SumSquares(Window(kind, ClampLength(nperseg, |x|), num))), num);
      assert Welch(x, fs, nperseg, overlap, kind, detrend, num).value.values
             == WelchAverage(x, Window(kind, ClampLength(nperseg, |x|), num), StepFor(ClampLength(nperseg, |x|), overlap),
                             detrend, PsdScale(fs, SumSquares(Window(kind, ClampLength(nperseg, |x|), num))), num);
    }
  }

  /** `seg = seg - seg.mean()` on the segment buffer. */
  method DetrendInPlace(seg: array<real>)
    requires seg.Length > 0
    modifies seg
    ensures seg[..] == Detrend(old(seg[..]))
  {
    ghost var before := seg[..];
    var m := Mean(seg[..]);
    forall i | 0 <= i < seg.Length {
      seg[i] := seg[i] - m;
    }
    assert seg[..] == Shifted(before, m);
  }

  /** `seg *= w` on the segment buffer. */
  method TaperInPlace(seg: array<real>, w: seq<real>)
    requires seg.Length == |w|
    modifies seg
    ensures seg[..] == Taper(old(seg[..]), w)
  {
    ghost var before := seg[..];
    forall i | 0 <= i < seg.Length {
      seg[i] := seg[i] * w[i];
    }
    assert forall i :: 0 <= i < seg.Length ==> seg[..][i] == Taper(before, w)[i];
  }

  /** One pass of the segment loop body: copy the slice, detrend and taper it in place, transform. */
  method SegmentPower(x: seq<real>, start: nat, w: seq<real>, detrend: bool, norm: real, num: Numerics) returns (p: seq<real>)
    requires 1 <= |w| && start + |w| <= |x| && norm > 0.0
    ensures p == SegmentPsd(x[start..start + |w|], w, detrend, norm, num)
  {
    var seg := new real[|w|](i requires 0 <= i < |w| => x[start + i]);
    assert seg[..] == x[start..start + |w|];
    if detrend {
      DetrendInPlace(seg);
    }
    TaperInPlace(seg, w);
    p := PowerBins(num.rfftAbs(seg[..]), norm);
  }

  /** A list holding the periodogram of each start, in order, is `SegmentPsds`. */
  lemma SegmentPsdsUnique(x: seq<real>, starts: seq<int>, w: seq<real>, detrend: bool, norm: real, num: Numerics, rows: seq<seq<real>>)
    requires forall j :: 0 <= j < |starts| ==> 0 <= starts[j] && starts[j] + |w| <= |x|
    requires norm > 0.0
    requires |rows| == |starts|
    requires forall j :: 0 <= j < |rows| ==> rows[j] == SegmentPsd(x[starts[j]..starts[j] + |w|], w, detrend, norm, num)
    ensures rows == SegmentPsds(x, starts, w, detrend, norm, num)
  {
    var expected := SegmentPsds(x, starts, w, detrend, norm, num);
    assert forall j :: 0 <= j < |rows| ==> rows[j] == expected[j];
  }

  /** The loop `for start in range(0, N - nperseg + 1, step)`, appending one periodogram per start. */
  method CollectSegments(x: seq<real>, w: seq<real>, step: nat, detrend: bool, norm: real, num: Numerics)
    returns (segments: seq<seq<real>>)
    requires 1 <= |w| && step >= 1 && norm > 0.0
    ensures segments == SegmentPsds(x, Starts(|x|, |w|, step), w, detrend, norm, num)
  {
    var stop := |x| - |w| + 1;
    ghost var starts := RangeFrom(0, stop, step);
    segments := [];
    var start := 0;
    while start < stop
      invariant |segments| <= |starts|
      invariant starts[|segments|..] == RangeFrom(start, stop, step)
      invariant forall j :: 0 <= j < |segments| ==> segments[j] == SegmentPsd(x[starts[j]..starts[j] + |w|], w, detrend, norm, num)
      decreases stop - start
    {
      var p := SegmentPower(x, start, w, detrend, norm, num);
      RangeAdvance(starts, |segments|, start, stop, step);
      segments := segments + [p];
      start := start + step;
    }
    SegmentPsdsUnique(x, starts, w, detrend, norm, num, segments);
  }

  /** The loop's position in a range moves to the next value, which is the next start. */
  lemma RangeAdvance(starts: seq<int>, k: nat, start: int, stop: int, step: nat)
    requires step >= 1 && k <= |starts| && start < stop
    requires starts[k..] == RangeFrom(start, stop, step)
    ensures k < |starts| && starts[k] == start
    ensures starts[k + 1..] == RangeFrom(start + step, stop, step)
  {
    assert starts[k..][0] == start;
    assert starts[k + 1..] == starts[k..][1..];
  }

  /** Lines 40-63 as the source runs them: the segment loop, then the average or the fallback. */
  method AverageSegments(x: seq<real>, w: seq<real>, step: nat, detrend: bool, norm: real, num: Numerics)
    returns (psd: seq<real>)
    requires 1 <= |w| && step >= 1 && norm > 0.0 && num.Valid()
    ensures psd == WelchAverage(x, w, step, detrend, norm, num)
  {
    var segments := CollectSegments(x, w, step, detrend, norm, num);
    if |segments| == 0 {
      psd := FallbackPsd(x, w, detrend, norm, num);
    } else {
      psd := BinMean(segments, |w| / 2 + 1);
    }
  }

  /** `welch_psd` as the source runs it: clamp, step, window, segment loop, average. */
  method WelchPsd(x: seq<real>, fs: real, nperseg: int, overlap: real, kind: WindowKind, detrend: bool, num: Numerics)
    returns (r: Result<Spectrum, SpectralError>)
    requires fs > 0.0 && num.Valid()
    ensures r == Welch(x, fs, nperseg, overlap, kind, detrend, num)
  {
    var n := |x|;
    var l := nperseg;
    if l > n {
      l := n;
    }
    var step := StepFor(l, overlap);
    if l < 1 {
      return Failure(EmptyTransform);
    }
    var w := Window(kind, l, num);
    var u := SumSquares(w);
    if u == 0.0 {
      return Failure(ZeroWindowEnergy);
    }
    var psd := AverageSegments(x, w, step, detrend, PsdScale(fs, u), num);
    r := Success(Spectrum(RfftFreqs(l, fs), psd));
  }

  // ------------------------------------------------------ amplitude_spectrum

  /** Bin `k` of an `n`-point real transform stands for two bins, `k` and `n - k`, of the full transform. */
  predicate Mirrored(k: int, n: nat)
  {
    0 < k && 2 * k < n
  }

  /** The single-sided correction: every bin with a negative-frequency twin counts twice. */
  function SingleSided(amp: seq<real>, n: nat): (r: seq<real>)
    ensures |r| == |amp|
  {
    seq(|amp|, k requires 0 <= k < |amp| => if Mirrored(k, n) then 2.0 * amp[k] else amp[k])
  }

  /** `np.abs(X) / d`. */
  function Scaled(mag: seq<real>, d: real): (r: seq<real>)
    requires d != 0.0
    ensures |r| == |mag|
    ensures forall k :: 0 <= k < |mag| ==> r[k] * d == mag[k]
  {
    seq(|mag|, k requires 0 <= k < |mag| => mag[k] / d)
  }

  /** The amplitude normaliser `N * cg`, non-zero for a non-empty signal and a window of non-zero gain. */
  function AmplitudeScale(n: nat, cg: real): (d: real)
    requires n >= 1 && cg != 0.0
    ensures d != 0.0
  {
    n as real * cg
  }

  /** `amplitude_spectrum(x, fs, window, detrend)` (lines 68-95). */
  function AmplitudeSpectrum(x: seq<real>, fs: real, kind: WindowKind, detrend: bool, num: Numerics): Result<Spectrum, SpectralError>
    requires fs > 0.0 && num.Valid()
  {
    var n := |x|;
    if n == 0 then Failure(EmptyTransform)
    else
      var xs := if detrend then Detrend(x) else x;
      var w := Window(kind, n, num);
      var mag := num.rfftAbs(Taper(xs, w));
      var cg := CoherentGain(w);
      if cg == 0.0 then Failure(ZeroCoherentGain)
      else Success(Spectrum(RfftFreqs(n, fs), SingleSided(Scaled(mag, AmplitudeScale(n, cg)), n)))
  }

  /**
   * The doubling rule: the DC bin is kept; for even `n` the last (Nyquist)
   * bin is kept and bins `1 .. n/2 - 1` are doubled; for odd `n` every bin
   * but DC is doubled.
   */
  lemma SingleSidedRule(amp: seq<real>, n: nat)
    requires n >= 1 && |amp| == n / 2 + 1
    ensures SingleSided(amp, n)[0] == amp[0]
    ensures n % 2 == 0 ==> SingleSided(amp, n)[n / 2] == amp[n / 2]
    ensures n % 2 == 0 ==> forall k :: 1 <= k < n / 2 ==> SingleSided(amp, n)[k] == 2.0 * amp[k]
    ensures n % 2 == 1 ==> forall k :: 1 <= k <= n / 2 ==> SingleSided(amp, n)[k] == 2.0 * amp[k]
  {
  }

  /**
   * `amp[1:-1] *= 2.0` for even `n`, `amp[1:] *= 2.0` for odd `n`: exactly
   * the bins with a negative-frequency twin are doubled.
   */
  method DoubleSingleSided(amp: array<real>, n: nat)
    requires amp.Length == n / 2 + 1
    modifies amp
    ensures amp[..] == SingleSided(old(amp[..]), n)
  {
    ghost var before := amp[..];
    if n % 2 == 0 {
      forall k | 1 <= k < amp.Length - 1 {
        amp[k] := 2.0 * amp[k];
      }
    } else {
      forall k | 1 <= k < amp.Length {
        amp[k] := 2.0 * amp[k];
      }
    }
    assert forall k :: 0 <= k < amp.Length ==> amp[..][k] == SingleSided(before, n)[k];
  }

  /** `amp = np.abs(X) / (N * cg)` into a fresh buffer. */
  method ScaledBuffer(mag: seq<real>, d: real) returns (amp: array<real>)
    requires d != 0.0
    ensures fresh(amp)
    ensures amp[..] == Scaled(mag, d)
  {
    amp := new real[|mag|](k requires 0 <= k < |mag| => mag[k] / d);
    assert forall k :: 0 <= k < amp.Length ==> amp[..][k] == Scaled(mag, d)[k];
  }

  /** `amplitude_spectrum` as the source runs it, doubling in place. */
  method ComputeAmplitudeSpectrum(x: seq<real>, fs: real, kind: WindowKind, detrend: bool, num: Numerics)
    returns (r: Result<Spectrum, SpectralError>)
    requires fs > 0.0 && num.Valid()
    ensures r == AmplitudeSpectrum(x, fs, kind, detrend, num)
  {
    var n := |x|;
    if n == 0 {
      return Failure(EmptyTransform);
    }
    var xs := x;
    if detrend {
      xs := Detrend(x);
    }
    var w := Window(kind, n, num);
    var mag := num.rfftAbs(Taper(xs, w));
    var cg := CoherentGain(w);
    if cg == 0.0 {
      return Failure(ZeroCoherentGain);
    }
    var amp := ScaledBuffer(mag, AmplitudeScale(n, cg));
    DoubleSingleSided(amp, n);
    r := Success(Spectrum(RfftFreqs(n, fs), amp[..]));
  }

  /**
   * The single-sided amplitude rule relating `v` to the transform
   * magnitudes `raw` and the divisor `d = N * cg`: the DC value is
   * `raw[0] / d`; for even `N` the Nyquist value is `raw[N/2] / d` and the
   * bins between are doubled; for odd `N` every bin but DC is doubled.
   */
  ghost predicate SingleSidedAmplitudes(v: seq<real>, raw: seq<real>, d: real, n: nat)
  {
    && n >= 1 && d != 0.0
    && |v| == |raw| == n / 2 + 1
    && v[0] * d == raw[0]
    && (n % 2 == 0 ==> v[n / 2] * d == raw[n / 2] && forall k :: 1 <= k < n / 2 ==> v[k] * d == 2.0 * raw[k])
    && (n % 2 == 1 ==> forall k :: 1 <= k <= n / 2 ==> v[k] * d == 2.0 * raw[k])
  }

  /**
   * A computed amplitude spectrum follows the single-sided rule with the
   * magnitudes of the (optionally detrended) tapered signal and `d = N * cg`.
   */
  lemma AmplitudeDoublingRule(x: seq<real>, fs: real, kind: WindowKind, detrend: bool, num: Numerics, s: Spectrum)
    requires fs > 0.0 && num.Valid()
    requires AmplitudeSpectrum(x, fs, kind, detrend, num) == Success(s)
    ensures SingleSidedAmplitudes(s.values, num.rfftAbs(Taper(if detrend then Detrend(x) else x, Window(kind, |x|, num))),
                                  AmplitudeScale(|x|, CoherentGain(Window(kind, |x|, num))), |x|)
  {
    var raw, d := AmplitudeParts(x, fs, kind, detrend, num, s);
    ScaledSingleSidedRule(raw, |x|, d, s.values);
  }

  /** A computed amplitude spectrum is the single-sided fold of the magnitudes divided by `d`. */
  lemma AmplitudeParts(x: seq<real>, fs: real, kind: WindowKind, detrend: bool, num: Numerics, s: Spectrum)
    returns (raw: seq<real>, d: real)
    requires fs > 0.0 && num.Valid()
    requires AmplitudeSpectrum(x, fs, kind, detrend, num) == Success(s)
    ensures |x| >= 1
    ensures raw == num.rfftAbs(Taper(if detrend then Detrend(x) else x, Window(kind, |x|, num)))
    ensures d == AmplitudeScale(|x|, CoherentGain(Window(kind, |x|, num)))
    ensures |raw| == |x| / 2 + 1 && d != 0.0
    ensures s.values == SingleSided(Scaled(raw, d), |x|)
  {
    raw := num.rfftAbs(Taper(if detrend then Detrend(x) else x, Window(kind, |x|, num)));
    d := AmplitudeScale(|x|, CoherentGain(Window(kind, |x|, num)));
  }

  /** Dividing by `d` and folding follows the single-sided rule. */
  lemma ScaledSingleSidedRule(raw: seq<real>, n: nat, d: real, v: seq<real>)
    requires n >= 1 && |raw| == n / 2 + 1 && d != 0.0
    requires v == SingleSided(Scaled(raw, d), n)
    ensures SingleSidedAmplitudes(v, raw, d, n)
  {
    SingleSidedRule(Scaled(raw, d), n);
    forall k | 1 <= k < |v| && Mirrored(k, n)
      ensures v[k] * d == 2.0 * raw[k]
    {
      assert v[k] == 2.0 * Scaled(raw, d)[k];
      assert Scaled(raw, d)[k] * d == raw[k];
    }
  }


  // -------------------------------------------------------- plot_spectrogram

  /** `Sxx = np.array(columns).T`: row `k` holds bin `k` of every column. */
  function Transpose(columns: seq<seq<real>>, height: nat): (rows: seq<seq<real>>)
    requires forall j :: 0 <= j < |columns| ==> |columns[j]| == height
    ensures |rows| == height
    ensures forall k :: 0 <= k < height ==> rows[k] == Column(columns, k)
  {
    seq(height, k requires 0 <= k < height => Column(columns, k))
  }

  /** `xs[freqs <= fmax]`: the entries whose frequency is at most `fmax`, in order. */
  function KeepUpTo<T>(xs: seq<T>, freqs: seq<real>, fmax: real): (r: seq<T>)
    requires |xs| == |freqs|
    ensures |r| <= |xs|
    decreases |xs|
  {
    if |xs| == 0 then []
    else (if freqs[0] <= fmax then [xs[0]] else []) + KeepUpTo(xs[1..], freqs[1..], fmax)
  }

  /** The mask keeps exactly the frequencies not above `fmax`. */
  lemma {:induction false} KeepUpToMembers(freqs: seq<real>, fmax: real)
    ensures forall y :: y in KeepUpTo(freqs, freqs, fmax) <==> y in freqs && y <= fmax
    decreases |freqs|
  {
    if |freqs| > 0 {
      KeepUpToMembers(freqs[1..], fmax);
      assert freqs == [freqs[0]] + freqs[1..];
    }
  }

  /**
   * On an increasing axis the mask is a prefix: the first `m` entries are
   * kept, every frequency before `m` is at most `fmax`, every one from `m`
   * on is above it, and rows are kept in their original order.
   */
  lemma {:induction false} KeepUpToPrefix<T>(xs: seq<T>, freqs: seq<real>, fmax: real)
    requires |xs| == |freqs| && Increasing(freqs)
    ensures var m := |KeepUpTo(freqs, freqs, fmax)|;
            && m <= |xs|
            && KeepUpTo(xs, freqs, fmax) == xs[..m]
            && (forall k :: 0 <= k < m ==> freqs[k] <= fmax)
            && (forall k :: m <= k < |freqs| ==> freqs[k] > fmax)
    decreases |xs|
  {
    if |xs| > 0 {
      KeepUpToPrefix(xs[1..], freqs[1..], fmax);
      var m' := |KeepUpTo(freqs[1..], freqs[1..], fmax)|;
      if freqs[0] <= fmax {
        assert xs[..m' + 1] == [xs[0]] + xs[1..][..m'];
      } else {
        assert xs[..0] == [];
      }
    }
  }

  /** `np.maximum(v, eps)`. */
  function FloorEps(v: real): (r: real)
    ensures r >= EPS && r >= v
    ensures r == v || r == EPS
  {
    if v >= EPS then v else EPS
  }

  /** The floor applied to every cell of the grid. */
  function FloorGrid(rows: seq<seq<real>>): (g: seq<seq<real>>)
    ensures |g| == |rows|
    ensures forall k :: 0 <= k < |rows| ==> |g[k]| == |rows[k]|
    ensures forall k, j :: 0 <= k < |rows| && 0 <= j < |rows[k]| ==> g[k][j] == FloorEps(rows[k][j])
  {
    seq(|rows|, k requires 0 <= k < |rows| => seq(|rows[k]|, j requires 0 <= j < |rows[k]| => FloorEps(rows[k][j])))
  }

  /** `np.arange(count) * (step / fs)`: the time stamp of each column. */
  function SegmentTimes(count: nat, step: nat, fs: real): (t: seq<real>)
    requires fs > 0.0
    ensures |t| == count
  {
    seq(count, j requires 0 <= j < count => j as real * (step as real / fs))
  }

  /** Column `j` is stamped `times[j]`, the time its segment's first sample `starts[j]` is taken at rate `fs`. */
  ghost predicate StampedAt(times: seq<real>, starts: seq<int>, fs: real)
  {
    |times| == |starts| && forall j :: 0 <= j < |times| ==> times[j] * fs == starts[j] as real
  }

  /** Column `j` is stamped with the time its segment starts: sample `starts[j] == j * step` at rate `fs`. */
  lemma SegmentTimesAt(count: nat, step: nat, fs: real, starts: seq<int>)
    requires fs > 0.0 && |starts| == count
    requires forall j :: 0 <= j < count ==> starts[j] == j * step
    ensures StampedAt(SegmentTimes(count, step, fs), starts, fs)
  {
    forall j | 0 <= j < count
      ensures SegmentTimes(count, step, fs)[j] * fs == starts[j] as real
    {
      assert SegmentTimes(count, step, fs)[j] == j as real * (step as real / fs);
      assert (step as real / fs) * fs == step as real;
      assert (j * step) as real == j as real * step as real;
    }
  }

  /**
   * Lines 155-162 on the collected columns: transpose to rows of bins,
   * stamp the columns, keep the bins at or below `fmax`, floor every cell
   * at `eps`.
   */
  function SpectrogramGrid(columns: seq<seq<real>>, nperseg: nat, step: nat, fs: real, fmax: Option<real>): Spectrogram
    requires nperseg >= 1 && fs > 0.0
    requires forall j :: 0 <= j < |columns| ==> |columns[j]| == nperseg / 2 + 1
  {
    var freqs := RfftFreqs(nperseg, fs);
    var times := SegmentTimes(|columns|, step, fs);
    var rows := Transpose(columns, nperseg / 2 + 1);
    match fmax
    case None => Spectrogram(freqs, times, FloorGrid(rows))
    case Some(f) => Spectrogram(KeepUpTo(freqs, freqs, f), times, FloorGrid(KeepUpTo(rows, freqs, f)))
  }

  /**
   * The grid has one column per segment, stamped at its start over `fs`;
   * its rows are the first bins of the full axis: all of them without
   * `fmax`, and with `fmax` exactly those at or below it. Cell `(k, j)` is
   * bin `k` of column `j` floored at `eps`.
   */
  lemma GridShape(columns: seq<seq<real>>, nperseg: nat, step: nat, fs: real, fmax: Option<real>)
    requires nperseg >= 1 && fs > 0.0
    requires forall j :: 0 <= j < |columns| ==> |columns[j]| == nperseg / 2 + 1
    ensures var g := SpectrogramGrid(columns, nperseg, step, fs, fmax);
            && g.times == SegmentTimes(|columns|, step, fs)
            && |g.cells| == |g.freqs| <= nperseg / 2 + 1
            && g.freqs == RfftFreqs(nperseg, fs)[..|g.freqs|]
            && (fmax.None? ==> |g.freqs| == nperseg / 2 + 1)
            && (fmax.Some? ==> forall k :: 0 <= k < |g.freqs| ==> g.freqs[k] <= fmax.value)
            && (fmax.Some? ==> forall k :: |g.freqs| <= k < nperseg / 2 + 1 ==> RfftFreqs(nperseg, fs)[k] > fmax.value)
            && (forall k :: 0 <= k < |g.cells| ==> |g.cells[k]| == |columns|)
            && (forall k, j :: 0 <= k < |g.cells| && 0 <= j < |g.cells[k]| ==> g.cells[k][j] == FloorEps(columns[j][k]))
  {
    var freqs := RfftFreqs(nperseg, fs);
    var rows := Transpose(columns, nperseg / 2 + 1);
    var g := SpectrogramGrid(columns, nperseg, step, fs, fmax);
    var kept := rows;
    if fmax.Some? {
      RfftFreqsIncreasing(nperseg, fs);
      KeepUpToPrefix(freqs, freqs, fmax.value);
      KeepUpToPrefix(rows, freqs, fmax.value);
      kept := KeepUpTo(rows, freqs, fmax.value);
    } else {
      assert freqs[..|freqs|] == freqs;
    }
    assert g.cells == FloorGrid(kept);
    forall k, j | 0 <= k < |g.cells| && 0 <= j < |g.cells[k]|
      ensures g.cells[k][j] == FloorEps(columns[j][k])
    {
      assert kept[k] == rows[k] == Column(columns, k);
    }
  }

  /**
   * The numeric part of `plot_spectrogram` (lines 133-166) up to the
   * floored grid that `10 * log10` turns into decibels.
   */
  function SpectrogramOf(x: seq<real>, fs: real, nperseg: int, overlap: real, kind: WindowKind, detrend: bool,
                         fmax: Option<real>, num: Numerics): Result<Spectrogram, SpectralError>
    requires fs > 0.0 && num.Valid()
  {
    if nperseg < 1 then Failure(EmptyTransform)
    else
      var xs := if detrend then Detrend(x) else x;
      var w := Window(kind, nperseg, num);
      var step := StepFor(nperseg, overlap);
      if |Starts(|xs|, nperseg, step)| == 0 then Failure(NoSegments)
      else if SumSquares(w) == 0.0 then Failure(ZeroWindowEnergy)
      else
        var columns := SegmentPsds(xs, Starts(|xs|, nperseg, step), w, true, PsdScale(fs, SumSquares(w)), num);
        Success(SpectrogramGrid(columns, nperseg, step, fs, fmax))
  }

  /** With no segment start the range is empty; with a start at 0 it is not. */
  lemma StartsEmptyIff(n: nat, l: int, step: nat)
    requires step >= 1 && l >= 1
    ensures |Starts(n, l, step)| == 0 <==> n < l
  {
    if l <= n {
      StartsNonEmpty(n, l, step);
    }
  }

  /** `plot_spectrogram`'s computation as the source runs it. */
  method SpectrogramData(x: seq<real>, fs: real, nperseg: int, overlap: real, kind: WindowKind, detrend: bool,
                         fmax: Option<real>, num: Numerics) returns (r: Result<Spectrogram, SpectralError>)
    requires fs > 0.0 && num.Valid()
    ensures r == SpectrogramOf(x, fs, nperseg, overlap, kind, detrend, fmax, num)
  {
    if nperseg < 1 {
      return Failure(EmptyTransform);
    }
    var xs := x;
    if detrend {
      xs := Detrend(x);
    }
    var w := Window(kind, nperseg, num);
    var step := StepFor(nperseg, overlap);
    StartsEmptyIff(|xs|, nperseg, step);
    if |xs| - nperseg + 1 <= 0 {
      // the range is empty: `np.array([]).T` has no second axis
      return Failure(NoSegments);
    }
    var u := SumSquares(w);
    if u == 0.0 {
      return Failure(ZeroWindowEnergy);
    }
    var columns := CollectSegments(xs, w, step, true, PsdScale(fs, u), num);
    r := Success(SpectrogramGrid(columns, nperseg, step, fs, fmax));
  }

  /**
   * A spectrogram over the segment starts `starts` and their periodograms
   * `columns`: column `j` stamped at its start offset over `fs`; the rows
   * the first bins of the full axis, all of them without `fmax` and with
   * `fmax` exactly those at or below it; cell `(k, j)` bin `k` of column
   * `j` floored at `eps`.
   */
  ghost predicate GridOver(g: Spectrogram, columns: seq<seq<real>>, starts: seq<int>, nperseg: nat, fs: real,
                           fmax: Option<real>)
    requires nperseg >= 1 && fs > 0.0
  {
    && StampedAt(g.times, starts, fs)
    && |columns| == |g.times|
    && (forall j :: 0 <= j < |columns| ==> |columns[j]| == nperseg / 2 + 1)
    && |g.cells| == |g.freqs| <= nperseg / 2 + 1
    && g.freqs == RfftFreqs(nperseg, fs)[..|g.freqs|]
    && (fmax.None? ==> |g.freqs| == nperseg / 2 + 1)
    && (fmax.Some? ==> forall k :: 0 <= k < |g.freqs| ==> g.freqs[k] <= fmax.value)
    && (fmax.Some? ==> forall k :: |g.freqs| <= k < nperseg / 2 + 1 ==> RfftFreqs(nperseg, fs)[k] > fmax.value)
    && (forall k :: 0 <= k < |g.cells| ==> |g.cells[k]| == |g.times|)
    && (forall k, j :: 0 <= k < |g.cells| && 0 <= j < |g.cells[k]| ==> g.cells[k][j] == FloorEps(columns[j][k]))
  }

  /** The periodograms of the raw signal's segments, one per start: what a spectrogram's columns are. */
  function RawColumns(x: seq<real>, fs: real, nperseg: int, overlap: real, kind: WindowKind, num: Numerics)
    : seq<seq<real>>
    requires fs > 0.0 && num.Valid() && 1 <= nperseg <= |x| && SumSquares(Window(kind, nperseg, num)) > 0.0
  {
    SegmentPsds(x, Starts(|x|, nperseg, StepFor(nperseg, overlap)), Window(kind, nperseg, num),
                true, PsdScale(fs, SumSquares(Window(kind, nperseg, num))), num)
  }

  /**
   * A computed spectrogram has at least one segment start, and is the grid
   * over those starts and the periodograms of the raw signal's segments.
   */
  lemma SpectrogramShape(x: seq<real>, fs: real, nperseg: int, overlap: real, kind: WindowKind, detrend: bool,
                         fmax: Option<real>, num: Numerics, g: Spectrogram)
    requires fs > 0.0 && num.Valid()
    requires SpectrogramOf(x, fs, nperseg, overlap, kind, detrend, fmax, num) == Success(g)
    ensures 1 <= nperseg <= |x| && SumSquares(Window(kind, nperseg, num)) > 0.0
    ensures |Starts(|x|, nperseg, StepFor(nperseg, overlap))| >= 1
    ensures GridOver(g, RawColumns(x, fs, nperseg, overlap, kind, num), Starts(|x|, nperseg, StepFor(nperseg, overlap)),
                     nperseg, fs, fmax)
  {
    var columns := SpectrogramColumns(x, fs, nperseg, overlap, kind, detrend, fmax, num);
    StartsEvenlySpaced(|x|, nperseg, StepFor(nperseg, overlap));
    GridShapeAt(g, columns, Starts(|x|, nperseg, StepFor(nperseg, overlap)), nperseg, StepFor(nperseg, overlap), fs, fmax);
  }

  /** `GridShape` with the columns' time stamps read against their start offsets. */
  lemma GridShapeAt(g: Spectrogram, columns: seq<seq<real>>, starts: seq<int>, nperseg: nat, step: nat, fs: real,
                    fmax: Option<real>)
    requires nperseg >= 1 && fs > 0.0
    requires forall j :: 0 <= j < |columns| ==> |columns[j]| == nperseg / 2 + 1
    requires g == SpectrogramGrid(columns, nperseg, step, fs, fmax)
    requires |starts| == |columns| && forall j :: 0 <= j < |starts| ==> starts[j] == j * step
    ensures GridOver(g, columns, starts, nperseg, fs, fmax)
  {
    GridShape(columns, nperseg, step, fs, fmax);
    SegmentTimesAt(|starts|, step, fs, starts);
  }

  /**
   * A successful spectrogram is the grid over the periodograms of the raw
   * signal's segments, returned as `columns`; the segment fits the signal.
   */
  lemma SpectrogramColumns(x: seq<real>, fs: real, nperseg: int, overlap: real, kind: WindowKind, detrend: bool,
                           fmax: Option<real>, num: Numerics)
    returns (columns: seq<seq<real>>)
    requires fs > 0.0 && num.Valid()
    requires SpectrogramOf(x, fs, nperseg, overlap, kind, detrend, fmax, num).Success?
    ensures 1 <= nperseg <= |x| && SumSquares(Window(kind, nperseg, num)) > 0.0
    ensures columns == RawColumns(x, fs, nperseg, overlap, kind, num)
    ensures |columns| == |Starts(|x|, nperseg, StepFor(nperseg, overlap))| >= 1
    ensures forall j :: 0 <= j < |columns| ==> |columns[j]| == nperseg / 2 + 1
    ensures SpectrogramOf(x, fs, nperseg, overlap, kind, detrend, fmax, num).value
            == SpectrogramGrid(columns, nperseg, StepFor(nperseg, overlap), fs, fmax)
  {
    SpectrogramIgnoresDetrendFlag(x, fs, nperseg, overlap, kind, fmax, num);
    StartsEmptyIff(|x|, nperseg, StepFor(nperseg, overlap));
    columns := SegmentPsds(x, Starts(|x|, nperseg, StepFor(nperseg, overlap)), Window(kind, nperseg, num),
                           true, PsdScale(fs, SumSquares(Window(kind, nperseg, num))), num);
  }

  /** A slice of the detrended signal is the slice lowered by the whole signal's mean. */
  lemma SliceOfDetrended(x: seq<real>, start: int, len: nat)
    requires |x| > 0 && 0 <= start && start + len <= |x|
    ensures Detrend(x)[start..start + len] == Shifted(x[start..start + len], Mean(x))
  {
    var d := Detrend(x)[start..start + len];
    var e := Shifted(x[start..start + len], Mean(x));
    forall i | 0 <= i < len
      ensures d[i] == e[i]
    {
      assert d[i] == Shifted(x, Mean(x))[start + i];
    }
  }

  /** Removing the signal's mean first changes no detrended periodogram. */
  lemma SegmentIgnoresOffset(x: seq<real>, start: int, w: seq<real>, norm: real, num: Numerics)
    requires |x| > 0 && 0 <= start && start + |w| <= |x| && norm > 0.0
    ensures SegmentPsd(Detrend(x)[start..start + |w|], w, true, norm, num) == SegmentPsd(x[start..start + |w|], w, true, norm, num)
  {
    SliceOfDetrended(x, start, |w|);
    DetrendAbsorbsShift(x[start..start + |w|], Mean(x));
  }

  /** Removing the signal's mean before cutting segments that are detrended anyway changes no periodogram. */
  lemma SegmentsIgnoreOffset(x: seq<real>, starts: seq<int>, w: seq<real>, norm: real, num: Numerics)
    requires forall j :: 0 <= j < |starts| ==> 0 <= starts[j] && starts[j] + |w| <= |x|
    requires norm > 0.0
    ensures SegmentPsds(Detrend(x), starts, w, true, norm, num) == SegmentPsds(x, starts, w, true, norm, num)
  {
    if |x| > 0 {
      forall j | 0 <= j < |starts|
        ensures SegmentPsd(Detrend(x)[starts[j]..starts[j] + |w|], w, true, norm, num)
                == SegmentPsd(x[starts[j]..starts[j] + |w|], w, true, norm, num)
      {
        SegmentIgnoresOffset(x, starts[j], w, norm, num);
      }
      SegmentPsdsAgree(Detrend(x), x, starts, w, true, norm, num);
    }
  }

  /** Two signals whose segments at every start give the same periodogram give the same table. */
  lemma {:induction false} SegmentPsdsAgree(y: seq<real>, x: seq<real>, starts: seq<int>, w: seq<real>, detrend: bool,
                                            norm: real, num: Numerics)
    requires |y| == |x| && norm > 0.0
    requires forall j :: 0 <= j < |starts| ==> 0 <= starts[j] && starts[j] + |w| <= |x|
    requires forall j :: 0 <= j < |starts| ==>
               SegmentPsd(y[starts[j]..starts[j] + |w|], w, detrend, norm, num)
               == SegmentPsd(x[starts[j]..starts[j] + |w|], w, detrend, norm, num)
    ensures SegmentPsds(y, starts, w, detrend, norm, num) == SegmentPsds(x, starts, w, detrend, norm, num)
    decreases |starts|
  {
    if |starts| > 0 {
      SegmentPsdsAgree(y, x, starts[1..], w, detrend, norm, num);
    }
  }

  /**
   * `plot_spectrogram` detrends every segment whatever `detrend` says, and
   * that per-segment mean removal cancels the optional global one: the
   * flag has no effect on the result.
   */
  lemma SpectrogramIgnoresDetrendFlag(x: seq<real>, fs: real, nperseg: int, overlap: real, kind: WindowKind,
                                      fmax: Option<real>, num: Numerics)
    requires fs > 0.0 && num.Valid()
    ensures SpectrogramOf(x, fs, nperseg, overlap, kind, true, fmax, num)
            == SpectrogramOf(x, fs, nperseg, overlap, kind, false, fmax, num)
  {
    if nperseg >= 1 && SumSquares(Window(kind, nperseg, num)) != 0.0 {
      SegmentsIgnoreOffset(x, Starts(|x|, nperseg, StepFor(nperseg, overlap)), Window(kind, nperseg, num),
                           PsdScale(fs, SumSquares(Window(kind, nperseg, num))), num);
    }
  }

  /** With `nperseg` larger than the signal there is no column and the call fails: it needs its caller's clamp. */
  lemma UnclampedSpectrogramFails(x: seq<real>, fs: real, nperseg: int, overlap: real, kind: WindowKind, detrend: bool,
                                  fmax: Option<real>, num: Numerics)
    requires fs > 0.0 && num.Valid()
    requires |x| < nperseg
    ensures SpectrogramOf(x, fs, nperseg, overlap, kind, detrend, fmax, num) == Failure(NoSegments)
  {
    StartsEmptyIff(|x|, nperseg, StepFor(nperseg, overlap));
  }

  /** `nperseg_spec = min(max(256, nperseg // 4), len(x))` in `main` (`//` by 4 is Dafny's `/`). */
  function SpectrogramSegmentLength(nperseg: int, n: nat): (l: int)
    ensures l <= n
    ensures l == n || l >= 256
    ensures n >= 1 ==> l >= 1
  {
    var m := if nperseg / 4 > 256 then nperseg / 4 else 256;
    if n < m then n else m
  }

  /**
   * With `main`'s clamp a non-empty signal always yields at least one
   * spectrogram column: the call can fail only through a window without
   * energy.
   */
  lemma MainSpectrogramHasColumns(x: seq<real>, fs: real, nperseg: int, kind: WindowKind, detrend: bool,
                                  fmax: Option<real>, num: Numerics)
    requires fs > 0.0 && num.Valid() && |x| >= 1
    ensures var l := SpectrogramSegmentLength(nperseg, |x|);
            var r := SpectrogramOf(x, fs, l, 0.75, kind, detrend, fmax, num);
            && (r.Failure? ==> r.error == ZeroWindowEnergy)
            && (r.Success? ==> |r.value.times| >= 1)
  {
    StartsEmptyIff(|x|, SpectrogramSegmentLength(nperseg, |x|), StepFor(SpectrogramSegmentLength(nperseg, |x|), 0.75));
  }
}

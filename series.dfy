/**
 * Sums, means and mean removal over exact real samples: the arithmetic
 * behind `np.sum`, `np.mean` and `detrend_mean` in analyze_vibration.py.
 */
module Series {

  /** Sum of the samples, accumulated from the front. */
  function Sum(s: seq<real>): real
    decreases |s|
  {
    if |s| == 0 then 0.0 else Sum(s[..|s| - 1]) + s[|s| - 1]
  }

  /** Arithmetic mean; numpy yields nan on an empty array, so callers avoid it. */
  function Mean(s: seq<real>): real
    requires |s| > 0
  {
    Sum(s) / |s| as real
  }

  /** The mean times the count is the sum. */
  lemma MeanTimesLength(s: seq<real>)
    requires |s| > 0
    ensures Mean(s) * |s| as real == Sum(s)
  {
  }

  /** Every sample lowered by `c` (numpy's `s - c`). */
  function Shifted(s: seq<real>, c: real): (r: seq<real>)
    ensures |r| == |s|
    ensures forall i :: 0 <= i < |s| ==> r[i] == s[i] - c
  {
    seq(|s|, i requires 0 <= i < |s| => s[i] - c)
  }

  /** `detrend_mean(x) = x - np.mean(x)`; an empty input stays empty. */
  function Detrend(s: seq<real>): (r: seq<real>)
    ensures |r| == |s|
    ensures forall i :: 0 <= i < |s| ==> r[i] == s[i] - Mean(s)
  {
    if |s| == 0 then [] else Shifted(s, Mean(s))
  }

  /** Lowering every sample by `c` lowers the sum by `|s| * c`. */
  lemma {:induction false} SumShifted(s: seq<real>, c: real)
    ensures Sum(Shifted(s, c)) == Sum(s) - |s| as real * c
  {
    if |s| > 0 {
      var front := s[..|s| - 1];
      assert Shifted(s, c)[..|s| - 1] == Shifted(front, c);
      SumShifted(front, c);
    }
  }

  /** A mean-detrended signal sums to exactly zero. */
  lemma DetrendSumsToZero(s: seq<real>)
    ensures Sum(Detrend(s)) == 0.0
  {
    if |s| > 0 {
      SumShifted(s, Mean(s));
      MeanTimesLength(s);
    }
  }

  /** Shifting moves the mean by the same amount. */
  lemma MeanShifted(s: seq<real>, c: real)
    requires |s| > 0
    ensures Mean(Shifted(s, c)) == Mean(s) - c
  {
    SumShifted(s, c);
  }

  /** Mean removal forgets any constant offset the input carried. */
  lemma DetrendAbsorbsShift(s: seq<real>, c: real)
    ensures Detrend(Shifted(s, c)) == Detrend(s)
  {
    if |s| > 0 {
      MeanShifted(s, c);
    }
  }

  /** Detrending twice is detrending once. */
  lemma DetrendIdempotent(s: seq<real>)
    ensures Detrend(Detrend(s)) == Detrend(s)
  {
    if |s| > 0 {
      DetrendSumsToZero(s);
      assert Mean(Detrend(s)) == 0.0;
      assert Shifted(Detrend(s), 0.0) == Detrend(s);
    }
  }

  /** A sum of non-negative samples is non-negative. */
  lemma {:induction false} SumNonNegative(s: seq<real>)
    requires forall i :: 0 <= i < |s| ==> s[i] >= 0.0
    ensures Sum(s) >= 0.0
  {
    if |s| > 0 {
      SumNonNegative(s[..|s| - 1]);
    }
  }

  /** A sum of samples each at most `b` is at most `|s| * b`. */
  lemma {:induction false} SumBoundedAbove(s: seq<real>, b: real)
    requires forall i :: 0 <= i < |s| ==> s[i] <= b
    ensures Sum(s) <= |s| as real * b
  {
    if |s| > 0 {
      SumBoundedAbove(s[..|s| - 1], b);
    }
  }

  /** `n` copies of `c` sum to `n * c`. */
  lemma {:induction false} SumConstant(s: seq<real>, c: real)
    requires forall i :: 0 <= i < |s| ==> s[i] == c
    ensures Sum(s) == |s| as real * c
  {
    if |s| > 0 {
      SumConstant(s[..|s| - 1], c);
    }
  }
}

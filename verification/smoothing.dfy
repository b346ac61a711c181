/** Firing rates of brain.py: every train is smoothed by np.convolve with a
    normalised 49-sample boxcar in "same" mode. Values are exact reals. */
module Smoothing {
  import opened Common

  /** Width of the boxcar, in samples (ms at 1 kHz). */
  const BoxWidth: nat := 49

  /** Weight of signal.boxcar(49) / 49 at lag d. */
  function BoxWeight(d: int): real {
    if 0 <= d < BoxWidth then 1.0 / 49.0 else 0.0
  }

  /** Entry m of the full linear convolution of x with the boxcar, summed
      over the first k samples of x. Convolution is commutative, so this is
      also the value numpy computes after swapping a shorter train with the
      boxcar. */
  function ConvPrefix(x: seq<real>, m: int, k: nat): real
    requires k <= |x|
  {
    if k == 0 then 0.0 else ConvPrefix(x, m, k - 1) + x[k - 1] * BoxWeight(m - (k - 1))
  }

  /** Index of the full convolution where "same" output sample 0 sits:
      (n - 1) - n / 2, with n the shorter of the two operand lengths. */
  function SameShift(len: nat): int {
    var n := Min(len, BoxWidth);
    (n - 1) - n / 2
  }

  /** Length of the "same" output: the longer of the two operands. */
  function SameLength(len: nat): nat {
    if len < BoxWidth then BoxWidth else len
  }

  /** v clamped into [0, n]. */
  function Clamp(v: int, n: nat): (c: nat)
    ensures c <= n
  {
    if v < 0 then 0 else if v > n then n else v
  }

  /** train_to_fr: np.convolve(train, boxcar(49) / 49, "same"); an empty
      train raises ValueError. */
  function TrainToFr(x: seq<real>): (r: Result<seq<real>>)
    ensures r.Ok? <==> x != []
    ensures r.Err? ==> r.error == EmptyOperand
    ensures r.Ok? ==> |r.value| == SameLength(|x|)
    ensures |x| >= BoxWidth && r.Ok? ==> |r.value| == |x|
  {
    if x == [] then Err(EmptyOperand)
    else Ok(seq(SameLength(|x|), i => ConvPrefix(x, i + SameShift(|x|), |x|)))
  }

  /** The first k terms of the convolution at m add up the samples of
      x[..k] that lie in the window [m - 48, m], divided by 49. */
  lemma {:induction false} ConvPrefixIsWindowSum(x: seq<real>, m: int, k: nat)
    requires k <= |x|
    ensures Clamp(m - 48, k) <= Clamp(m + 1, k)
    ensures ConvPrefix(x, m, k) == SumRange(x, Clamp(m - 48, k), Clamp(m + 1, k)) / 49.0
  {
    if k > 0 {
      var j := k - 1;
      ConvPrefixIsWindowSum(x, m, j);
      if m - 48 <= j <= m {
        assert Clamp(m + 1, k) == k && Clamp(m + 1, j) == j;
        assert Clamp(m - 48, k) == Clamp(m - 48, j);
      } else if j > m {
        assert Clamp(m + 1, k) == Clamp(m + 1, j);
        assert Clamp(m - 48, k) == Clamp(m - 48, j);
      } else {
        assert Clamp(m - 48, k) == k && Clamp(m + 1, k) == k;
      }
    }
  }

  /** Every firing-rate sample is the sum of the train over a window of 49
      samples, cut at the edges of the train, divided by 49. The window ends
      at i + SameShift(|x|). */
  lemma FrIsWindowSum(x: seq<real>, i: nat)
    requires x != [] && i < SameLength(|x|)
    ensures Clamp(i + SameShift(|x|) - 48, |x|) <= Clamp(i + SameShift(|x|) + 1, |x|)
    ensures TrainToFr(x).value[i] ==
              SumRange(x, Clamp(i + SameShift(|x|) - 48, |x|), Clamp(i + SameShift(|x|) + 1, |x|)) / 49.0
  {
    ConvPrefixIsWindowSum(x, i + SameShift(|x|), |x|);
  }

  /** For trains of at least 49 samples the output keeps the length and is
      centred: out[i] = (sum of x[k] for k in [i-24, i+24] inside the train) / 49. */
  lemma FrIsCentredMean(x: seq<real>, i: nat)
    requires |x| >= BoxWidth && i < |x|
    ensures TrainToFr(x).Ok? && |TrainToFr(x).value| == |x|
    ensures Clamp(i - 24, |x|) <= Clamp(i + 25, |x|)
    ensures TrainToFr(x).value[i] == SumRange(x, Clamp(i - 24, |x|), Clamp(i + 25, |x|)) / 49.0
  {
    assert SameShift(|x|) == 24;
    FrIsWindowSum(x, i);
  }

  /** Smoothing silence gives silence. */
  lemma FrOfSilence(x: seq<real>)
    requires x != []
    requires forall t :: 0 <= t < |x| ==> x[t] == 0.0
    ensures forall i :: 0 <= i < |TrainToFr(x).value| ==> TrainToFr(x).value[i] == 0.0
  {
    forall i | 0 <= i < |TrainToFr(x).value|
      ensures TrainToFr(x).value[i] == 0.0
    {
      FrIsWindowSum(x, i);
      var lo, hi := Clamp(i + SameShift(|x|) - 48, |x|), Clamp(i + SameShift(|x|) + 1, |x|);
      SumRangeConst(x, lo, hi, 0.0);
    }
  }

  /** A train that fires every millisecond has rate 1 wherever the whole
      window lies inside the train, i.e. on [24, N - 25]. */
  lemma FrOfSteadyFiring(x: seq<real>, i: nat)
    requires |x| >= BoxWidth
    requires forall t :: 0 <= t < |x| ==> x[t] == 1.0
    requires 24 <= i < |x| - 24
    ensures TrainToFr(x).value[i] == 1.0
  {
    FrIsCentredMean(x, i);
    SumRangeConst(x, i - 24, i + 25, 1.0);
  }

  /** The sum of a range of a train with a single spike at p is 1 when the
      range holds p and 0 otherwise. */
  lemma {:induction false} SumRangeOfSingleSpike(x: seq<real>, p: nat, lo: nat, hi: nat)
    requires lo <= hi <= |x|
    requires forall t :: 0 <= t < |x| ==> x[t] == if t == p then 1.0 else 0.0
    ensures SumRange(x, lo, hi) == if lo <= p < hi then 1.0 else 0.0
    decreases hi - lo
  {
    if lo < hi {
      SumRangeOfSingleSpike(x, p, lo, hi - 1);
    }
  }

  /** A single spike at p smooths to 1/49 on [p - 24, p + 24] and 0 elsewhere. */
  lemma FrOfSingleSpike(x: seq<real>, p: nat, i: nat)
    requires |x| >= BoxWidth && p < |x| && i < |x|
    requires forall t :: 0 <= t < |x| ==> x[t] == if t == p then 1.0 else 0.0
    ensures TrainToFr(x).value[i] == if p - 24 <= i <= p + 24 then 1.0 / 49.0 else 0.0
  {
    FrIsCentredMean(x, i);
    SumRangeOfSingleSpike(x, p, Clamp(i - 24, |x|), Clamp(i + 25, |x|));
  }

  lemma {:induction false} SumRangeBounds(x: seq<real>, lo: nat, hi: nat)
    requires lo <= hi <= |x|
    requires forall t :: lo <= t < hi ==> 0.0 <= x[t] <= 1.0
    ensures 0.0 <= SumRange(x, lo, hi) <= (hi - lo) as real
    decreases hi - lo
  {
    if lo < hi {
      SumRangeBounds(x, lo, hi - 1);
    }
  }

  /** A train of values in [0, 1] smooths to rates in [0, 1]. */
  lemma FrBounded(x: seq<real>, i: nat)
    requires x != [] && i < SameLength(|x|)
    requires forall t :: 0 <= t < |x| ==> 0.0 <= x[t] <= 1.0
    ensures 0.0 <= TrainToFr(x).value[i] <= 1.0
  {
    FrIsWindowSum(x, i);
    var lo, hi := Clamp(i + SameShift(|x|) - 48, |x|), Clamp(i + SameShift(|x|) + 1, |x|);
    SumRangeBounds(x, lo, hi);
  }

  /** get_fr: smooth every row of an nunits x n raster into a preallocated
      array of the same shape. A train shorter than 49 smooths to 49
      samples, which cannot be written back into a row of n samples, and an
      empty train cannot be convolved: both raise ValueError. */
  method GetFr(raster: seq<seq<real>>, n: nat) returns (r: Result<seq<seq<real>>>)
    requires IsMatrix(raster, n)
    ensures r.Ok? <==> |raster| == 0 || n >= BoxWidth
    ensures r.Err? ==> r.error == if n == 0 then EmptyOperand else BroadcastMismatch
    ensures r.Ok? ==> |r.value| == |raster| && IsMatrix(r.value, n)
    ensures r.Ok? ==> forall u :: 0 <= u < |raster| ==>
                        TrainToFr(raster[u]).Ok? && r.value[u] == TrainToFr(raster[u]).value
  {
    var fr := new seq<real>[|raster|];
    for u := 0 to |raster|
      invariant n >= BoxWidth || u == 0
      invariant forall v :: 0 <= v < u ==>
                  TrainToFr(raster[v]).Ok? && fr[v] == TrainToFr(raster[v]).value
    {
      var row := TrainToFr(raster[u]);
      if row.Err? {
        return Err(row.error);
      }
      if |row.value| != n {
        return Err(BroadcastMismatch);
      }
      fr[u] := row.value;
    }
    return Ok(fr[..]);
  }
}

/** Shared vocabulary of the ephyspipe model: the errors numpy and the pipeline
    raise, Python's negative-index rule and slicing, and finite sums over index
    ranges. */
module Common {

  /** The exceptions the modelled code can raise. */
  datatype Error =
    | IndexOutOfBounds     // numpy IndexError: an index outside [-n, n)
    | EmptyOperand         // ValueError from np.convolve or max() on an empty input
    | BroadcastMismatch    // ValueError assigning a row of the wrong length into a 2-D array
    | BadStep              // sliding_avg: step outside (0, 1]
    | BadTimeRange         // sliding_avg: time_range[0] >= time_range[1]
    | ZeroStep             // np.arange refuses a step of zero
    | TrialCountMismatch   // get_trial_events: start/stop counts differ from the trial count
    | NotAnInteger         // ValueError from int() on a string that is not a decimal number

  datatype Result<T> = Ok(value: T) | Err(error: Error)

  /** An index numpy accepts for an axis of length n. */
  predicate InPyRange(i: int, n: nat) {
    -(n as int) <= i < n
  }

  /** The position numpy reads for index i on an axis of length n: negative
      indices count from the end. */
  function Wrap(i: int, n: nat): (k: nat)
    requires InPyRange(i, n)
    ensures k < n
    ensures 0 <= i ==> k == i
    ensures i < 0 ==> k == n + i
  {
    if i < 0 then n + i else i
  }

  /** A rectangular matrix: every one of the rows has `cols` entries. */
  predicate IsMatrix<T>(m: seq<seq<T>>, cols: nat) {
    forall u :: 0 <= u < |m| ==> |m[u]| == cols
  }

  /** A rectangular 3-D array with shape |c| x rows x cols. */
  predicate IsCube<T>(c: seq<seq<seq<T>>>, rows: nat, cols: nat) {
    forall r :: 0 <= r < |c| ==> IsMatrix(c[r], cols) && |c[r]| == rows
  }

  function Max(a: int, b: int): int { if a < b then b else a }
  function Min(a: int, b: int): int { if a < b then a else b }

  /** x[lo] + ... + x[hi-1]. */
  function SumRange(x: seq<real>, lo: nat, hi: nat): real
    requires lo <= hi <= |x|
    decreases hi - lo
  {
    if lo == hi then 0.0 else SumRange(x, lo, hi - 1) + x[hi - 1]
  }

  /** Summing a constant c over a range of length L gives c * L. */
  lemma {:induction false} SumRangeConst(x: seq<real>, lo: nat, hi: nat, c: real)
    requires lo <= hi <= |x|
    requires forall t :: lo <= t < hi ==> x[t] == c
    ensures SumRange(x, lo, hi) == c * (hi - lo) as real
    decreases hi - lo
  {
    if lo < hi {
      SumRangeConst(x, lo, hi - 1, c);
    }
  }

  /** Python's slice s[a:b] for non-negative bounds: both bounds are clamped to
      the length, and a slice whose end is not after its start is empty. */
  function PySlice<T>(s: seq<T>, a: nat, b: nat): (r: seq<T>)
    ensures |r| == Max(0, Min(b, |s|) - Min(a, |s|))
    ensures forall k :: 0 <= k < |r| ==> r[k] == s[Min(a, |s|) + k]
  {
    var lo := Min(a, |s|);
    var hi := Min(b, |s|);
    if hi <= lo then [] else s[lo..hi]
  }
}

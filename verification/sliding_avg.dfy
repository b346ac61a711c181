/** The sliding-window averager of brain.py: downsample a sync x time x
    source tensor by averaging windows of windowMs samples whose midpoints
    step by a fraction of the window. Timestamps and the time range are exact
    reals; the window width is given in whole samples (ms at 1 kHz). */
module SlidingAvg {
  import opened Common

  function Abs(x: real): real {
    if x < 0.0 then -x else x
  }

  /** np.argmin(np.abs(ts - t)): the index of the timestamp closest to t,
      the first one when several are equally close. */
  function Nearest(ts: seq<real>, t: real): (k: nat)
    requires ts != []
    ensures k < |ts|
    ensures forall j :: 0 <= j < |ts| ==> Abs(ts[k] - t) <= Abs(ts[j] - t)
    ensures forall j :: 0 <= j < k ==> Abs(ts[k] - t) < Abs(ts[j] - t)
  {
    if |ts| == 1 then 0
    else
      var init := ts[..|ts| - 1];
      var k := Nearest(init, t);
      assert forall j :: 0 <= j < |init| ==> init[j] == ts[j];
      if Abs(ts[|ts| - 1] - t) < Abs(ts[k] - t) then |ts| - 1 else k
  }

  /** np.round: to the nearest integer, halves to the even neighbour. */
  function RoundHalfEven(x: real): (n: int)
    ensures x - 0.5 <= n as real <= x + 0.5
    ensures (n as real == x - 0.5 || n as real == x + 0.5) ==> n % 2 == 0
  {
    var f := x.Floor;
    var d := x - f as real;
    if d < 0.5 then f
    else if d > 0.5 then f + 1
    else if f % 2 == 0 then f
    else f + 1
  }

  /** Scaling a window by a factor in (0, 1] moves it toward zero without
      crossing zero; p is the scaled window. */
  lemma ScaleTowardZero(w: int, f: real, p: real)
    requires 0.0 < f <= 1.0 && p == w as real * f
    ensures w >= 0 ==> 0.0 <= p <= w as real
    ensures w <= 0 ==> w as real <= p <= 0.0
  {
    var x := w as real;
    if w >= 0 {
      assert 0.0 <= x;
      assert x * f <= x * 1.0;
    } else {
      var y := -x;
      assert 0.0 < y;
      assert 0.0 <= y * f <= y * 1.0;
      assert x * f == -(y * f);
    }
  }

  /** Rounding a value that lies between two integers stays between them. */
  lemma RoundWithin(x: real, lo: int, hi: int)
    requires lo as real <= x <= hi as real
    ensures lo <= RoundHalfEven(x) <= hi
  {
    var n := RoundHalfEven(x);
    assert (lo - 1) as real < n as real < (hi + 1) as real;
  }

  /** The rounded product of a window and a factor in (0, 1] lies between
      zero and the window. */
  lemma OffsetWithin(windowMs: int, step: real)
    ensures 0.0 < step <= 1.0 && windowMs >= 0 ==> 0 <= RoundHalfEven(windowMs as real * step) <= windowMs
    ensures 0.0 < step <= 1.0 && windowMs <= 0 ==> windowMs <= RoundHalfEven(windowMs as real * step) <= 0
  {
    if 0.0 < step <= 1.0 {
      var p := windowMs as real * step;
      ScaleTowardZero(windowMs, step, p);
      if windowMs >= 0 {
        RoundWithin(p, 0, windowMs);
      } else {
        RoundWithin(p, windowMs, 0);
      }
    }
  }

  /** offset_ms: the distance between window midpoints, in samples. For a
      step in (0, 1] it lies between zero and the window, on the window's
      side of zero, so a zero window gives a zero offset. */
  function StepSamples(windowMs: int, step: real): (r: int)
    ensures 0.0 < step <= 1.0 && windowMs >= 0 ==> 0 <= r <= windowMs
    ensures 0.0 < step <= 1.0 && windowMs <= 0 ==> windowMs <= r <= 0
  {
    OffsetWithin(windowMs, step);
    RoundHalfEven(windowMs as real * step)
  }

  /** np.arange(start, stop, step) for integers and a positive step. */
  function Arange(start: int, stop: int, step: nat): (r: seq<int>)
    requires step > 0
    ensures |r| == 0 <==> start >= stop
    decreases stop - start
  {
    if start >= stop then [] else [start] + Arange(start + step, stop, step)
  }

  /** np.arange(start, stop, -down): the grid for a negative step, running
      down from start while it stays above stop. */
  function ArangeDown(start: int, stop: int, down: nat): (r: seq<int>)
    requires down > 0
    ensures |r| == 0 <==> start <= stop
    ensures forall k :: 0 <= k < |r| ==> stop < r[k] <= start
    decreases start - stop
  {
    if start <= stop then [] else [start] + ArangeDown(start - down, stop, down)
  }

  /** The grid np.arange builds: it begins at start, value k is
      start + k * step, every value lies in [start, stop), and the next
      value after the last would reach stop. */
  lemma {:induction false} ArangeIsGrid(start: int, stop: int, step: nat)
    requires step > 0
    ensures forall k :: 0 <= k < |Arange(start, stop, step)| ==>
              Arange(start, stop, step)[k] == start + k * step
    ensures forall k :: 0 <= k < |Arange(start, stop, step)| ==>
              start <= Arange(start, stop, step)[k] < stop
    ensures |Arange(start, stop, step)| > 0 ==>
              stop <= Arange(start, stop, step)[|Arange(start, stop, step)| - 1] + step
    decreases stop - start
  {
    if start < stop {
      ArangeIsGrid(start + step, stop, step);
      var r, rest := Arange(start, stop, step), Arange(start + step, stop, step);
      assert r == [start] + rest;
      forall k | 1 <= k < |r| ensures r[k] == start + k * step {
        assert r[k] == rest[k - 1] == start + step + (k - 1) * step;
        assert step + (k - 1) * step == k * step;
      }
    }
  }

  /** Clamp the requested time range to the timestamps: np.max with ts[0]
      below, np.min with ts[-1] above. */
  function ClampLow(ts: seq<real>, lo: real): (r: real)
    requires ts != []
    ensures r == lo || r == ts[0]
    ensures lo <= r && ts[0] <= r
  {
    if lo < ts[0] then ts[0] else lo
  }

  function ClampHigh(ts: seq<real>, hi: real): (r: real)
    requires ts != []
    ensures r == hi || r == ts[|ts| - 1]
    ensures r <= hi && r <= ts[|ts| - 1]
  {
    if hi < ts[|ts| - 1] then hi else ts[|ts| - 1]
  }

  /** mid_idx: midpoints from floor(nearest(lo) + w/2), stepping by offset,
      strictly below ceil(1 + nearest(hi) - w/2). Every window
      [mid - floor(w/2), mid - floor(w/2) + w) lies inside the time axis. */
  function MidIndices(ts: seq<real>, lo: real, hi: real, windowMs: int, offset: nat): (mids: seq<int>)
    requires ts != [] && windowMs >= 1 && offset > 0
    ensures forall k :: 0 <= k < |mids| ==>
              0 <= mids[k] - windowMs / 2 && mids[k] - windowMs / 2 + windowMs <= |ts|
    ensures forall k :: 0 <= k < |mids| ==> mids[k] < |ts|
  {
    var start := GridStart(ts, lo, windowMs);
    var stop := GridStop(ts, hi, windowMs);
    ArangeIsGrid(start, stop, offset);
    Arange(start, stop, offset)
  }

  /** The first and the bound of the midpoint grid, start_idx and stop_idx. */
  function GridStart(ts: seq<real>, lo: real, windowMs: int): (r: int)
    requires ts != []
    ensures 0 <= r - windowMs / 2 < |ts|
    ensures forall j :: 0 <= j < |ts| ==>
              Abs(ts[r - windowMs / 2] - ClampLow(ts, lo)) <= Abs(ts[j] - ClampLow(ts, lo))
    ensures forall j :: 0 <= j < r - windowMs / 2 ==>
              Abs(ts[r - windowMs / 2] - ClampLow(ts, lo)) < Abs(ts[j] - ClampLow(ts, lo))
  {
    Nearest(ts, ClampLow(ts, lo)) + windowMs / 2
  }

  function GridStop(ts: seq<real>, hi: real, windowMs: int): (r: int)
    requires ts != []
    ensures 0 <= r - 1 + windowMs / 2 < |ts|
    ensures forall j :: 0 <= j < |ts| ==>
              Abs(ts[r - 1 + windowMs / 2] - ClampHigh(ts, hi)) <= Abs(ts[j] - ClampHigh(ts, hi))
    ensures forall j :: 0 <= j < r - 1 + windowMs / 2 ==>
              Abs(ts[r - 1 + windowMs / 2] - ClampHigh(ts, hi)) < Abs(ts[j] - ClampHigh(ts, hi))
  {
    1 + Nearest(ts, ClampHigh(ts, hi)) - windowMs / 2
  }

  /** The one input the model leaves out: a negative window (so a negative
      offset) whose grid runs downward because the nearest index of the low
      end lies beyond that of the high end. Every window would then be an
      empty slice whose mean is NaN. */
  predicate DownwardGrid(ts: seq<real>, lo: real, hi: real, windowMs: int, step: real) {
    && 0.0 < step <= 1.0 && lo < hi && ts != []
    && windowMs < 0 && StepSamples(windowMs, step) != 0
    && GridStart(ts, lo, windowMs) > GridStop(ts, hi, windowMs)
  }

  /** The samples of one source at one sync point, along the time axis. */
  function Trace(data: seq<seq<seq<real>>>, nt: nat, ns: nat, row: nat, u: nat): (x: seq<real>)
    requires IsCube(data, nt, ns) && row < |data| && u < ns
    ensures |x| == nt
  {
    seq(nt, t requires 0 <= t < nt => data[row][t][u])
  }

  /** The mean of the w samples of x starting at `from`. */
  function WindowMean(x: seq<real>, from: nat, w: nat): real
    requires w >= 1 && from + w <= |x|
  {
    SumRange(x, from, from + w) / w as real
  }

  /** A window over a plateau averages to the plateau value. */
  lemma WindowMeanOfPlateau(x: seq<real>, from: nat, w: nat, v: real)
    requires w >= 1 && from + w <= |x|
    requires forall t :: from <= t < from + w ==> x[t] == v
    ensures WindowMean(x, from, w) == v
  {
    SumRangeConst(x, from, from + w, v);
  }

  /** Every window around a midpoint lies inside a time axis of nt samples. */
  predicate WindowsFit(mids: seq<int>, w: int, nt: nat) {
    w >= 1 &&
    forall k :: 0 <= k < |mids| ==> 0 <= mids[k] - w / 2 && mids[k] - w / 2 + w <= nt
  }

  /** data[row, mids[k] + t_idx, u].mean(): the average of source u at sync
      point row over the w samples mids[k] - floor(w/2) .. mids[k] + ceil(w/2) - 1. */
  function MeanAt(data: seq<seq<seq<real>>>, nt: nat, ns: nat, mids: seq<int>, w: int,
                  row: nat, k: nat, u: nat): real
    requires IsCube(data, nt, ns) && WindowsFit(mids, w, nt)
    requires row < |data| && k < |mids| && u < ns
  {
    WindowMean(Trace(data, nt, ns, row, u), mids[k] - w / 2, w)
  }

  /** The loop of sliding_avg: a preallocated nsync x |mids| x ns array is
      filled one time column at a time, each cell with its window mean. */
  method FillMeans(data: seq<seq<seq<real>>>, nt: nat, ns: nat, mids: seq<int>, w: int)
    returns (values: seq<seq<seq<real>>>)
    requires IsCube(data, nt, ns) && WindowsFit(mids, w, nt)
    ensures |values| == |data| && IsCube(values, |mids|, ns)
    ensures forall row, k, u :: 0 <= row < |data| && 0 <= k < |mids| && 0 <= u < ns ==>
              values[row][k][u] == MeanAt(data, nt, ns, mids, w, row, k, u)
  {
    var nsync, nmid := |data|, |mids|;
    var out := new real[nsync, nmid, ns];
    for i := 0 to nmid
      invariant forall row, k, u :: 0 <= row < nsync && 0 <= k < i && 0 <= u < ns ==>
                  out[row, k, u] == MeanAt(data, nt, ns, mids, w, row, k, u)
    {
      for row := 0 to nsync
        invariant forall row', k, u :: 0 <= row' < nsync && 0 <= k < i && 0 <= u < ns ==>
                    out[row', k, u] == MeanAt(data, nt, ns, mids, w, row', k, u)
        invariant forall row', u :: 0 <= row' < row && 0 <= u < ns ==>
                    out[row', i, u] == MeanAt(data, nt, ns, mids, w, row', i, u)
      {
        for u := 0 to ns
          invariant forall row', k, u' :: 0 <= row' < nsync && 0 <= k < i && 0 <= u' < ns ==>
                      out[row', k, u'] == MeanAt(data, nt, ns, mids, w, row', k, u')
          invariant forall row', u' :: 0 <= row' < row && 0 <= u' < ns ==>
                      out[row', i, u'] == MeanAt(data, nt, ns, mids, w, row', i, u')
          invariant forall u' :: 0 <= u' < u ==>
                      out[row, i, u'] == MeanAt(data, nt, ns, mids, w, row, i, u')
        {
          out[row, i, u] := MeanAt(data, nt, ns, mids, w, row, i, u);
        }
      }
    }
    values := seq(nsync, row requires 0 <= row < nsync reads out =>
                    seq(nmid, k requires 0 <= k < nmid reads out =>
                      seq(ns, u requires 0 <= u < ns reads out => out[row, k, u])));
  }

  /** What sliding_avg returns: mid_times and data_smooth. */
  datatype Smoothed = Smoothed(midTimes: seq<real>, values: seq<seq<seq<real>>>)

  /** sliding_avg: validate step and time range, find the midpoint grid, and
      fill data_smooth one time column at a time with the mean of the
      window around each midpoint, per sync point and source. The caller
      passes timestamps that match the time axis of the data. A window of
      zero samples gives a zero offset, which np.arange refuses; a negative
      window gives a negative offset, and a grid running down from start_idx
      is empty because start_idx does not lie above stop_idx. */
  method SlidingAvg(data: seq<seq<seq<real>>>, ns: nat, ts: seq<real>, lo: real, hi: real,
                    windowMs: int, step: real)
    returns (r: Result<Smoothed>)
    requires !DownwardGrid(ts, lo, hi, windowMs, step)
    requires IsCube(data, |ts|, ns)
    ensures (step <= 0.0 || step > 1.0) ==> r == Err(BadStep)
    ensures 0.0 < step <= 1.0 && lo >= hi ==> r == Err(BadTimeRange)
    ensures 0.0 < step <= 1.0 && lo < hi && ts == [] ==> r == Err(IndexOutOfBounds)
    ensures 0.0 < step <= 1.0 && lo < hi && ts != [] && StepSamples(windowMs, step) == 0 ==>
              r == Err(ZeroStep)
    ensures r.Ok? <==> 0.0 < step <= 1.0 && lo < hi && ts != [] && StepSamples(windowMs, step) != 0
    ensures r.Ok? && windowMs < 0 ==>
              && r.value.midTimes == []
              && |r.value.values| == |data|
              && (forall row :: 0 <= row < |data| ==> r.value.values[row] == [])
    ensures r.Ok? && windowMs >= 1 ==>
              var mids := MidIndices(ts, lo, hi, windowMs, StepSamples(windowMs, step));
              && |r.value.midTimes| == |mids|
              && (forall k :: 0 <= k < |mids| ==> r.value.midTimes[k] == ts[mids[k]])
              && |r.value.values| == |data|
              && IsCube(r.value.values, |mids|, ns)
              && WindowsFit(mids, windowMs, |ts|)
              && (forall row, k, u :: 0 <= row < |data| && 0 <= k < |mids| && 0 <= u < ns ==>
                    r.value.values[row][k][u] == MeanAt(data, |ts|, ns, mids, windowMs, row, k, u))
  {
    if step <= 0.0 || step > 1.0 {
      return Err(BadStep);
    }
    if lo >= hi {
      return Err(BadTimeRange);
    }
    if ts == [] {
      return Err(IndexOutOfBounds);
    }
    var offset := StepSamples(windowMs, step);
    if offset == 0 {
      return Err(ZeroStep);
    }
    if offset < 0 {
      var mids := ArangeDown(GridStart(ts, lo, windowMs), GridStop(ts, hi, windowMs), -offset);
      assert mids == [];
      return Ok(Smoothed([], seq(|data|, row => [])));
    }
    var mids := MidIndices(ts, lo, hi, windowMs, offset);
    assert WindowsFit(mids, windowMs, |ts|);
    var midTimes := seq(|mids|, k requires 0 <= k < |mids| => ts[mids[k]]);
    var values := FillMeans(data, |ts|, ns, mids, windowMs);
    return Ok(Smoothed(midTimes, values));
  }

  /** Exact hits: when timestamps strictly increase and t is one of them,
      the nearest index is that timestamp's own index. */
  lemma NearestOfExactTimestamp(ts: seq<real>, j: nat)
    requires j < |ts|
    requires forall a, b :: 0 <= a < b < |ts| ==> ts[a] < ts[b]
    ensures Nearest(ts, ts[j]) == j
  {
    var k := Nearest(ts, ts[j]);
    assert Abs(ts[k] - ts[j]) <= Abs(ts[j] - ts[j]);
  }

  /** The time range of the averaging test spans the whole time axis. */
  lemma PlateauEnds(ts: seq<real>)
    requires |ts| == 100 && forall i :: 0 <= i < 100 ==> ts[i] == i as real / 1000.0
    ensures Nearest(ts, ClampLow(ts, ts[0])) == 0
    ensures Nearest(ts, ClampHigh(ts, ts[99])) == 99
  {
    NearestOfExactTimestamp(ts, 0);
    NearestOfExactTimestamp(ts, 99);
  }

  /** The midpoints of the averaging test of the repository: 100
      timestamps 1 ms apart, the full time range, a window of 10 samples and
      step 1 give an offset of 10 samples and the nine midpoints 5, 15, ..., 85. */
  lemma PlateauMidpoints(ts: seq<real>)
    requires |ts| == 100 && forall i :: 0 <= i < 100 ==> ts[i] == i as real / 1000.0
    ensures StepSamples(10, 1.0) == 10
    ensures MidIndices(ts, ts[0], ts[99], 10, 10) == seq(9, k => 5 + 10 * k)
  {
    assert RoundHalfEven(10 as real * 1.0) == 10;
    PlateauEnds(ts);
    GridOfPlateau();
  }

  /** The grid of midpoints 5, 15, ..., 85. */
  lemma GridOfPlateau()
    ensures Arange(5, 95, 10) == seq(9, k => 5 + 10 * k)
  {
    assert Arange(5, 95, 10) == [5, 15, 25, 35, 45, 55, 65, 75, 85];
  }

  /** The windows of the averaging test: over ten plateaus of 10 samples
      holding 0, 1, ..., 9, the window starting at 10k holds only the value
      k, so its mean is k. */
  lemma PlateauMeans(x: seq<real>)
    requires |x| == 100 && forall t :: 0 <= t < 100 ==> x[t] == (t / 10) as real
    ensures forall k :: 0 <= k < 9 ==> WindowMean(x, 10 * k, 10) == k as real
  {
    forall k | 0 <= k < 9 ensures WindowMean(x, 10 * k, 10) == k as real {
      forall t | 10 * k <= t < 10 * k + 10 ensures x[t] == k as real {
        assert t / 10 == k;
      }
      WindowMeanOfPlateau(x, 10 * k, 10, k as real);
    }
  }

  /** At every sync point of the averaging test, the window around
      midpoint k holds the k-th plateau. */
  lemma PlateauWindowMeans(data: seq<seq<seq<real>>>, plateau: seq<real>, mids: seq<int>)
    requires |plateau| == 100 && forall t :: 0 <= t < 100 ==> plateau[t] == (t / 10) as real
    requires |data| == 5 && forall row :: 0 <= row < 5 ==>
               |data[row]| == 100 && forall t :: 0 <= t < 100 ==> data[row][t] == [plateau[t]]
    requires mids == seq(9, k => 5 + 10 * k)
    ensures IsCube(data, 100, 1) && WindowsFit(mids, 10, 100)
    ensures forall row, k :: 0 <= row < 5 && 0 <= k < 9 ==>
              MeanAt(data, 100, 1, mids, 10, row, k, 0) == k as real
  {
    PlateauMeans(plateau);
    forall row, k | 0 <= row < 5 && 0 <= k < 9
      ensures MeanAt(data, 100, 1, mids, 10, row, k, 0) == k as real
    {
      assert Trace(data, 100, 1, row, 0) == plateau;
      assert mids[k] - 10 / 2 == 10 * k;
    }
  }

  /** The averaging test of the repository: five sync points, 100 samples
      of one source on ten plateaus 0..9, a 10 ms window and step 1 smooth to
      0, 1, ..., 8 at every sync point. */
  method PlateauTestCase() returns (smoothed: seq<seq<seq<real>>>)
    ensures |smoothed| == 5 && IsCube(smoothed, 9, 1)
    ensures forall row, k :: 0 <= row < 5 && 0 <= k < 9 ==> smoothed[row][k][0] == k as real
  {
    var plateau := seq(100, t requires 0 <= t < 100 => (t / 10) as real);
    var data := seq(5, row requires 0 <= row < 5 => seq(100, t requires 0 <= t < 100 => [plateau[t]]));
    var ts := seq(100, i requires 0 <= i < 100 => i as real / 1000.0);
    PlateauMidpoints(ts);
    var mids := MidIndices(ts, ts[0], ts[99], 10, 10);
    PlateauWindowMeans(data, plateau, mids);
    var r := SlidingAvg(data, 1, ts, ts[0], ts[99], 10, 1.0);
    smoothed := r.value.values;
    assert |smoothed| == 5 && |r.value.midTimes| == 9;
  }
}

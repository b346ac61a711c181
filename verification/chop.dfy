/** The window chopper of brain.py: cut a units x time signal into windows
    around sync points, giving a sync x time x unit tensor. Sync points and
    window bounds are integer milliseconds (already rounded). */
module Chop {
  import opened Common

  /** The rounded index of a missing event: the -1 s sentinel, in ms. */
  const MissingMs: int := -1000

  /** The sync index after the manual fix of brain.py:193: -1000 becomes -1. */
  function SyncIndex(s: int): (r: int)
    ensures r == -1 <==> s == MissingMs || s == -1
    ensures r == s || (s == MissingMs && r == -1)
  {
    if s == MissingMs then -1 else s
  }

  /** A sync point chop treats as missing: its fixed index is -1. This holds
      for the sentinel -1000 and also for a genuine sync point at -1 ms. */
  predicate IsMissing(s: int) {
    SyncIndex(s) == -1
  }

  /** Number of window samples, the length of np.arange(lo, hi). */
  function WindowLength(lo: int, hi: int): nat {
    if lo < hi then hi - lo else 0
  }

  /** Entry (row, c) of the index matrix long_idx: sync index plus window
      offset lo + c, and -1 across the whole row of a missing sync point. */
  function LongIndex(s: int, lo: int, c: int): (r: int)
    ensures IsMissing(s) ==> r == -1
    ensures !IsMissing(s) ==> r == s + lo + c
  {
    if IsMissing(s) then -1 else SyncIndex(s) + lo + c
  }

  /** Every entry of long_idx is an index numpy accepts on a series of T samples. */
  predicate IndicesValid(syncMs: seq<int>, lo: int, hi: int, T: nat) {
    forall row, c :: 0 <= row < |syncMs| && 0 <= c < WindowLength(lo, hi) ==>
      InPyRange(LongIndex(syncMs[row], lo, c), T)
  }

  predicate NoUnitAxis(shape: seq<nat>) {
    forall i :: 0 <= i < |shape| ==> shape[i] != 1
  }

  predicate OnlyUnitAxes(shape: seq<nat>) {
    forall i :: 0 <= i < |shape| ==> shape[i] == 1
  }

  /** np.squeeze: drop every axis of length one, keeping the others in
      order. The ensures clauses and SqueezeAppend pin it down: a shape with
      no unit axis is kept as is, a shape of unit axes vanishes, and
      squeezing works piece by piece on a concatenation. */
  function Squeeze(shape: seq<nat>): (r: seq<nat>)
    ensures forall i :: 0 <= i < |r| ==> r[i] != 1
    ensures |r| <= |shape|
    ensures NoUnitAxis(shape) ==> r == shape
    ensures OnlyUnitAxes(shape) ==> r == []
  {
    if shape == [] then []
    else (if shape[0] == 1 then [] else [shape[0]]) + Squeeze(shape[1..])
  }

  /** Squeezing a concatenation squeezes each part: the surviving axes keep
      their order. */
  lemma {:induction false} SqueezeAppend(a: seq<nat>, b: seq<nat>)
    ensures Squeeze(a + b) == Squeeze(a) + Squeeze(b)
  {
    if a == [] {
      assert a + b == b;
    } else {
      assert (a + b)[0] == a[0] && (a + b)[1..] == a[1..] + b;
      SqueezeAppend(a[1..], b);
    }
  }

  /** Number of elements of an array with this shape. */
  function Product(shape: seq<nat>): nat {
    if shape == [] then 1 else shape[0] * Product(shape[1..])
  }

  /** Squeezing never changes how many elements the array holds. */
  lemma {:induction false} SqueezeKeepsSize(shape: seq<nat>)
    ensures Product(Squeeze(shape)) == Product(shape)
  {
    if shape != [] {
      SqueezeKeepsSize(shape[1..]);
      var head := if shape[0] == 1 then [] else [shape[0]];
      ProductAppend(head, Squeeze(shape[1..]));
    }
  }

  lemma {:induction false} ProductAppend(a: seq<nat>, b: seq<nat>)
    ensures Product(a + b) == Product(a) * Product(b)
  {
    if a != [] {
      assert (a + b)[0] == a[0] && (a + b)[1..] == a[1..] + b;
      ProductAppend(a[1..], b);
      calc {
        Product(a + b);
        a[0] * Product(a[1..] + b);
        a[0] * (Product(a[1..]) * Product(b));
        (a[0] * Product(a[1..])) * Product(b);
      }
    } else {
      assert a + b == b;
    }
  }

  /** The shape chop reports: nsync x nt x nunits, squeezed when there is a
      single unit. */
  function ChopShape(nsync: nat, nt: nat, nunits: nat): seq<nat> {
    if nunits == 1 then Squeeze([nsync, nt, 1]) else [nsync, nt, nunits]
  }

  /** With a single unit the unit axis goes, and so does the time or sync
      axis when it has length one; with no axis of length one chop returns a
      2-D nsync x nt array. */
  lemma ChopShapeOneUnit(nsync: nat, nt: nat)
    ensures ChopShape(nsync, nt, 1) == Squeeze([nsync, nt])
    ensures nsync != 1 && nt != 1 ==> ChopShape(nsync, nt, 1) == [nsync, nt]
  {
    assert [nsync, nt, 1] == [nsync, nt] + [1];
    SqueezeAppend([nsync, nt], [1]);
  }

  /** The result of chop: the shape numpy reports, and the values addressed
      as cube[sync][time][unit] (squeezing only drops axes of length one,
      so it never reorders values). */
  datatype Chopped = Chopped(shape: seq<nat>, cube: seq<seq<seq<real>>>)

  /** long_brain[u][long_idx[row, c]]: the sample chop gathers into cell
      (row, c, u). */
  function Gathered(longBrain: seq<seq<real>>, T: nat, syncMs: seq<int>, lo: int, hi: int,
                    row: nat, c: nat, u: nat): real
    requires IsMatrix(longBrain, T) && IndicesValid(syncMs, lo, hi, T)
    requires row < |syncMs| && c < WindowLength(lo, hi) && u < |longBrain|
  {
    longBrain[u][Wrap(LongIndex(syncMs[row], lo, c), T)]
  }

  /** The loops of chop: for each unit, gather its samples at the index
      matrix into slice [:, :, u] of a preallocated nsync x nt x nunits array. */
  method GatherAll(longBrain: seq<seq<real>>, T: nat, syncMs: seq<int>, lo: int, hi: int)
    returns (cube: seq<seq<seq<real>>>)
    requires IsMatrix(longBrain, T) && IndicesValid(syncMs, lo, hi, T)
    ensures CubeShaped(longBrain, syncMs, lo, hi, cube)
    ensures forall row, c, u ::
              0 <= row < |syncMs| && 0 <= c < WindowLength(lo, hi) && 0 <= u < |longBrain| ==>
                cube[row][c][u] == Gathered(longBrain, T, syncMs, lo, hi, row, c, u)
  {
    var nsync, nt, nunits := |syncMs|, WindowLength(lo, hi), |longBrain|;
    var out := new real[nsync, nt, nunits];
    for u := 0 to nunits
      invariant forall row, c, v :: 0 <= row < nsync && 0 <= c < nt && 0 <= v < u ==>
                  out[row, c, v] == Gathered(longBrain, T, syncMs, lo, hi, row, c, v)
    {
      for row := 0 to nsync
        invariant forall row', c, v :: 0 <= row' < nsync && 0 <= c < nt && 0 <= v < u ==>
                    out[row', c, v] == Gathered(longBrain, T, syncMs, lo, hi, row', c, v)
        invariant forall row', c :: 0 <= row' < row && 0 <= c < nt ==>
                    out[row', c, u] == Gathered(longBrain, T, syncMs, lo, hi, row', c, u)
      {
        for c := 0 to nt
          invariant forall row', c', v :: 0 <= row' < nsync && 0 <= c' < nt && 0 <= v < u ==>
                      out[row', c', v] == Gathered(longBrain, T, syncMs, lo, hi, row', c', v)
          invariant forall row', c' :: 0 <= row' < row && 0 <= c' < nt ==>
                      out[row', c', u] == Gathered(longBrain, T, syncMs, lo, hi, row', c', u)
          invariant forall c' :: 0 <= c' < c ==>
                      out[row, c', u] == Gathered(longBrain, T, syncMs, lo, hi, row, c', u)
        {
          out[row, c, u] := Gathered(longBrain, T, syncMs, lo, hi, row, c, u);
        }
      }
    }
    cube := seq(nsync, row requires 0 <= row < nsync reads out =>
              seq(nt, c requires 0 <= c < nt reads out =>
                seq(nunits, u requires 0 <= u < nunits reads out => out[row, c, u])));
  }

  /** What a gathered cell holds: the last sample of the unit's trace for a
      missing sync point (index -1 wraps), and otherwise the sample at the
      sync point plus the window offset, counted from the end when negative. */
  lemma GatheredCell(longBrain: seq<seq<real>>, T: nat, syncMs: seq<int>, lo: int, hi: int,
                     row: nat, c: nat, u: nat)
    requires IsMatrix(longBrain, T) && IndicesValid(syncMs, lo, hi, T)
    requires row < |syncMs| && c < WindowLength(lo, hi) && u < |longBrain|
    ensures IsMissing(syncMs[row]) ==>
              LongIndex(syncMs[row], lo, c) == -1 && InPyRange(-1, T) &&
              Gathered(longBrain, T, syncMs, lo, hi, row, c, u) == longBrain[u][T - 1]
    ensures !IsMissing(syncMs[row]) ==>
              LongIndex(syncMs[row], lo, c) == syncMs[row] + lo + c &&
              InPyRange(syncMs[row] + lo + c, T) &&
              Gathered(longBrain, T, syncMs, lo, hi, row, c, u) ==
                longBrain[u][Wrap(syncMs[row] + lo + c, T)]
  {
    assert InPyRange(LongIndex(syncMs[row], lo, c), T);
  }

  /** A chopped cube of values: |syncMs| x nt x nunits. */
  predicate CubeShaped(longBrain: seq<seq<real>>, syncMs: seq<int>, lo: int, hi: int,
                       cube: seq<seq<seq<real>>>) {
    |cube| == |syncMs| && IsCube(cube, WindowLength(lo, hi), |longBrain|)
  }

  /** Rows of missing sync points repeat the last sample of each unit: their
      whole index row is -1, which numpy reads from the end. */
  predicate MissingRowsRepeatLast(longBrain: seq<seq<real>>, T: nat, syncMs: seq<int>, lo: int, hi: int,
                                  cube: seq<seq<seq<real>>>)
    requires IsMatrix(longBrain, T) && CubeShaped(longBrain, syncMs, lo, hi, cube)
  {
    forall row, c, u ::
      0 <= row < |syncMs| && 0 <= c < WindowLength(lo, hi) && 0 <= u < |longBrain| &&
      IsMissing(syncMs[row]) ==>
        LongIndex(syncMs[row], lo, c) == -1 && InPyRange(-1, T) &&
        cube[row][c][u] == longBrain[u][T - 1]
  }

  /** Every other row holds, at column c, the sample at the sync point plus
      lo + c, counted from the end of the trace when that index is negative. */
  predicate PresentRowsReadWindow(longBrain: seq<seq<real>>, T: nat, syncMs: seq<int>, lo: int, hi: int,
                                  cube: seq<seq<seq<real>>>)
    requires IsMatrix(longBrain, T) && CubeShaped(longBrain, syncMs, lo, hi, cube)
  {
    forall row, c, u ::
      0 <= row < |syncMs| && 0 <= c < WindowLength(lo, hi) && 0 <= u < |longBrain| &&
      !IsMissing(syncMs[row]) ==>
        LongIndex(syncMs[row], lo, c) == syncMs[row] + lo + c &&
        InPyRange(syncMs[row] + lo + c, T) &&
        cube[row][c][u] == longBrain[u][Wrap(syncMs[row] + lo + c, T)]
  }

  /** Every cell of the gathered array, split by whether its sync point is missing. */
  lemma GatheredCube(longBrain: seq<seq<real>>, T: nat, syncMs: seq<int>, lo: int, hi: int,
                     cube: seq<seq<seq<real>>>)
    requires IsMatrix(longBrain, T) && IndicesValid(syncMs, lo, hi, T)
    requires CubeShaped(longBrain, syncMs, lo, hi, cube)
    requires forall row, c, u ::
               0 <= row < |syncMs| && 0 <= c < WindowLength(lo, hi) && 0 <= u < |longBrain| ==>
                 cube[row][c][u] == Gathered(longBrain, T, syncMs, lo, hi, row, c, u)
    ensures MissingRowsRepeatLast(longBrain, T, syncMs, lo, hi, cube)
    ensures PresentRowsReadWindow(longBrain, T, syncMs, lo, hi, cube)
  {
    forall row, c, u | 0 <= row < |syncMs| && 0 <= c < WindowLength(lo, hi) && 0 <= u < |longBrain| &&
                       IsMissing(syncMs[row])
      ensures LongIndex(syncMs[row], lo, c) == -1 && InPyRange(-1, T) &&
              cube[row][c][u] == longBrain[u][T - 1]
    {
      assert cube[row][c][u] == Gathered(longBrain, T, syncMs, lo, hi, row, c, u);
      GatheredCell(longBrain, T, syncMs, lo, hi, row, c, u);
    }
    forall row, c, u | 0 <= row < |syncMs| && 0 <= c < WindowLength(lo, hi) && 0 <= u < |longBrain| &&
                       !IsMissing(syncMs[row])
      ensures LongIndex(syncMs[row], lo, c) == syncMs[row] + lo + c &&
              InPyRange(syncMs[row] + lo + c, T) &&
              cube[row][c][u] == longBrain[u][Wrap(syncMs[row] + lo + c, T)]
    {
      assert cube[row][c][u] == Gathered(longBrain, T, syncMs, lo, hi, row, c, u);
      GatheredCell(longBrain, T, syncMs, lo, hi, row, c, u);
    }
  }

  /** chop: build the index matrix, then gather every unit's samples at it.
      An index outside [-T, T) raises IndexError; with no units nothing is
      gathered and nothing can fail. */
  method Chop(longBrain: seq<seq<real>>, T: nat, syncMs: seq<int>, lo: int, hi: int)
    returns (r: Result<Chopped>)
    requires IsMatrix(longBrain, T)
    ensures r.Ok? <==> |longBrain| == 0 || IndicesValid(syncMs, lo, hi, T)
    ensures r.Err? ==> r.error == IndexOutOfBounds
    ensures r.Ok? ==> r.value.shape == ChopShape(|syncMs|, WindowLength(lo, hi), |longBrain|)
    ensures r.Ok? ==> CubeShaped(longBrain, syncMs, lo, hi, r.value.cube)
    ensures r.Ok? ==> MissingRowsRepeatLast(longBrain, T, syncMs, lo, hi, r.value.cube)
    ensures r.Ok? ==> PresentRowsReadWindow(longBrain, T, syncMs, lo, hi, r.value.cube)
  {
    var nsync, nt, nunits := |syncMs|, WindowLength(lo, hi), |longBrain|;
    if nunits == 0 {
      var empty := seq(nsync, row => seq(nt, c => []));
      return Ok(Chopped(ChopShape(nsync, nt, nunits), empty));
    }
    if !IndicesValid(syncMs, lo, hi, T) {
      return Err(IndexOutOfBounds);
    }
    var cube := GatherAll(longBrain, T, syncMs, lo, hi);
    GatheredCube(longBrain, T, syncMs, lo, hi, cube);
    return Ok(Chopped(ChopShape(nsync, nt, nunits), cube));
  }

  /** Chopping one unit's trace at a sync point at 0 ms with the window
      [-1 ms, 1 ms) yields a vector of two samples: the LAST sample of the
      trace (index -1 wraps) followed by the first. */
  method ChopAtSessionStart(x: seq<real>) returns (w: Result<Chopped>)
    requires |x| >= 1
    ensures w.Ok? && w.value.shape == [2]
    ensures w.value.cube == [[[x[|x| - 1]], [x[0]]]]
  {
    assert IndicesValid([0], -1, 1, |x|);
    w := Chop([x], |x|, [0], -1, 1);
    var cube := w.value.cube;
    assert !IsMissing([0][0]) && 0 < WindowLength(-1, 1);
    assert InPyRange([0][0] + -1 + 0, |x|) && InPyRange([0][0] + -1 + 1, |x|);
    assert cube[0][0][0] == [x][0][Wrap([0][0] + -1 + 0, |x|)] == x[|x| - 1];
    assert cube[0][1][0] == [x][0][Wrap([0][0] + -1 + 1, |x|)] == x[0];
    assert cube[0][0] == [x[|x| - 1]];
    assert cube[0][1] == [x[0]];
    assert cube[0] == [[x[|x| - 1]], [x[0]]];
  }

  /** The chop test of the repository: five units of 50 samples holding
      0..249 in order, sync points at 10 and 20 ms, window [-3, 3) ms. */
  method ChopTestCase() returns (out: Result<Chopped>)
    ensures out.Ok? && out.value.shape == [2, 6, 5]
    ensures |out.value.cube| == 2 && IsCube(out.value.cube, 6, 5)
    ensures forall row, c, u :: 0 <= row < 2 && 0 <= c < 6 && 0 <= u < 5 ==>
              out.value.cube[row][c][u] == (50 * u + 10 * (row + 1) - 3 + c) as real
  {
    var data := seq(5, u requires 0 <= u < 5 => seq(50, t requires 0 <= t < 50 => (50 * u + t) as real));
    var syncs := [10, 20];
    assert IndicesValid(syncs, -3, 3, 50);
    out := Chop(data, 50, syncs, -3, 3);
    var cube := out.value.cube;
    assert out.value.shape == [2, 6, 5];
    forall row, c, u | 0 <= row < 2 && 0 <= c < 6 && 0 <= u < 5
      ensures cube[row][c][u] == (50 * u + 10 * (row + 1) - 3 + c) as real
    {
      assert syncs[row] == 10 * (row + 1) && !IsMissing(syncs[row]);
      assert InPyRange(syncs[row] + -3 + c, 50);
      assert cube[row][c][u] == data[u][syncs[row] - 3 + c];
    }
  }
}

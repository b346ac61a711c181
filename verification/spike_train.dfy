/** The spike-train builder of brain.py: spike timestamps (already rounded to
    integer milliseconds) become 0/1 trains at 1 kHz, one row per unit, sized
    to cover the whole session. Also the two ways the module reads a channel
    number out of a unit name. */
module SpikeTrain {
  import opened Common

  /** Every spike index is one numpy accepts for a train of n samples. */
  predicate AllInPyRange(ms: seq<int>, n: nat) {
    forall k :: 0 <= k < |ms| ==> InPyRange(ms[k], n)
  }

  /** Some spike of `ms` lands on sample i of an n-sample train. */
  predicate SpikeAt(ms: seq<int>, n: nat, i: nat)
    requires AllInPyRange(ms, n)
  {
    exists k :: 0 <= k < |ms| && Wrap(ms[k], n) == i
  }

  /** The train ts_to_train builds: 1.0 where a spike lands, 0.0 elsewhere. */
  function Train(ms: seq<int>, n: nat): (t: seq<real>)
    requires AllInPyRange(ms, n)
    ensures |t| == n
    ensures forall i :: 0 <= i < n ==> t[i] == 0.0 || t[i] == 1.0
  {
    seq(n, i requires 0 <= i < n => if SpikeAt(ms, n, i) then 1.0 else 0.0)
  }

  /** ts_to_train: zero a buffer of n samples, then write a one at every
      spike index; an index numpy refuses raises IndexError. */
  method TsToTrain(ms: seq<int>, n: nat) returns (r: Result<seq<real>>)
    ensures r.Ok? <==> AllInPyRange(ms, n)
    ensures r.Err? ==> r.error == IndexOutOfBounds
    ensures r.Ok? ==> r.value == Train(ms, n)
  {
    var train := new real[n](_ => 0.0);
    for k := 0 to |ms|
      invariant AllInPyRange(ms[..k], n)
      invariant forall i :: 0 <= i < n ==>
                  train[i] == if SpikeAt(ms[..k], n, i) then 1.0 else 0.0
    {
      if !InPyRange(ms[k], n) {
        return Err(IndexOutOfBounds);
      }
      var at := Wrap(ms[k], n);
      train[at] := 1.0;
      forall i | 0 <= i < n
        ensures train[i] == if SpikeAt(ms[..k + 1], n, i) then 1.0 else 0.0
      {
        assert ms[..k + 1][k] == ms[k];
        if i != at {
          if SpikeAt(ms[..k + 1], n, i) {
            var j :| 0 <= j < k + 1 && Wrap(ms[..k + 1][j], n) == i;
            assert ms[..k][j] == ms[..k + 1][j];
          }
          if SpikeAt(ms[..k], n, i) {
            var j :| 0 <= j < k && Wrap(ms[..k][j], n) == i;
            assert ms[..k][j] == ms[..k + 1][j];
          }
        }
      }
    }
    assert ms[..|ms|] == ms;
    return Ok(train[..]);
  }

  /** get_raster: one train per unit, written row by row into a
      preallocated nunits x n buffer. Row u is unit u's train and nothing else. */
  method GetRaster(units: seq<seq<int>>, n: nat) returns (r: Result<seq<seq<real>>>)
    ensures r.Ok? <==> forall u :: 0 <= u < |units| ==> AllInPyRange(units[u], n)
    ensures r.Err? ==> r.error == IndexOutOfBounds
    ensures r.Ok? ==> |r.value| == |units| && IsMatrix(r.value, n)
    ensures r.Ok? ==> forall u :: 0 <= u < |units| ==>
                        AllInPyRange(units[u], n) && r.value[u] == Train(units[u], n)
  {
    var raster := new seq<real>[|units|];
    for u := 0 to |units|
      invariant forall v :: 0 <= v < u ==>
                  AllInPyRange(units[v], n) && raster[v] == Train(units[v], n)
    {
      var row := TsToTrain(units[u], n);
      if row.Err? {
        return Err(row.error);
      }
      raster[u] := row.value;
    }
    return Ok(raster[..]);
  }

  /** The samples of a train that hold a one. */
  function OnePositions(s: seq<real>): set<int> {
    set i | 0 <= i < |s| && s[i] == 1.0
  }

  /** The number of ones in a train, counted left to right. */
  function CountOnes(s: seq<real>): nat {
    if s == [] then 0
    else CountOnes(s[..|s| - 1]) + (if s[|s| - 1] == 1.0 then 1 else 0)
  }

  /** The distinct spike indices of a unit. */
  function SpikeSet(ms: seq<int>): set<int> {
    set k | 0 <= k < |ms| :: ms[k]
  }

  lemma {:induction false} CountOnesIsCardinality(s: seq<real>)
    ensures CountOnes(s) == |OnePositions(s)|
  {
    if s != [] {
      var p := s[..|s| - 1];
      CountOnesIsCardinality(p);
      if s[|s| - 1] == 1.0 {
        assert OnePositions(s) == OnePositions(p) + {|s| - 1};
      } else {
        assert OnePositions(s) == OnePositions(p);
      }
    }
  }

  /** Same-millisecond spikes collapse: for spikes inside [0, n) the ones of
      the train sit exactly at the distinct spike indices, so the train holds
      as many ones as there are distinct spike milliseconds. */
  lemma TrainCountsDistinctSpikes(ms: seq<int>, n: nat)
    requires forall k :: 0 <= k < |ms| ==> 0 <= ms[k] < n
    ensures AllInPyRange(ms, n)
    ensures OnePositions(Train(ms, n)) == SpikeSet(ms)
    ensures CountOnes(Train(ms, n)) == |SpikeSet(ms)|
  {
    var t := Train(ms, n);
    forall i | i in SpikeSet(ms) ensures i in OnePositions(t) {
      var k :| 0 <= k < |ms| && ms[k] == i;
      assert Wrap(ms[k], n) == i;
    }
    forall i | i in OnePositions(t) ensures i in SpikeSet(ms) {
      var k :| 0 <= k < |ms| && Wrap(ms[k], n) == i;
    }
    CountOnesIsCardinality(t);
  }

  /** A unit's spike times are in ascending order. */
  predicate Ascending(ms: seq<int>) {
    forall i, j :: 0 <= i <= j < |ms| ==> ms[i] <= ms[j]
  }

  /** max(last_spk): the largest of the units' final spike indices. */
  function MaxLast(units: seq<seq<int>>): (m: int)
    requires |units| > 0
    requires forall u :: 0 <= u < |units| ==> units[u] != []
    ensures forall u :: 0 <= u < |units| ==> units[u][|units[u]| - 1] <= m
    ensures exists u :: 0 <= u < |units| && units[u][|units[u]| - 1] == m
  {
    var last := units[|units| - 1][|units[|units| - 1]| - 1];
    if |units| == 1 then last
    else
      var rest := MaxLast(units[..|units| - 1]);
      assert forall u :: 0 <= u < |units| - 1 ==> units[..|units| - 1][u] == units[u];
      Max(rest, last)
  }

  /** The session length ntimes of process_raw_spk: one sample per ms up to
      one second past the latest final spike; reading the final spike of an
      empty unit raises IndexError, and max() of no units raises ValueError. */
  function SessionSamples(units: seq<seq<int>>): (r: Result<nat>)
    ensures r.Ok? <==> |units| > 0 && forall u :: 0 <= u < |units| ==> units[u] != []
    ensures (exists u :: 0 <= u < |units| && units[u] == []) ==> r == Err(IndexOutOfBounds)
    ensures |units| == 0 ==> r == Err(EmptyOperand)
    ensures r.Ok? ==> forall u :: 0 <= u < |units| ==> units[u][|units[u]| - 1] + 1000 <= r.value
    ensures r.Ok? ==> exists u :: 0 <= u < |units| && r.value == Max(0, units[u][|units[u]| - 1] + 1000)
  {
    if exists u :: 0 <= u < |units| && units[u] == [] then Err(IndexOutOfBounds)
    else if |units| == 0 then Err(EmptyOperand)
    else Ok(Max(0, 1000 + MaxLast(units)))
  }

  /** The sizing rule covers every spike: when each unit's spikes are
      non-negative and ascending, ntimes exists and every spike index of every
      unit lies in [0, ntimes - 1000], so no ts_to_train call can fail. */
  lemma SessionCoversAllSpikes(units: seq<seq<int>>)
    requires |units| > 0
    requires forall u :: 0 <= u < |units| ==> units[u] != [] && Ascending(units[u])
    requires forall u, k :: 0 <= u < |units| && 0 <= k < |units[u]| ==> 0 <= units[u][k]
    ensures SessionSamples(units).Ok?
    ensures forall u, k :: 0 <= u < |units| && 0 <= k < |units[u]| ==>
              units[u][k] + 1000 <= SessionSamples(units).value
    ensures forall u :: 0 <= u < |units| ==> AllInPyRange(units[u], SessionSamples(units).value)
  {
    var n := SessionSamples(units).value;
    forall u, k | 0 <= u < |units| && 0 <= k < |units[u]|
      ensures units[u][k] + 1000 <= n
    {
      assert units[u][k] <= units[u][|units[u]| - 1];
    }
  }

  // ---- channel number of a unit name ----

  /** The prefix of every spike unit name, as in "SPK_SPKC001a". */
  const UnitPrefix: string := "SPK_SPKC"

  /** pat occurs somewhere inside s. */
  predicate Occurs(pat: string, s: string) {
    exists i :: 0 <= i <= |s| && pat <= s[i..]
  }

  /** s.replace(pat, ""): remove every non-overlapping occurrence of pat,
      scanning left to right. */
  function RemoveAll(s: string, pat: string): (r: string)
    requires pat != ""
    ensures |r| <= |s|
    ensures |r| == |s| ==> r == s
  {
    if |pat| <= |s| && s[..|pat|] == pat then RemoveAll(s[|pat|..], pat)
    else if s == "" then ""
    else [s[0]] + RemoveAll(s[1..], pat)
  }

  lemma {:induction false} RemoveAllAbsent(s: string, pat: string)
    requires pat != ""
    requires !Occurs(pat, s)
    ensures RemoveAll(s, pat) == s
  {
    assert s[0..] == s && !(pat <= s[0..]);
    if s != "" {
      forall i | 0 <= i <= |s[1..]| ensures !(pat <= s[1..][i..]) {
        assert s[1..][i..] == s[i + 1..];
      }
      RemoveAllAbsent(s[1..], pat);
    }
  }

  predicate IsDigit(c: char) { '0' <= c <= '9' }

  /** The value of a string of decimal digits, read left to right. */
  function DigitsValue(s: string): nat
    requires forall i :: 0 <= i < |s| ==> IsDigit(s[i])
  {
    if s == "" then 0
    else
      var d := s[|s| - 1] as int - '0' as int;
      assert IsDigit(s[|s| - 1]);
      10 * DigitsValue(s[..|s| - 1]) + d
  }

  function Pow10(n: nat): nat {
    if n == 0 then 1 else 10 * Pow10(n - 1)
  }

  lemma Pow10UpTo3(n: nat)
    requires n <= 3
    ensures Pow10(n) <= 1000
  {
    assert Pow10(1) == 10 && Pow10(2) == 100 && Pow10(3) == 1000;
  }

  /** n decimal digits stay below 10^n. */
  lemma {:induction false} DigitsValueBound(s: string)
    requires forall i :: 0 <= i < |s| ==> IsDigit(s[i])
    ensures DigitsValue(s) < Pow10(|s|)
  {
    if s != "" {
      DigitsValueBound(s[..|s| - 1]);
    }
  }

  /** int(s) on a non-empty string of ASCII digits; anything else raises. */
  function ParseInt(s: string): (r: Result<nat>)
    ensures r.Ok? <==> s != "" && forall i :: 0 <= i < |s| ==> IsDigit(s[i])
    ensures r.Ok? ==> r.value < Pow10(|s|)
  {
    if s != "" && forall i :: 0 <= i < |s| ==> IsDigit(s[i]) then
      DigitsValueBound(s);
      Ok(DigitsValue(s))
    else Err(NotAnInteger)
  }

  /** Channel filter of process_raw_spk: int(u[8:11]). */
  function ChannelBySlice(name: string): (r: Result<nat>)
    ensures r.Ok? <==> 8 < |name| && forall i :: 8 <= i < Min(11, |name|) ==> IsDigit(name[i])
    ensures r.Ok? ==> r.value < 1000
  {
    var digits := PySlice(name, 8, 11);
    Pow10UpTo3(|digits|);
    ParseInt(digits)
  }

  /** Channel column of the unit table: int(u.replace("SPK_SPKC", "")[:3]). */
  function ChannelByPrefix(name: string): (r: Result<nat>)
    ensures r.Ok? ==> r.value < 1000
  {
    var digits := PySlice(RemoveAll(name, UnitPrefix), 0, 3);
    Pow10UpTo3(|digits|);
    ParseInt(digits)
  }

  /** The two channel parses agree on every name that is the unit prefix
      followed by a suffix not containing the prefix again. */
  lemma ChannelParsesAgree(suffix: string)
    requires !Occurs(UnitPrefix, suffix)
    ensures ChannelBySlice(UnitPrefix + suffix) == ChannelByPrefix(UnitPrefix + suffix)
  {
    var name := UnitPrefix + suffix;
    assert name[..|UnitPrefix|] == UnitPrefix;
    assert name[|UnitPrefix|..] == suffix;
    RemoveAllAbsent(suffix, UnitPrefix);
    assert RemoveAll(name, UnitPrefix) == suffix;
    if 8 < |name| {
      assert name[8..Min(11, |name|)] == suffix[0..Min(3, |suffix|)];
    }
  }

  /** A unit name carries its channel as the three digits after the prefix:
      "SPK_SPKC" followed by digits d0 d1 d2 parses to 100 d0 + 10 d1 + d2,
      whatever follows them. */
  lemma ChannelOfUnitName(d0: char, d1: char, d2: char, rest: string)
    requires IsDigit(d0) && IsDigit(d1) && IsDigit(d2)
    ensures ChannelBySlice(UnitPrefix + [d0, d1, d2] + rest) ==
            Ok(100 * (d0 as int - '0' as int) + 10 * (d1 as int - '0' as int) + (d2 as int - '0' as int))
  {
    var name := UnitPrefix + [d0, d1, d2] + rest;
    assert PySlice(name, 8, 11) == [d0, d1, d2];
    assert [d0, d1, d2][..2] == [d0, d1] && [d0, d1][..1] == [d0] && [d0][..0] == [];
    assert DigitsValue([d0]) == d0 as int - '0' as int;
    assert DigitsValue([d0, d1]) == 10 * (d0 as int - '0' as int) + (d1 as int - '0' as int);
  }
}

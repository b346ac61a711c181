/** The trial-event resolver of behavior.py: cut the session's event-code
    stream into trials at the start and stop codes, and report for every
    trial the time of one event code, or -1 when the trial does not hold
    exactly one such code. */
module TrialEvents {
  import opened Common

  /** The default event words that open and close a trial. */
  const StartCode: int := 9
  const StopCode: int := 18

  /** The value a trial keeps when its event is missing or ambiguous. */
  const Absent: real := -1.0

  /** The positions j with a <= j < n and codes[j] == c, in increasing order. */
  function MatchesIn(codes: seq<int>, c: int, a: nat, n: nat): (idx: seq<nat>)
    requires n <= |codes|
    ensures forall k :: 0 <= k < |idx| ==> a <= idx[k] < n
  {
    if n <= a then []
    else MatchesIn(codes, c, a, n - 1) + (if codes[n - 1] == c then [n - 1] else [])
  }

  /** np.where(codes == c)[0]: every position holding code c, in increasing order. */
  function Where(codes: seq<int>, c: int): (idx: seq<nat>)
    ensures forall k :: 0 <= k < |idx| ==> idx[k] < |codes|
  {
    MatchesIn(codes, c, 0, |codes|)
  }

  /** Every listed position holds c, and the list strictly increases. */
  lemma {:induction false} MatchesSoundSorted(codes: seq<int>, c: int, a: nat, n: nat)
    requires n <= |codes|
    ensures forall k :: 0 <= k < |MatchesIn(codes, c, a, n)| ==> codes[MatchesIn(codes, c, a, n)[k]] == c
    ensures forall i, j :: 0 <= i < j < |MatchesIn(codes, c, a, n)| ==>
              MatchesIn(codes, c, a, n)[i] < MatchesIn(codes, c, a, n)[j]
  {
    if n > a {
      MatchesSoundSorted(codes, c, a, n - 1);
    }
  }

  /** No position is missed: every position of [a, n) holding c is listed. */
  lemma {:induction false} MatchesComplete(codes: seq<int>, c: int, a: nat, n: nat, i: nat)
    requires n <= |codes| && a <= i < n && codes[i] == c
    ensures i in MatchesIn(codes, c, a, n)
  {
    if i < n - 1 {
      MatchesComplete(codes, c, a, n - 1, i);
    }
  }

  /** np.where lists exactly the positions holding c, in increasing order. */
  lemma WhereIsExact(codes: seq<int>, c: int)
    ensures forall k :: 0 <= k < |Where(codes, c)| ==> codes[Where(codes, c)[k]] == c
    ensures forall i, j :: 0 <= i < j < |Where(codes, c)| ==> Where(codes, c)[i] < Where(codes, c)[j]
    ensures forall i :: 0 <= i < |codes| && codes[i] == c ==> i in Where(codes, c)
  {
    MatchesSoundSorted(codes, c, 0, |codes|);
    forall i | 0 <= i < |codes| && codes[i] == c ensures i in Where(codes, c) {
      MatchesComplete(codes, c, 0, |codes|, i);
    }
  }

  /** The range [a, b) holds code e at exactly one position. */
  predicate SingleMatch(codes: seq<int>, e: int, a: nat, b: nat)
    requires b <= |codes|
  {
    |MatchesIn(codes, e, a, b)| == 1
  }

  /** The time trial [a, b) reports for event e: the time of the matching
      code when exactly one position of the range holds e, Absent otherwise
      (in particular when the range is empty). */
  function TrialEvent(codes: seq<int>, ts: seq<real>, a: nat, b: nat, e: int): (r: real)
    requires |codes| == |ts| && b <= |codes|
    ensures r == Absent || exists k :: a <= k < b && codes[k] == e && r == ts[k]
    ensures b <= a ==> r == Absent
  {
    var m := MatchesIn(codes, e, a, b);
    MatchesSoundSorted(codes, e, a, b);
    if |m| == 1 then ts[m[0]] else Absent
  }

  /** Searching the slice codes[a:b] up to n finds the positions of
      [a, a + n), each shifted down by a. */
  lemma {:induction false} WhereOfSlicePrefix(codes: seq<int>, e: int, a: nat, b: nat, n: nat)
    requires a < b <= |codes| && n <= b - a
    ensures |MatchesIn(codes[a..b], e, 0, n)| == |MatchesIn(codes, e, a, a + n)|
    ensures forall k :: 0 <= k < |MatchesIn(codes[a..b], e, 0, n)| ==>
              MatchesIn(codes[a..b], e, 0, n)[k] + a == MatchesIn(codes, e, a, a + n)[k]
  {
    if n > 0 {
      WhereOfSlicePrefix(codes, e, a, b, n - 1);
      assert codes[a..b][n - 1] == codes[a + n - 1];
    }
  }

  /** Searching the slice codes[a:b] finds the positions of [a, b) in the
      whole stream, each shifted down by a. */
  lemma {:induction false} WhereOfSlice(codes: seq<int>, e: int, a: nat, b: nat)
    requires a <= |codes| && b <= |codes|
    ensures |Where(PySlice(codes, a, b), e)| == |MatchesIn(codes, e, a, b)|
    ensures forall k :: 0 <= k < |Where(PySlice(codes, a, b), e)| ==>
              Where(PySlice(codes, a, b), e)[k] + a == MatchesIn(codes, e, a, b)[k]
  {
    if a < b {
      WhereOfSlicePrefix(codes, e, a, b, b - a);
      assert Where(PySlice(codes, a, b), e) == MatchesIn(codes[a..b], e, 0, b - a) by {
        assert PySlice(codes, a, b) == codes[a..b];
      }
    } else {
      assert PySlice(codes, a, b) == [];
      assert Where([], e) == [] && MatchesIn(codes, e, a, b) == [];
    }
  }

  /** Position k is the one and only position of [a, b) holding code e. */
  predicate UniqueMatch(codes: seq<int>, a: nat, b: nat, e: int, k: int)
    requires b <= |codes|
  {
    a <= k < b && codes[k] == e &&
    forall j :: a <= j < b && codes[j] == e ==> j == k
  }

  lemma {:induction false} MatchesOfUnique(codes: seq<int>, e: int, a: nat, n: nat, k: nat)
    requires n <= |codes| && k < |codes| && codes[k] == e
    requires forall j :: a <= j < |codes| && codes[j] == e ==> j == k
    ensures MatchesIn(codes, e, a, n) == if a <= k < n then [k] else []
  {
    if n > a {
      MatchesOfUnique(codes, e, a, n - 1, k);
      if n - 1 != k {
        assert codes[n - 1] != e;
      }
    }
  }

  /** The search of [a, n) only reads the codes of [a, n). */
  lemma {:induction false} MatchesLocal(codes: seq<int>, codes': seq<int>, e: int, a: nat, n: nat)
    requires n <= |codes| && n <= |codes'|
    requires forall j :: a <= j < n ==> codes[j] == codes'[j]
    ensures MatchesIn(codes, e, a, n) == MatchesIn(codes', e, a, n)
  {
    if n > a {
      MatchesLocal(codes, codes', e, a, n - 1);
    }
  }

  /** The trial's time is ts[k] for the unique match k. */
  lemma TrialEventOfUniqueMatch(codes: seq<int>, ts: seq<real>, a: nat, b: nat, e: int, k: int)
    requires |codes| == |ts| && b <= |codes|
    requires UniqueMatch(codes, a, b, e, k)
    ensures TrialEvent(codes, ts, a, b, e) == ts[k]
  {
    var front := codes[..b];
    MatchesOfUnique(front, e, a, b, k);
    MatchesLocal(codes, front, e, a, b);
  }

  /** The trial's time is Absent when no position of the range is the only
      one holding e: no match, more than one, or an empty range. */
  lemma TrialEventWithoutUniqueMatch(codes: seq<int>, ts: seq<real>, a: nat, b: nat, e: int)
    requires |codes| == |ts| && b <= |codes|
    requires forall k :: !UniqueMatch(codes, a, b, e, k)
    ensures TrialEvent(codes, ts, a, b, e) == Absent
  {
    var m := MatchesIn(codes, e, a, b);
    if |m| == 1 {
      MatchesSoundSorted(codes, e, a, b);
      forall j | a <= j < b && codes[j] == e ensures j == m[0] {
        MatchesComplete(codes, e, a, b, j);
      }
      assert UniqueMatch(codes, a, b, e, m[0]);
      assert false;
    }
  }

  /** A trial with two copies of the event code reports Absent: duplicate
      codes count as missing. */
  lemma DuplicateEventIsAbsent(codes: seq<int>, ts: seq<real>, a: nat, b: nat, e: int, j1: nat, j2: nat)
    requires |codes| == |ts| && b <= |codes|
    requires a <= j1 < j2 < b && codes[j1] == e && codes[j2] == e
    ensures TrialEvent(codes, ts, a, b, e) == Absent
  {
    assert !UniqueMatch(codes, a, b, e, j1) && !UniqueMatch(codes, a, b, e, j2);
    TrialEventWithoutUniqueMatch(codes, ts, a, b, e);
  }

  /** A trial's time only depends on the codes and times inside its own range. */
  lemma TrialEventIsLocal(codes: seq<int>, ts: seq<real>, codes': seq<int>, ts': seq<real>,
                          a: nat, b: nat, e: int)
    requires |codes| == |ts| && b <= |codes|
    requires |codes'| == |ts'| && b <= |codes'|
    requires forall j :: a <= j < b ==> codes[j] == codes'[j] && ts[j] == ts'[j]
    ensures TrialEvent(codes, ts, a, b, e) == TrialEvent(codes', ts', a, b, e)
  {
    MatchesLocal(codes, codes', e, a, b);
  }

  /** One pass of the loop body of get_trial_events: restrict codes and
      times to the trial's slice and search it for the event code; found
      tells whether there is exactly one. */
  method ResolveTrial(codes: seq<int>, eventTs: seq<real>, a: nat, b: nat, event: int)
    returns (found: bool, t: real)
    requires |codes| == |eventTs| && a <= |codes| && b <= |codes|
    ensures found ==> t == TrialEvent(codes, eventTs, a, b, event)
    ensures !found ==> TrialEvent(codes, eventTs, a, b, event) == Absent
    ensures found <==> SingleMatch(codes, event, a, b)
  {
    var trialCodes := PySlice(codes, a, b);
    var trialTs := PySlice(eventTs, a, b);
    var idx := Where(trialCodes, event);
    WhereOfSlice(codes, event, a, b);
    found := |idx| == 1;
    t := if found then trialTs[idx[0]] else Absent;
  }

  /** Every trial range lies inside an event stream of n entries. */
  predicate TrialsInRange(starts: seq<nat>, stops: seq<nat>, n: nat) {
    |starts| == |stops| &&
    forall tr :: 0 <= tr < |starts| ==> starts[tr] <= n && stops[tr] <= n
  }

  /** The loop of get_trial_events: a vector preset to -1, one entry per
      trial, overwritten with the time of the trial's single matching code. */
  method ResolveTrials(codes: seq<int>, eventTs: seq<real>, starts: seq<nat>, stops: seq<nat>, event: int)
    returns (times: seq<real>)
    requires |codes| == |eventTs|
    requires TrialsInRange(starts, stops, |codes|)
    ensures |times| == |starts|
    ensures forall tr :: 0 <= tr < |starts| ==>
              times[tr] == TrialEvent(codes, eventTs, starts[tr], stops[tr], event)
  {
    var timestamps := new real[|starts|](_ => Absent);
    for tr := 0 to |starts|
      invariant forall t :: 0 <= t < tr ==>
                  timestamps[t] == TrialEvent(codes, eventTs, starts[t], stops[t], event)
      invariant forall t :: tr <= t < |starts| ==> timestamps[t] == Absent
    {
      var found, time := ResolveTrial(codes, eventTs, starts[tr], stops[tr], event);
      if found {
        timestamps[tr] := time;
      }
    }
    times := timestamps[..];
  }

  /** get_trial_events: find the start and stop positions, check both counts
      against the behavioural trial count, then resolve every trial. Codes
      and times are the two equal-length columns of the session's event
      stream. */
  method GetTrialEvents(codes: seq<int>, eventTs: seq<real>, ntr: nat, event: int)
    returns (r: Result<seq<real>>)
    requires |codes| == |eventTs|
    ensures r.Err? <==> |Where(codes, StartCode)| != ntr || |Where(codes, StopCode)| != ntr
    ensures r.Err? ==> r.error == TrialCountMismatch
    ensures r.Ok? ==> |r.value| == ntr
    ensures r.Ok? ==> forall tr :: 0 <= tr < ntr ==>
              r.value[tr] == TrialEvent(codes, eventTs, Where(codes, StartCode)[tr],
                                        Where(codes, StopCode)[tr], event)
  {
    var starts := Where(codes, StartCode);
    var stops := Where(codes, StopCode);
    if |starts| != ntr || |stops| != ntr {
      return Err(TrialCountMismatch);
    }
    var timestamps := ResolveTrials(codes, eventTs, starts, stops, event);
    return Ok(timestamps);
  }

  /** Trials are well formed: the k-th start comes before the k-th stop,
      which comes before the next start. */
  predicate Interleaved(starts: seq<nat>, stops: seq<nat>) {
    |starts| == |stops| &&
    (forall tr :: 0 <= tr < |starts| ==> starts[tr] < stops[tr]) &&
    (forall tr :: 0 <= tr < |starts| - 1 ==> stops[tr] < starts[tr + 1])
  }

  /** Within well-formed trials, the only start position inside trial tr's
      range is the trial's own start. */
  lemma OnlyOwnStartInTrial(starts: seq<nat>, stops: seq<nat>, tr: nat, m: nat)
    requires Interleaved(starts, stops)
    requires forall i, j :: 0 <= i < j < |starts| ==> starts[i] < starts[j]
    requires tr < |starts| && m < |starts|
    requires starts[tr] <= starts[m] < stops[tr]
    ensures m == tr
  {
  }

  /** Querying the start code itself gives a trial's start time: the trial
      range opens at its start position and holds no other start. */
  lemma StartQueryGivesStartTime(codes: seq<int>, ts: seq<real>, tr: nat)
    requires |codes| == |ts|
    requires Interleaved(Where(codes, StartCode), Where(codes, StopCode))
    requires tr < |Where(codes, StartCode)|
    ensures TrialEvent(codes, ts, Where(codes, StartCode)[tr], Where(codes, StopCode)[tr], StartCode)
              == ts[Where(codes, StartCode)[tr]]
  {
    var starts, stops := Where(codes, StartCode), Where(codes, StopCode);
    var a, b := starts[tr], stops[tr];
    WhereIsExact(codes, StartCode);
    forall j | a <= j < b && codes[j] == StartCode ensures j == a {
      var m :| 0 <= m < |starts| && starts[m] == j;
      OnlyOwnStartInTrial(starts, stops, tr, m);
    }
    assert UniqueMatch(codes, a, b, StartCode, a);
    TrialEventOfUniqueMatch(codes, ts, a, b, StartCode, a);
  }

  /** The start and stop positions of the example stream below. */
  lemma ExampleTrialBounds(codes: seq<int>)
    requires codes == [9, 3, 18, 9, 18, 9, 3, 18]
    ensures Where(codes, StartCode) == [0, 3, 5]
    ensures Where(codes, StopCode) == [2, 4, 7]
  {
    assert MatchesIn(codes, StartCode, 0, 1) == [0];
    assert MatchesIn(codes, StartCode, 0, 2) == [0];
    assert MatchesIn(codes, StartCode, 0, 3) == [0];
    assert MatchesIn(codes, StartCode, 0, 4) == [0, 3];
    assert MatchesIn(codes, StartCode, 0, 5) == [0, 3];
    assert MatchesIn(codes, StartCode, 0, 6) == [0, 3, 5];
    assert MatchesIn(codes, StartCode, 0, 7) == [0, 3, 5];
    assert MatchesIn(codes, StartCode, 0, 8) == [0, 3, 5];
    assert MatchesIn(codes, StopCode, 0, 1) == [];
    assert MatchesIn(codes, StopCode, 0, 2) == [];
    assert MatchesIn(codes, StopCode, 0, 3) == [2];
    assert MatchesIn(codes, StopCode, 0, 4) == [2];
    assert MatchesIn(codes, StopCode, 0, 5) == [2, 4];
    assert MatchesIn(codes, StopCode, 0, 6) == [2, 4];
    assert MatchesIn(codes, StopCode, 0, 7) == [2, 4];
    assert MatchesIn(codes, StopCode, 0, 8) == [2, 4, 7];
  }

  /** The start times of the three trials of the example stream. */
  lemma ExampleStartTimes(codes: seq<int>, ts: seq<real>)
    requires codes == [9, 3, 18, 9, 18, 9, 3, 18]
    requires ts == [12.7, 13.0, 20.0, 134.7, 135.0, 139.2, 139.5, 140.0]
    ensures TrialEvent(codes, ts, 0, 2, StartCode) == 12.7
    ensures TrialEvent(codes, ts, 3, 4, StartCode) == 134.7
    ensures TrialEvent(codes, ts, 5, 7, StartCode) == 139.2
  {
    ExampleTrialBounds(codes);
    assert Interleaved(Where(codes, StartCode), Where(codes, StopCode));
    StartQueryGivesStartTime(codes, ts, 0);
    StartQueryGivesStartTime(codes, ts, 1);
    StartQueryGivesStartTime(codes, ts, 2);
  }

  /** Three trials in an event stream: each trial opens with 9, closes with
      18 and may hold other codes; querying code 9 yields the three start
      times 12.7, 134.7 and 139.2. */
  method StartTimesExample() returns (times: seq<real>)
    ensures times == [12.7, 134.7, 139.2]
  {
    var codes := [9, 3, 18, 9, 18, 9, 3, 18];
    var ts := [12.7, 13.0, 20.0, 134.7, 135.0, 139.2, 139.5, 140.0];
    ExampleTrialBounds(codes);
    ExampleStartTimes(codes, ts);
    var r := GetTrialEvents(codes, ts, 3, StartCode);
    assert r.Ok? && |r.value| == 3;
    times := r.value;
  }
}

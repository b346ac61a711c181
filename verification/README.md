# ephyspipe index and alignment core, in Dafny

This project models the part of the ephyspipe electrophysiology pipeline that
turns event timestamps into trial-aligned arrays, and proves what that part
promises. It has five parts:

- **Spike trains** (`spike_train.dfy`). Each unit's spike times become a 0/1
  train at 1 kHz (`ts_to_train`), and `get_raster` stacks one train per unit.
  The session length is sized from the latest spike (`process_raw_spk`).
  The two ways a channel number is read from a unit name are also modelled.
- **Firing rates** (`smoothing.dfy`). `train_to_fr` smooths a train with a
  normalised 49-sample boxcar through `np.convolve(..., "same")`, and
  `get_fr` does so for every row. Arithmetic is exact over `real`.
- **Window chopper** (`chop.dfy`). `chop` cuts a units x time signal into
  windows around sync points. The result is a sync x time x unit tensor,
  squeezed when there is one unit.
- **Sliding-window averager** (`sliding_avg.dfy`). `sliding_avg` checks its
  arguments and clamps the time range to the timestamps. It finds the nearest
  timestamps with `argmin`, builds the midpoint grid with `arange`, and
  averages a window around every midpoint.
- **Trial-event resolver** (`trial_events.dfy`). `get_trial_events` cuts the
  session's event-code stream into trials at codes 9 and 18. It checks both
  counts against the behavioural trial count, then reports for each trial the
  time of the one matching event code, or -1.

`common.dfy` holds the shared vocabulary:
- the exceptions numpy and the pipeline raise, as an `Error` datatype with a `Result` wrapper;
- Python's negative-index rule (`Wrap`);
- Python's slice `s[a:b]` for non-negative bounds (`PySlice`), shared by the unit-name parser and the trial resolver;
- finite sums over index ranges.

Conventions:
- Times are integer milliseconds that the caller has already rounded.
- Signal values and event timestamps are `real`.
- An event stream is two sequences of equal length: codes and times.
- numpy reads a negative index from the end of an axis; the model states this
  explicitly. An index outside `[-n, n)` becomes `Err(IndexOutOfBounds)`.

Where the code loops over a preallocated buffer, the model is a method over an
`array` with loop invariants, proved against a specification function. These
methods are `TsToTrain`, `GetRaster`, `GetFr`, `GatherAll`, `FillMeans` and
`ResolveTrials`. The convolution and the index arithmetic are functions.

There are three places where the code does something a reader may not
expect; the model follows the code:
- `chop` with a sync point at 0 ms and the window [-1 ms, 1 ms) does not
  return the first two samples. Index -1 wraps, so the result is the LAST
  sample followed by the first (`ChopAtSessionStart`).
- A negative spike index or window index is not an error. numpy counts it
  from the end of the train, as long as it lies in `[-n, n)`.
- The missing-event fix turns the rounded sentinel -1000 into -1. After that,
  every row whose index is -1 is treated as missing. A genuine sync point at
  -1 ms is therefore also treated as missing (`IsMissing`).

## Model

| member | source | states |
|---|---|---|
| Common.Wrap | ephyspipe/brain.py:135 | the sample numpy writes or reads for an accepted index lies on the axis: the index itself when non-negative, counted from the end when negative |
| SpikeTrain.TsToTrain | ephyspipe/brain.py:112-137 | succeeds exactly when every spike index is one numpy accepts, and otherwise raises IndexError; on success the buffer equals the 0/1 train with a one wherever some spike lands (negative indices counted from the end) |
| SpikeTrain.Train | ephyspipe/brain.py:131-135 | the train has ntimes samples, each 0 or 1 |
| SpikeTrain.TrainCountsDistinctSpikes | ephyspipe/brain.py:131-135 | for in-range spikes the ones sit exactly at the distinct spike milliseconds, so same-millisecond spikes collapse and the number of ones is the number of distinct spike indices |
| SpikeTrain.GetRaster | ephyspipe/brain.py:63-87 | fails exactly when some unit has an index numpy refuses; otherwise the raster has one row of ntimes samples per unit, and row u is unit u's own train, independent of every other unit |
| SpikeTrain.MaxLast | ephyspipe/brain.py:42-43 | the result is the largest of the units' final spike times: at least every final spike, and equal to one of them |
| SpikeTrain.SessionSamples | ephyspipe/brain.py:42-45 | no units raises ValueError and a unit without spikes raises IndexError; otherwise ntimes is exactly one second (1000 samples) past the latest final spike: at least 1000 past every unit's final spike and equal to 1000 past one of them (0 when that is negative) |
| SpikeTrain.SessionCoversAllSpikes | ephyspipe/brain.py:42-45 | when each unit's spikes are non-negative and ascending, every spike index of every unit lies in [0, ntimes - 1000], so no ts_to_train call of the session can fail |
| Common.PySlice | ephyspipe/behavior.py:98-99 | a Python slice s[a:b] clamps both bounds to the length: it holds max(0, min(b, n) - min(a, n)) entries, and entry k is s[min(a, n) + k] |
| SpikeTrain.RemoveAll | ephyspipe/brain.py:55 | str.replace with an empty replacement never lengthens the string, and a result as long as the input is the input itself (only whole occurrences are dropped) |
| SpikeTrain.RemoveAllAbsent | ephyspipe/brain.py:55 | removing a prefix that does not occur leaves the string unchanged |
| SpikeTrain.ParseInt | ephyspipe/brain.py:38 | int() succeeds exactly on a non-empty string of decimal digits, and n digits give a value below 10^n |
| SpikeTrain.ChannelBySlice | ephyspipe/brain.py:38 | int(u[8:11]) succeeds exactly when the name has a ninth character and every character from the ninth up to the eleventh is a digit; the channel is below 1000 |
| SpikeTrain.ChannelOfUnitName | ephyspipe/brain.py:38 | a name made of the unit prefix and three digits d0 d1 d2, followed by anything, parses to channel 100 d0 + 10 d1 + d2 |
| SpikeTrain.ChannelByPrefix | ephyspipe/brain.py:55 | int(u.replace("SPK_SPKC", "")[:3]) reads at most three digits, so the channel is below 1000 |
| SpikeTrain.ChannelParsesAgree | ephyspipe/brain.py:38 | the filter parse u[8:11] and the table parse of the prefix-stripped name (line 55) give the same channel or the same error, for every name made of the unit prefix and a suffix that does not repeat it |
| Smoothing.TrainToFr | ephyspipe/brain.py:140-162 | an empty train raises ValueError; otherwise the output has the length of the longer operand, which is the train's own length from 49 samples up |
| Smoothing.ConvPrefixIsWindowSum | ephyspipe/brain.py:157-160 | each entry of the full convolution with the normalised boxcar is the sum of the train over the 49 samples ending there, clipped to the train, divided by 49 |
| Smoothing.FrIsWindowSum | ephyspipe/brain.py:157-160 | every firing-rate sample is a clipped 49-sample window sum of the train divided by 49, with the window placed by numpy's "same" shift |
| Smoothing.FrIsCentredMean | ephyspipe/brain.py:157-160 | for trains of at least 49 samples the length is kept and out[i] is the sum of train[i-24..i+24] inside the train, divided by 49 |
| Smoothing.FrOfSilence | ephyspipe/tests/test_brain.py:8-30 | an all-zero train smooths to all zeros |
| Smoothing.FrOfSteadyFiring | ephyspipe/tests/test_brain.py:8-30 | an all-ones train smooths to exactly 1 on positions 24 to N-25 |
| Smoothing.FrOfSingleSpike | ephyspipe/tests/test_brain.py:8-30 | a single spike at p smooths to exactly 1/49 on [p-24, p+24] and to 0 everywhere else |
| Smoothing.FrBounded | ephyspipe/brain.py:157-160 | a train of values in [0, 1] smooths to rates in [0, 1] |
| Smoothing.GetFr | ephyspipe/brain.py:90-109 | an empty train raises the convolution's ValueError, and rows of 1 to 48 samples raise a broadcast ValueError; otherwise row u of the result is the smoothed row u of the raster and the shape is kept |
| Chop.Squeeze | ephyspipe/brain.py:208-209 | squeezing leaves no axis of length one and never adds axes; a shape without axes of length one is returned unchanged, and a shape made only of them becomes the empty shape |
| Chop.SqueezeAppend | ephyspipe/brain.py:208-209 | squeezing a concatenation squeezes each part, so the surviving axes keep their order (with the two clauses above this fixes np.squeeze completely) |
| Chop.SqueezeKeepsSize | ephyspipe/brain.py:208-209 | squeezing never changes the number of elements |
| Chop.ChopShapeOneUnit | ephyspipe/brain.py:208-209 | with a single unit the unit axis is dropped, so an nsync x nt result with neither axis of length one comes back 2-D |
| Chop.SyncIndex | ephyspipe/brain.py:192-193 | the manual fix changes only the -1000 ms sentinel, into -1; the fixed index is -1 exactly for the sentinel and for a genuine sync point at -1 ms |
| Chop.LongIndex | ephyspipe/brain.py:196-201 | entry (row, c) of the index matrix is -1 on the row of a missing sync point and sync + lo + c otherwise |
| Chop.GatherAll | ephyspipe/brain.py:203-206 | the per-unit loop fills an nsync x nt x nunits array whose every cell is the unit's sample at the index matrix entry of its row and column |
| Chop.GatheredCube | ephyspipe/brain.py:192-201 | a gathered row of a missing sync point holds the last sample of each unit at every time; any other row holds the sample at sync + lo + c, counted from the end when negative |
| Chop.Chop | ephyspipe/brain.py:165-211 | raises IndexError exactly when there are units and some window index lies outside [-T, T); otherwise it reports the nsync x nt x nunits shape (squeezed for one unit), rows of missing sync points repeat each unit's last sample, and every other cell is the sample at sync + lo + c |
| Chop.ChopAtSessionStart | ephyspipe/brain.py:188-206 | a sync point at 0 ms with the window [-1 ms, 1 ms) yields the last sample followed by the first, as a squeezed vector of two |
| Chop.ChopTestCase | ephyspipe/tests/test_brain.py:52-73 | five units holding 0..249, sync points 10 and 20 ms and the window [-3, 3) ms give a 2 x 6 x 5 tensor holding samples 7..12 and 17..22 of each unit |
| SlidingAvg.Nearest | ephyspipe/brain.py:267-268 | argmin of the distance: the index is closest to t, and strictly closer than every earlier index, so the first minimum wins |
| SlidingAvg.NearestOfExactTimestamp | ephyspipe/brain.py:267-268 | on strictly increasing timestamps, looking up one of the timestamps returns its own index |
| SlidingAvg.RoundHalfEven | ephyspipe/brain.py:264 | np.round lands within one half of its argument and breaks ties toward the even integer |
| SlidingAvg.StepSamples | ephyspipe/brain.py:264 | for a step in (0, 1] offset_ms lies between zero and the window, on the window's side of zero, so a zero window gives a zero offset |
| SlidingAvg.ClampLow | ephyspipe/brain.py:256 | the adjusted lower bound is np.max of the requested bound and the first timestamp: one of the two, and at least both |
| SlidingAvg.ClampHigh | ephyspipe/brain.py:257 | the adjusted upper bound is np.min of the requested bound and the last timestamp: one of the two, and at most both |
| SlidingAvg.GridStart | ephyspipe/brain.py:267 | start_idx is floor(w/2) past an index on the time axis whose timestamp is the first one nearest to the adjusted lower bound |
| SlidingAvg.GridStop | ephyspipe/brain.py:268 | stop_idx is 1 - floor(w/2) past an index on the time axis whose timestamp is the first one nearest to the adjusted upper bound, so the grid's bound is ceil(1 + argmin - w/2) |
| SlidingAvg.Arange | ephyspipe/brain.py:269 | the grid is empty exactly when start is not below stop |
| SlidingAvg.ArangeDown | ephyspipe/brain.py:269 | with a negative step the grid is empty exactly when start is not above stop, and every value lies in (stop, start] |
| SlidingAvg.ArangeIsGrid | ephyspipe/brain.py:269 | value k of the grid is start + k * step, every value lies in [start, stop), and one more step would reach stop, so no grid point is missed |
| SlidingAvg.MidIndices | ephyspipe/brain.py:266-269 | every averaging window around a midpoint lies inside the time axis, and so does every midpoint, so neither the window gather nor ts[mid_idx] can fail |
| SlidingAvg.WindowMeanOfPlateau | ephyspipe/brain.py:277 | a window whose samples all hold v averages to v |
| SlidingAvg.FillMeans | ephyspipe/brain.py:273-277 | the loop fills an nsync x nmid x nsources array whose cell (row, k, u) is the mean of the window of source u at sync point row around midpoint k |
| SlidingAvg.SlidingAvg | ephyspipe/brain.py:215-280 | raises ValueError for a step outside (0, 1] and then for an empty time range, IndexError for empty timestamps, and np.arange's failure on a zero step when the offset rounds to zero (a zero window included), in that order, and succeeds otherwise; a negative window succeeds with no midpoints and an nsync x 0 x nsources array; for a positive window mid_times are the timestamps at the midpoints and each output cell is the mean of its own window, per sync point and source |
| SlidingAvg.PlateauMidpoints | ephyspipe/tests/test_brain.py:76-90 | 100 timestamps 1 ms apart over the full range, a 10-sample window and step 1 give offset 10 and the midpoints 5, 15, ..., 85 |
| SlidingAvg.PlateauMeans | ephyspipe/tests/test_brain.py:76-90 | on ten plateaus 0..9 of 10 samples, the window starting at 10k averages to k |
| SlidingAvg.PlateauTestCase | ephyspipe/tests/test_brain.py:76-90 | the averaging test's five sync points smooth to exactly 0, 1, ..., 8 |
| TrialEvents.MatchesIn | ephyspipe/behavior.py:101 | every position the search of [a, n) reports lies in [a, n) |
| TrialEvents.Where | ephyspipe/behavior.py:85-86 | every position np.where reports lies on the code stream (exactness in WhereIsExact) |
| TrialEvents.WhereIsExact | ephyspipe/behavior.py:85-86 | np.where lists exactly the positions holding the code, in strictly increasing order |
| TrialEvents.WhereOfSlice | ephyspipe/behavior.py:98-101 | searching the slice codes[start:stop] finds the positions of [start, stop) in the whole stream shifted down by start, and the slice is empty when stop <= start |
| TrialEvents.TrialEvent | ephyspipe/behavior.py:98-103 | a trial's reported time is -1 or the time of a position of its own range that holds the event code, and an empty range reports -1 |
| TrialEvents.ResolveTrial | ephyspipe/behavior.py:98-103 | one pass of the loop body reports a time exactly when the trial's range holds one matching code (both directions); that time is the trial's event time, and otherwise the trial's event time is -1 |
| TrialEvents.ResolveTrials | ephyspipe/behavior.py:94-103 | the vector preset to -1 ends with one entry per trial, and entry tr is trial tr's event time |
| TrialEvents.GetTrialEvents | ephyspipe/behavior.py:60-105 | raises ValueError exactly when the number of 9s or the number of 18s differs from the trial count; otherwise it returns one entry per trial, holding the time of the trial's one matching code in [start, stop) or -1 |
| TrialEvents.TrialEventOfUniqueMatch | ephyspipe/behavior.py:98-103 | when exactly one position k of a trial's range holds the event code, the trial reports event_ts[k] |
| TrialEvents.TrialEventWithoutUniqueMatch | ephyspipe/behavior.py:98-103 | when no position is the only match (no match, several matches, or an empty range), the trial reports -1 |
| TrialEvents.DuplicateEventIsAbsent | ephyspipe/behavior.py:102 | a trial holding the event code twice reports -1, so duplicates count as missing |
| TrialEvents.TrialEventIsLocal | ephyspipe/behavior.py:95-103 | a trial's entry depends only on the codes and times inside its own range |
| TrialEvents.StartQueryGivesStartTime | ephyspipe/behavior.py:85-103 | with well-formed trials (each start before its stop, each stop before the next start), asking for code 9 gives each trial's own start timestamp |
| TrialEvents.ExampleTrialBounds | ephyspipe/behavior.py:85-86 | in the stream 9 3 18 9 18 9 3 18 the trials open at 0, 3, 5 and close at 2, 4, 7 |
| TrialEvents.StartTimesExample | ephyspipe/tests/test_behavior.py:41-60 | three trials starting at 12.7, 134.7 and 139.2 s report exactly those start times when code 9 is queried |

## Left out

- Loading data with `mat73` and `h5py` is not modelled. That covers `process_raw_spk` line 33, `process_raw_lfp`, `get_bandpassed`, `load_raw_bhv` and `load_pl2_codes`. These are file I/O through libraries outside the repository.
- LFP processing is not modelled: `get_bandpassed`, the filter design in `process_raw_lfp`, and the per-channel stacking around them. They are scipy floating-point numerics and foreign calls.
- The pandas unit table, the `mean_fr` division, and `get_trialinfo` are not modelled. They are floating-point table arithmetic, and `get_trialinfo` returns nothing.
- Rounding of float seconds to milliseconds is not modelled. The model takes integer millisecond indices: spike times, sync points, the chop window bounds and sliding_avg's `window_ms`. Float `np.arange` grids are not modelled either. `chop` does not round `window*1000` before `arange`, so its window is given as integer bounds `lo < hi`.
- Progress `print` output and `setup.py` packaging metadata are not modelled.
- SpikeTrain.TsToTrain: the train is the flat vector of ntimes samples, not numpy's 1 x ntimes matrix. The row assignment in `get_raster` broadcasts it either way.
- SpikeTrain.GetRaster: a unit name missing from the data dictionary (a KeyError) is not modelled. Units are given directly as their spike-index sequences.
- SpikeTrain.ParseInt: Python's `int()` also accepts surrounding whitespace, a sign and underscores. The model accepts only ASCII digits.
- SlidingAvg.SlidingAvg: requires that a negative window does not meet a grid running downward (DownwardGrid: start_idx above stop_idx, which needs the nearest index of the low end to lie beyond that of the high end, impossible on increasing timestamps). There every cell is the mean of an empty slice, NaN, and NaN is floating-point behaviour the model does not have.
- SlidingAvg.SlidingAvg: requires the timestamps to match the data's time axis, as the function's documentation states. With a shorter data axis the gather could fail or wrap.
- TrialEvents.GetTrialEvents: requires the code and timestamp columns to have the same length, as they do in one event stream.
- Chop.Chop: the index matrix is a function of row and column (`LongIndex`), not an integer array rewritten in place. The in-place rewrites at lines 193 and 201 are folded into that function.
- Chop.ChopTestCase and SlidingAvg.PlateauTestCase: they use exact values (sample counts, `i/1000` timestamps) instead of the float grids the tests build with `np.arange`.
- TrialEvents.StartTimesExample: the recorded event stream of the repository's test is not available. The example is a three-trial stream with the same expected start times.

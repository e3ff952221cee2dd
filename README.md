# ADAPT search engine, modelled in Dafny

ADAPT optimises building energy consumption against occupant comfort with an
evolutionary multi-objective search driven by pymoo. This project models the
parts of that search that ADAPT writes itself, and proves properties of them:

- **The sliding-window termination engine** (`RollingWindow`, module
  `OptRollingWindow`). Each generation it asks its hard budgets whether to go
  on: maximum generations, maximum evaluations and maximum wall time. It then
  stores a snapshot in a bounded data window. Once enough data is stored, it
  appends a metric to a bounded metric window. On every `nth_gen`-th
  generation with a full metric window, it returns the policy's decision
  unchanged; in every other case it returns "continue". The pure function
  `Step` specifies one check, and the class method `DoContinue` is proved to
  leave the windows exactly as `Step` prescribes.
- **The policies plugged into it.** Each policy is a `Policy` value made of a
  store, a metric and a decide function.
  - Design-space drift: soft/medium/hard in `OptTerminationCriterion`, with the
    copy in `OptimizationTerminationCriterion`; normal/strict in
    `OptimizationNormalStrictCriterion`.
  - Pareto convergence, `delta = IGD+ + |ΔHV|`, in `OptimizationTermination`.
- **The wall-time budget** (`MaxWallTime`, modules `OptMaxWallTime` and
  `OptimizationMaxWallTime`). The budget is normalised once at construction.
  The start time is captured lazily on the first check. Each check continues
  exactly when `now - start < max_time`.
- **The variation operators** (`OptAlgorithm`): seeded uniform sampling,
  simulated binary crossover (SBX) and polynomial mutation. They work on
  Dafny arrays, one method per numpy mask pass, and each pass is proved
  against a specification function of one position.
- **Min-max normalisation of objective sets and `close_bound`**
  (`UtilitiesOptimization` and its copy `UtilsOptimization`). The column loop
  fills a fresh array and is proved equal to the value-level `Normalized`.
- **The decision helpers of `optimization/main.py`** (`OptimizationMain`):
  the recommended point of a Pareto front, its schedule, and the loop of
  `write_result` that decompresses a schedule into hourly columns.

Python exceptions are modelled as `Err` values of a `Result`, tagged by their
Python class (`Common.Error`). Random draws are input arrays. `np.power`,
pymoo's `time_to_int`, the IGD+ and hypervolume indicators and the ASF
decomposition are function parameters whose values the model does not look
inside. `time_to_int` is a partial parser: it yields a number of seconds, or
None for a string it rejects, which the constructor reports as `ValueError`.
The clock reading `time.time()` is a parameter of each check.

Mode strings are compared after Python's `str.lower()`. The model
lower-cases only 'A' to 'Z' and keeps every other character. Every mode name
the criteria test is ASCII, so the two differ only on non-ASCII strings that
Python folds onto a mode name, such as one spelled with the Kelvin sign.

Where the code and its documentation disagree, the model follows the code:

- `_decide` returning True means "continue". The engine returns that value
  without inverting it (opt/rolling_window.py:98).
- With `n_offsprings == 1`, crossover picks one whole child per mating. It
  does not pick per variable (opt/algorithm.py:176).

## Model

| member | source | states |
|---|---|---|
| Common.Lower | opt/termination_criterion.py:45 | `str.lower()` on ASCII: same length, each of 'A'..'Z' becomes the matching 'a'..'z', no upper-case letter is left, every other character is kept |
| Common.LowerIgnoresCase | opt/termination_criterion.py:45 | two strings that differ only in letter case lower-case to the same string |
| Common.LowerIdempotent | opt/termination_criterion.py:45 | lower-casing a lower-cased string changes nothing |
| Common.Max | opt/termination_criterion.py:48 | the maximum of a non-empty array is one of its elements and no element exceeds it |
| Common.MeanAtMostMax | opt/termination_criterion.py:54 | the mean of a non-empty window never exceeds its maximum |
| Common.MeanNonNegative | opt/termination_criterion.py:46 | the mean of non-negative values is non-negative, and zero exactly when every value is zero |
| Common.AbsDiffsZero | opt/termination_criterion.py:44 | the entrywise absolute differences of two arrays of one shape are all zero exactly when the arrays are equal |
| OptMaxWallTime.NormaliseBudget | opt/max_wall_time.py:31-38 | None becomes 2147483647 s; a string becomes the seconds `time_to_int` parses, and a string it rejects raises `ValueError`; an int, bool or float is kept; any other type raises `Exception`; nothing else fails |
| OptMaxWallTime.MaxWallTime.constructor | opt/max_wall_time.py:26-29 | stores the budget; `start` and `now` begin unset |
| OptMaxWallTime.MaxWallTime.DoContinue | opt/max_wall_time.py:40-45 | the first call takes `start` from the algorithm and later calls keep it; every call records `now`; the answer is `now - start < max_time`, strictly |
| OptMaxWallTime.New | opt/max_wall_time.py:26-38 | construction fails exactly for an unsupported budget type or an unparsable string, with the normalisation's exception; otherwise a fresh object holding the normalised budget, with `start` and `now` unset |
| OptMaxWallTime.CheckTwice | opt/max_wall_time.py:41-45 | a second check measures from the start time the first check captured, whatever start time it is handed |
| OptimizationMaxWallTime.New | optimization/max_wall_time.py:9-21 | the same budget normalisation: None becomes 2147483647, a string the seconds `time_to_int` parses (`ValueError` if it rejects it), int/float kept, any other type raises `Exception` |
| OptimizationMaxWallTime.DoContinue | optimization/max_wall_time.py:23-28 | lazy `start`, `now` recorded on every call, strict `now - start < max_time` |
| OptRollingWindow.Push | opt/rolling_window.py:66 | appending to a sliding window: the new entry is last; a truncating window keeps at most `size` entries, the newest ones; a plain list only appends |
| OptRollingWindow.LastN | opt/rolling_window.py:90 | Python's `s[-n:]`: the last `n` entries, or the whole list when `n` is 0 or at least its length |
| OptRollingWindow.MetricStep | opt/rolling_window.py:89-92 | an error comes only from a due metric over the last `data_window_size` snapshots; the metric window grows by at most one entry and stays within its size |
| OptRollingWindow.Step | opt/rolling_window.py:77-102 | a stop from the budgets returns False and leaves both windows unchanged; otherwise a snapshot is stored unless it is None; a metric is computed only once `len(data) >= min_data_for_metric`, over the last `data_window_size` entries, and appended unless None; `_decide` is asked only when `n_gen % nth_gen == 0` and the metric window is full, on the last `metric_window_size` metrics, and its answer is returned unchanged; in every other case the answer is True; each window grows by at most one entry and a truncating window stays within its size |
| OptRollingWindow.RollingWindow.constructor | opt/rolling_window.py:30-75 | stores the configuration, the policy and the budgets; both windows start empty |
| OptRollingWindow.RollingWindow.DoContinue | opt/rolling_window.py:77-102 | the budgets are asked in order; the wall time is consulted, and captures its start, only when the counters allow; the new windows and the answer are exactly `Step` of the old windows |
| OptRollingWindow.RollingWindow.Advance | opt/rolling_window.py:83-102 | once the budgets allow: the new windows and the answer are `Step` of the old windows |
| OptRollingWindow.RollingWindow.RecordMetric | opt/rolling_window.py:88-92 | the data window is unchanged; the metric window becomes what `MetricStep` computes; a raised metric leaves it unchanged and is handed back |
| OptRollingWindow.RollingWindow.GetMetric | opt/rolling_window.py:113-117 | the most recent metric, or None exactly when no metric is stored |
| OptRollingWindow.Run | opt/rolling_window.py:77-102 | consecutive checks give at most one answer per generation; the first answer is the first check's, every answer but the last is "continue", and the run stops early only on another answer; a window within its size stays within it |
| OptRollingWindow.WarmUpContinues | opt/rolling_window.py:88-102 | while fewer than `min_data_for_metric` snapshots are stored, no metric is computed and every check answers True |
| OptRollingWindow.MaxOneGenerationStops | opt/rolling_window.py:80-81 | with `n_max_gen = 1`, every check from generation 1 on stops and leaves both windows unchanged |
| OptTerminationCriterion.MeanDrift | opt/termination_criterion.py:44-46 | `np.mean(np.abs(latest - previous))` is the mean of the entrywise absolute differences: non-negative, zero exactly when the two matrices are equal, and at most the largest difference |
| OptTerminationCriterion.MaxDrift | opt/termination_criterion.py:44-48 | `np.max(np.abs(latest - previous))` bounds every entrywise difference and equals one of them; it is zero exactly when the matrices are equal; an empty array raises `ValueError` |
| OptTerminationCriterion.AbsDiffsFrom | opt/termination_criterion.py:44 | every flattened difference is the difference of some entry |
| OptTerminationCriterion.MeanExceeds | opt/termination_criterion.py:53-60 | `np.mean(metrics) > tol`; true only if some metric exceeds `tol`; an empty window gives False |
| OptTerminationCriterion.MaxExceeds | opt/termination_criterion.py:55-60 | `np.max(metrics) > tol` holds exactly when some metric strictly exceeds `tol`; an empty window raises |
| OptTerminationCriterion.Store | opt/termination_criterion.py:40-41 | `_store` returns the population's decision matrix |
| OptTerminationCriterion.Metric | opt/termination_criterion.py:43-50 | fewer than two snapshots raise `IndexError` and snapshots of different shapes `ValueError`; an unknown mode, after lower-casing, raises `NameError`; otherwise the result is non-negative and zero exactly when the two snapshots are equal; "hard" gives the largest entrywise drift, attained at some entry, and "soft"/"medium" the mean entrywise drift, no larger than it |
| OptTerminationCriterion.Decide | opt/termination_criterion.py:52-60 | an unknown mode raises `NameError`; "soft" answers `mean > tol`; "medium"/"hard" answer whether some metric strictly exceeds `tol`, and raise on an empty window; True always means some metric exceeds `tol`, so an aggregate equal to `tol` stops |
| OptTerminationCriterion.EngineConfig | opt/termination_criterion.py:33-36 | `n_last` is the metric window; data window 2, minimum data 2 and `nth_gen` 1 are the engine's defaults |
| OptTerminationCriterion.New | opt/termination_criterion.py:25-38 | construction fails exactly when the wall-time budget is rejected, with its exception; `tol` and `mode` are stored unvalidated; the engine starts empty, with `n_last` as its metric window, the generation and evaluation budgets, and a fresh, unstarted wall-time budget holding the normalised `max_time` |
| OptTerminationCriterion.StationaryPopulationStops | opt/termination_criterion.py:43-60 | a population that has not moved, after a full window of zero drifts, stops the search for any `tol >= 0` in every known mode |
| OptTerminationCriterion.StationaryMetric | opt/termination_criterion.py:44-48 | two equal snapshots give a drift of exactly zero |
| OptTerminationCriterion.StationaryDecision | opt/termination_criterion.py:52-60 | a window of zero drifts never exceeds a non-negative `tol` |
| OptTerminationCriterion.ZeroWindow | opt/rolling_window.py:89-92 | appending a zero drift to a full window of zero drifts keeps it full and all zero |
| OptTerminationCriterion.UnknownModeContinuesAtFirstCheck | opt/termination_criterion.py:49-50 | with an unknown mode, the first check still answers "continue": the mode is not validated before a metric is computed |
| OptTerminationCriterion.UnknownModeRaisesAtFirstMetric | opt/termination_criterion.py:49-50 | with an unknown mode, the first check that computes a metric raises `NameError` |
| OptTerminationCriterion.UnknownModeMetricRaises | opt/termination_criterion.py:43-50 | the second snapshot of one shape makes the metric due, and under an unknown mode the metric raises `NameError` |
| OptTerminationCriterion.ModeIgnoresCase | opt/termination_criterion.py:43-60 | the mode is matched case-insensitively: spellings that differ only in letter case give the same metric and the same decision, and "HARD" is the hard mode |
| OptTerminationCriterion.SoftContinuesOnlyWhenMediumDoes | opt/termination_criterion.py:53-56 | whenever "soft" continues, "medium" with the same `tol` continues too |
| OptimizationTerminationCriterion.Store | optimization/termination_criterion.py:23-24 | `_store` returns the population's decision matrix |
| OptimizationTerminationCriterion.Metric | optimization/termination_criterion.py:26-33 | the same clauses as the original: a short window raises `IndexError`, snapshots of different shapes `ValueError` and an unknown mode `NameError`; otherwise the drift is non-negative and zero exactly when the snapshots are equal, "hard" is the largest entrywise drift, attained at some entry, and "soft"/"medium" the mean |
| OptimizationTerminationCriterion.Decide | optimization/termination_criterion.py:35-43 | an unknown mode raises `NameError`; soft compares the mean with `tol`; medium/hard answer whether some metric strictly exceeds `tol`, and raise `ValueError` on an empty window |
| OptimizationTerminationCriterion.New | optimization/termination_criterion.py:8-21 | defaults `n_last=20`, `tol=1`, `mode="medium"`; nothing is validated; construction fails exactly when the wall-time budget is rejected; the engine starts empty with `n_last` as its metric window, the two counter budgets and a fresh, unstarted wall-time budget holding the normalised `max_time` |
| OptimizationNormalStrictCriterion.Store | optimization/TerminationCriterion.py:25-26 | `_store` returns the population's decision matrix |
| OptimizationNormalStrictCriterion.Metric | optimization/TerminationCriterion.py:28-35 | the errors for a short window, snapshots of different shapes and an unknown mode; otherwise the drift is non-negative and zero exactly when the snapshots are equal; "strict" is the largest entrywise drift, attained at some entry; "normal" is the mean entrywise drift, no larger than the largest |
| OptimizationNormalStrictCriterion.ModeIgnoresCase | optimization/TerminationCriterion.py:28-45 | the mode is matched case-insensitively: spellings that differ only in letter case give the same metric and the same decision, and "STRICT" is the strict mode |
| OptimizationNormalStrictCriterion.Decide | optimization/TerminationCriterion.py:37-45 | an unknown mode raises `NameError`; "normal" answers `mean > tol`; "strict" answers whether some metric strictly exceeds `tol`, raising on an empty window |
| OptimizationNormalStrictCriterion.New | optimization/TerminationCriterion.py:8-23 | data window and minimum data both fixed at 2, `n_last` as the metric window, defaults `tol=1e-6` and `mode="normal"` stored unvalidated; construction fails exactly when the wall-time budget is rejected; otherwise the two counter budgets and a fresh, unstarted wall-time budget holding the normalised `max_time` |
| OptimizationTermination.NormalizedFront | optimization/termination.py:120-122 | an empty front raises `ValueError`; a rectangular front is normalised column by column, keeping its shape |
| OptimizationTermination.Store | optimization/termination.py:98-101 | `_store` returns the record whose "F" is the current non-dominated objective set |
| OptimizationTermination.Metric | optimization/termination.py:103-142 | fewer than two records raise `IndexError`; the current set, `data[-1]`, is normalised first and its error wins, then the previous set, `data[-2]`; delta is IGD+ of the current set against the previous one plus the absolute hypervolume difference, so it is at least the IGD+ term |
| OptimizationTermination.Deltas | optimization/termination.py:147 | the "delta" entries of the metric window, in order |
| OptimizationTermination.Decide | optimization/termination.py:144-149 | True exactly when some delta in the window strictly exceeds epsilon; an empty window raises `ValueError` |
| OptimizationTermination.EngineConfig | optimization/termination.py:87-93 | the window sizes as given; `minimum_number_generations` becomes the minimum data for a metric and `metric_computation_frequency` becomes `nth_gen` |
| OptimizationTermination.New | optimization/termination.py:44-96 | epsilon and the reference point are stored; the engine gets the mapped configuration, the two counter budgets, no wall-time budget and empty windows |
| OptimizationTermination.MetricReadsLastTwo | optimization/termination.py:117 | the metric depends only on the last two stored records |
| OptimizationTermination.UnchangedFrontStops | optimization/termination.py:103-149 | with the default windows, a generation whose front equals the previous one stops the search, provided IGD+ of a set against itself is zero and epsilon is not negative |
| OptimizationTermination.RepeatedFrontMetric | optimization/termination.py:130-142 | two equal fronts measure a delta of zero when IGD+ of a set against itself is zero |
| OptimizationTermination.ZeroDeltaStops | optimization/termination.py:147-149 | a window holding one zero delta stops for any non-negative epsilon |
| OptAlgorithm.Clamp | opt/algorithm.py:171-172 | the repair to bounds: the result lies in `[lo, hi]`; a value already inside is kept; a value below becomes `lo` and a value above becomes `hi` |
| OptAlgorithm.ClampValue | opt/algorithm.py:171-172 | the repair of a possibly infinite value: +inf ends at the upper bound, -inf at the lower, finite values as `Clamp` |
| OptAlgorithm.StretchBounds | opt/algorithm.py:88 | a draw in `[0, 1)` stretched over a positive width stays in `[0, width)` |
| OptAlgorithm.Sample | opt/algorithm.py:79-94 | sampling returns an `n_samples x n_var` matrix |
| OptAlgorithm.SampleInBounds | opt/algorithm.py:85-88 | every sample of variable i lies in the half-open interval `[xl[i], xu[i])` |
| OptAlgorithm.SamplePrefix | opt/algorithm.py:85 | the generator is reseeded from SEED on every call, so a smaller population is exactly the first rows of a larger one, and equal calls give equal samples |
| OptAlgorithm.Floored | opt/algorithm.py:148 | the floored spread is at least 1e-10 and equals the spread when that is already at least 1e-10 |
| OptAlgorithm.Swapped | opt/algorithm.py:159-162 | where the draw is at most 0.5 the two children change places, elsewhere they stay; the pair is preserved as a multiset |
| OptAlgorithm.Offspring | opt/algorithm.py:115-172 | both children lie within the bounds when `xl <= xu`; where recombination is disabled, child k is parent k (parents within bounds) |
| OptAlgorithm.OffspringPermutesRecombined | opt/algorithm.py:150-169 | where recombination is enabled, the children are the two recombined values `c1`, `c2` in some order |
| OptAlgorithm.OffspringParentOrder | opt/algorithm.py:123-169 | exchanging the parents does not change recombined children, while unrecombined children follow their parents |
| OptAlgorithm.DisableByDraw | opt/algorithm.py:118 | a mask entry is switched off where the draw exceeds `prob_per_variable` and is kept elsewhere |
| OptAlgorithm.DisableByCloseness | opt/algorithm.py:120 | a mask entry is switched off where the parents differ by at most 1e-14 and is kept elsewhere |
| OptAlgorithm.Spread | opt/algorithm.py:123-144 | `y1` and `y2` are the smaller and the larger parent value at every position, and `delta = y2 - y1` |
| OptAlgorithm.FloorDeltas | opt/algorithm.py:148 | every entry of `delta` becomes its floored value, in place |
| OptAlgorithm.Recombine | opt/algorithm.py:150-156 | `c1` and `c2` at every position are the recombined pair of that position |
| OptAlgorithm.SwapWhere | opt/algorithm.py:159-162 | `c1` and `c2` are exchanged exactly where the draw is at most 0.5 |
| OptAlgorithm.CopyParent | opt/algorithm.py:165 | child k starts as an exact copy of parent k |
| OptAlgorithm.TakeWhere | opt/algorithm.py:168-169 | child positions under the mask take the recombined value; all others are unchanged |
| OptAlgorithm.ClampChild | opt/algorithm.py:171-172 | child k is repaired into the bounds entry by entry; the other child is untouched |
| OptAlgorithm.SelectOffspring | opt/algorithm.py:174-177 | with one offspring, each mating yields one whole child, chosen by its draw, in shape `(1, n_matings, n_var)` |
| OptAlgorithm.RecombinationMask | opt/algorithm.py:115-120 | a position is recombined exactly when its draw is at most `prob_per_variable` and its parents differ by more than 1e-14 |
| OptAlgorithm.FlooredSpread | opt/algorithm.py:123-148 | the smaller and larger parent values and their floored distance |
| OptAlgorithm.SwappedChildren | opt/algorithm.py:150-162 | `c1` and `c2` after the swap equal `Swapped` of the recombined pair at every position |
| OptAlgorithm.MaskedChild | opt/algorithm.py:165-169 | child k is the recombined value under the mask and parent k elsewhere |
| OptAlgorithm.CrossoverValues | opt/algorithm.py:115-169 | the children before the repair equal `ChildValues` at every position |
| OptAlgorithm.ChildrenFromPasses | opt/algorithm.py:115-169 | the mask, the swapped pair and the masked copy together give `ChildValues` at every position |
| OptAlgorithm.CrossoverDo | opt/algorithm.py:103-179 | `eta == -1` raises `ZeroDivisionError`, and nothing else does; otherwise the output has shape `(2, n_matings, n_var)`, or `(1, n_matings, n_var)` with one offspring, and every entry is what `Offspring` prescribes, so within the bounds wherever `xl <= xu` |
| OptAlgorithm.MutantEntry | opt/algorithm.py:200-241 | a mutated entry lies within `[xl, xu]`; an entry whose draw is not below `prob` is copied from X |
| OptAlgorithm.MutationMask | opt/algorithm.py:200 | an entry is selected exactly when its draw is strictly below `prob` |
| OptAlgorithm.CopyMatrix | opt/algorithm.py:202 | `Y[:, :] = X`: a fresh copy of X |
| OptAlgorithm.PolynomialSteps | opt/algorithm.py:209-235 | every step is the clamped polynomial step of its entry |
| OptAlgorithm.RepairAll | opt/algorithm.py:241 | every entry is repaired into its variable's bounds, in place |
| OptAlgorithm.MutationScheme.constructor | opt/algorithm.py:182-190 | stores eta, and prob as given (None by default) |
| OptAlgorithm.MutationScheme.Do | opt/algorithm.py:192-243 | a missing `prob` becomes `1 / n_var` on the first call and is kept afterwards; with no variables, or `eta == -1`, the call raises `ZeroDivisionError`; otherwise the result has X's shape and every entry is `MutantEntry`, so it is within bounds and unselected entries are copied |
| OptAlgorithm.MutateTwice | opt/algorithm.py:197-198 | the fallback probability is fixed by the first call: a later call on a different number of variables keeps `1 / n_var` of the first |
| UtilitiesOptimization.Column | utilities/optimization.py:57 | column i, top to bottom, one entry per row |
| UtilitiesOptimization.FirstConstant | utilities/optimization.py:56-62 | the first constant column at or after i: it is constant and no earlier one is; None when there is none |
| UtilitiesOptimization.Normalized | utilities/optimization.py:42-64 | an error exactly when there are columns and either no rows (`ValueError`) or a constant column (reported at the first one); otherwise the same shape, with each entry `(v - min) / (max - min)` of its own column |
| UtilitiesOptimization.ColumnRange | utilities/optimization.py:59-60 | a column that is not constant has a non-empty range holding all its values |
| UtilitiesOptimization.NormalizedInUnitInterval | utilities/optimization.py:59-62 | every normalised value lies in `[0, 1]` |
| UtilitiesOptimization.NormalizedAttainsBounds | utilities/optimization.py:59-62 | in every column the minimum maps to 0 and the maximum to 1 |
| UtilitiesOptimization.NormalizedKeepsOrder | utilities/optimization.py:56-62 | within a column, scaling keeps the order of any two rows, and equal values stay equal |
| UtilitiesOptimization.ScaleMonotone | utilities/optimization.py:62 | min-max scaling is strictly monotone |
| UtilitiesOptimization.FillColumn | utilities/optimization.py:62 | writes the scaled column i and no other entry |
| UtilitiesOptimization.ScaleColumn | utilities/optimization.py:57-62 | scales the column exactly when it is not constant; the other columns are untouched |
| UtilitiesOptimization.ScaleColumns | utilities/optimization.py:56-62 | the loop stops at the first constant column; without one, every entry holds its scaled value |
| UtilitiesOptimization.NormalizeObjectiveSpaceResults | utilities/optimization.py:42-64 | the fresh array has the input's shape and holds exactly `Normalized` of the input, or the same error |
| UtilitiesOptimization.Pow10 | utilities/optimization.py:91 | `10 ** e` is positive, and at least 1 for `e >= 0` |
| UtilitiesOptimization.CloseBound | utilities/optimization.py:91 | same length; every bound grows by exactly `10 ** -decimals`, so each result is strictly above its input |
| UtilsOptimization.NormalizeObjectiveSpaceResults | utils/optimization.py:32-54 | the same column-by-column min-max scaling into a fresh array of the input's shape, or the same error |
| UtilsOptimization.CloseBound | utils/optimization.py:57-81 | every bound grows by exactly `10 ** -decimals`; the length is unchanged |
| OptimizationMain.BestEligible | optimization/main.py:316 | the masked argmax: None exactly when no row is eligible; otherwise an eligible row whose owPPD is the largest among eligible rows, and the first such row |
| OptimizationMain.RecommendPoint | optimization/main.py:278-316 | with an eligible point, an eligible index with the largest owPPD (the first one); with none, the ASF index of the normalised front, or the normalisation's error; an empty objective row raises `IndexError` |
| OptimizationMain.LimitIsEligible | optimization/main.py:296-298 | a point exactly at `max_ppd` is eligible, because the mask is a strict comparison |
| OptimizationMain.RecommendSchedule | optimization/main.py:335-337 | row `index` of the design matrix, unchanged, with Python's negative indexing; an index out of range raises `IndexError` |
| OptimizationMain.RecommendedSchedule | optimization/main.py:278-337 | the recommended index is always a valid row, and its schedule is that row of the design matrix |
| OptimizationMain.SliceBound | optimization/main.py:440 | a Python slice bound: negative counts from the end, and the result is clamped into `[0, len]` |
| OptimizationMain.Slice | optimization/main.py:440 | `s[start:stop]` is the plain subsequence when `0 <= start <= stop <= len` |
| OptimizationMain.TruncDiv | optimization/main.py:443 | `int(a / b)`, truncated toward zero |
| OptimizationMain.Repeat | optimization/main.py:445 | `np.repeat(s, n)` has `len(s) * n` values |
| OptimizationMain.Copies | optimization/main.py:445 | `n` copies of one value |
| OptimizationMain.RepeatBlocks | optimization/main.py:445 | block i of the repetition is `n` copies of value i: each value repeated consecutively and in order |
| OptimizationMain.RepeatRoundTrip | optimization/main.py:440-445 | the compressed values are recovered from the repetition |
| OptimizationMain.Decompress | optimization/main.py:440-448 | a decompressed column has exactly one value per row |
| OptimizationMain.DecompressCases | optimization/main.py:440-448 | an empty range raises `ZeroDivisionError`; a negative count raises `ValueError`; a column comes out exactly when the repetition fills the frame, and it is the slice with each value repeated `int(rows / (stop - start))` times |
| OptimizationMain.Upsert | optimization/main.py:448 | assigning a column keeps the frame's width or appends the column |
| OptimizationMain.UpsertHolds | optimization/main.py:448 | the assigned column is in the frame afterwards |
| OptimizationMain.UpsertReplaces | optimization/main.py:448 | an existing label is replaced in place: same width, same label order |
| OptimizationMain.UpsertAppends | optimization/main.py:448 | a new label is appended as the last column |
| OptimizationMain.UpsertKeepsOthers | optimization/main.py:448 | columns of other labels stay where and as they were |
| OptimizationMain.UpsertMembers | optimization/main.py:448 | every column afterwards is the assigned one or was already there |
| OptimizationMain.BuildColumnsFill | optimization/main.py:435-448 | every column the loop writes has exactly one value per row |
| OptimizationMain.BuildLabels | optimization/main.py:435-448 | with distinct labels, the frame has one column per lookup row, labelled in table order |
| OptimizationMain.BuildDistinct | optimization/main.py:435-448 | with distinct labels, column i holds lookup row i's decompressed values |
| OptimizationMain.BuildStep | optimization/main.py:435 | handling one more lookup row is one more step of the fold |
| OptimizationMain.BuildStopsAtError | optimization/main.py:435-448 | the first lookup row that raises ends the loop, with its error |
| OptimizationMain.WriteResult | optimization/main.py:426-448 | the loop over the lookup table on a frame of `24 / DF_FREQ_NUM` rows yields exactly `Build` |

## Left out

- **I/O and reporting.**
  - The CSV file, directory creation, plotting, monitors, callbacks.
  - The EnergyPlus evaluation and the module-level run of `optimization/main.py`.
  - `read_problem_bounds`.
  - `algorithm_performance` and `_delta`, which are numeric reporting over pymoo indicators.
  - The `warnings.warn` of `recommend_point` when no point is within `max_ppd`.
- **pymoo internals.** `SlidingWindow`, `TerminationCollection`, the maximum-generation and maximum-evaluation terminations, `set_to_bounds_if_outside_by_problem`, `Hypervolume`, `IGDPlus`, the ASF decomposition and `time_to_int` are outside this model. Only their contracts are modelled:
  - a bounded first-in-first-out window;
  - the budgets asked in order, stopping at the first "stop";
  - `n_gen < n_max_gen` and `n_eval < n_max_evals`;
  - the clamp;
  - opaque indicator and parser values.
- **CustomSlidingWindow is not part of this model.** The normal/strict criterion of `optimization/TerminationCriterion.py` extends it, and it is taken to behave as `opt/rolling_window.py`.
- **pymoo's sliding-window termination.** `optimization/termination.py` runs on it, and the model runs it on the same engine with no wall-time budget (`wallTime` is None).
- **Random numbers, `np.power` and floating point.**
  - The generators are input arrays, or a function of seed and index for sampling; the model proves no distributional property.
  - `np.power` is a parameter; the model proves no exact floating-point results.
  - Reals are exact. NaN is not modelled.
  - Infinities are modelled only where crossover can divide by zero (`Value`).
- **Rounding.** The `np.round(…, decimals)` of `write_result` and the sampling rounding, which is commented out in the source.
- **The time column of `write_result`** and the pandas frame length it sets: the model takes the row count `24 / DF_FREQ_NUM` as the constant `ROWS`.
- **`DuplicateEliminationScheme`** is an empty pass-through.
- **`optimization/test.py`** refers to a class the module does not define.
- **`metric_window_size=None`.** The engine's default window size is not modelled: a window size is a natural number, and every criterion passes one.
- **Mutation's random positions.** Mutation's second draw is taken per position of X rather than per selected entry. This re-indexes the same draws and changes which draw an entry sees, not the result's properties.
- **numpy's vectorised assignments.** They are whole-array updates, modelled as Dafny `forall` statements or loops over the array. Aliasing between the arrays is excluded by each pass's preconditions.
- **Preconditions the source does not state:**
  - OptAlgorithm.MutationScheme.Do requires `xl < xu` for every variable, because the source divides by `xu - xl` without a guard.
  - OptimizationTermination.New requires `metric_computation_frequency > 0`, because the engine computes `n_gen % nth_gen`.
  - OptRollingWindow.RollingWindow.constructor requires `nth_gen > 0`, for the same reason.
- OptTerminationCriterion.MeanDrift: numpy's mean of an empty difference array is NaN with a warning; the model reports it as a `ValueError`.
- UtilitiesOptimization.Normalized: numpy divides a constant column by zero and yields NaN silently; the model reports `ConstantColumn` at the first such column. UtilitiesOptimization.NormalizeObjectiveSpaceResults and UtilsOptimization.NormalizeObjectiveSpaceResults inherit this.
- OptAlgorithm.CrossoverDo: for `eta == -1` the source raises inside `calc_betaq`, after the mask passes; the draws those passes consume from numpy's global generator are inputs in this model, so the model raises before them.
- OptAlgorithm.SelectOffspring: the random child choice `np.random.choice(2, n_matings)` is an input array of booleans (True picks the second child).
- OptimizationMain.RecommendPoint: the ASF decomposition is a parameter that returns an in-range row index of a non-empty normalised front.
- OptimizationMain.Decompress: its own contract gives only the column length; the error cases and the contents are stated by OptimizationMain.DecompressCases.
- OptimizationMain.Upsert: its own contract gives only the frame's width or the appended column; the replace, append and keep-others cases are stated by the lemmas beside it.
- OptTerminationCriterion.Metric: numpy broadcasts snapshots whose shapes differ but are compatible, such as a (1, n) population against a (k, n) one, and the source then computes a drift; the model raises `ValueError` for every shape mismatch.
- OptimizationTerminationCriterion.Metric: the same broadcasting is not modelled; every shape mismatch raises `ValueError`.
- OptimizationNormalStrictCriterion.Metric: the same broadcasting is not modelled; every shape mismatch raises `ValueError`.
- OptimizationTermination.Metric: a constant objective column makes numpy's normalisation yield NaN silently, and pymoo's indicators then receive NaN; where the delta comes out NaN, `max(delta_f) > epsilon` is False and the search stops. The model has no NaN and reports `ConstantColumn` instead.
- OptimizationMain.RecommendPoint: in the ASF branch, a constant objective column makes every ASF value NaN and numpy's `argmin` returns index 0; the model reports `ConstantColumn` instead.
- Common.Lower: Python's lower-casing of non-ASCII characters is not modelled; only 'A' to 'Z' are lower-cased.
- OptMaxWallTime.NormaliseBudget: a bool budget counts as an int (Python's `isinstance`) and is stored as 0 or 1.

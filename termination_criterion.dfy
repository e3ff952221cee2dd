// Design-space drift policies for the sliding-window engine:
//   opt/termination_criterion.py            soft / medium / hard
//   optimization/termination_criterion.py   the same policy, line for line
//   optimization/TerminationCriterion.py    normal / strict
// Each stores the population's decision matrix, measures the drift between
// the two latest matrices (mean or max of the entrywise absolute
// differences) and decides from the metric window (mean or max) whether the
// drift still exceeds the tolerance: true means "continue".  The mode is
// compared after lower-casing and is only checked when a metric or a
// decision is computed, never at construction.

module OptTerminationCriterion {
  import opened Common
  import E = OptRollingWindow
  import WT = OptMaxWallTime

  // ---------------------------------------------------------------------
  // The two drift measures and the two window aggregates, shared by every
  // drift policy.

  /** np.mean(np.abs(a - b)); an empty difference array has no mean (see README). */
  function MeanDrift(a: Matrix, b: Matrix): (r: Result<real>)
    requires SameShape(a, b)
    ensures r.Err? <==> |AbsDiffs(a, b)| == 0
    ensures r.Ok? ==> r.value >= 0.0
    ensures r.Ok? ==> (r.value == 0.0 <==> a == b)
    ensures r.Ok? ==> r.value == Mean(AbsDiffs(a, b))
    ensures r.Ok? ==> r.value <= Max(AbsDiffs(a, b))
  {
    var d := AbsDiffs(a, b);
    if |d| == 0 then Err(ValueError("mean of an empty array"))
    else
      MeanNonNegative(d);
      AbsDiffsZero(a, b);
      MeanAtMostMax(d);
      Ok(Mean(d))
  }

  /** np.max(np.abs(a - b)): the largest entrywise drift, raising on an empty array. */
  function MaxDrift(a: Matrix, b: Matrix): (r: Result<real>)
    requires SameShape(a, b)
    ensures r.Err? <==> |AbsDiffs(a, b)| == 0
    ensures r.Err? ==> r.error.ValueError?
    ensures r.Ok? ==> r.value >= 0.0
    ensures r.Ok? ==> (r.value == 0.0 <==> a == b)
    ensures r.Ok? ==> forall i, j :: 0 <= i < |a| && 0 <= j < |a[i]| ==> Abs(a[i][j] - b[i][j]) <= r.value
    ensures r.Ok? ==> exists i, j :: 0 <= i < |a| && 0 <= j < |a[i]| && Abs(a[i][j] - b[i][j]) == r.value
  {
    var d := AbsDiffs(a, b);
    if |d| == 0 then Err(ValueError("zero-size array to reduction operation maximum which has no identity"))
    else
      MaxDriftFacts(a, b);
      Ok(Max(d))
  }

  lemma MaxDriftFacts(a: Matrix, b: Matrix)
    requires SameShape(a, b) && |AbsDiffs(a, b)| > 0
    ensures Max(AbsDiffs(a, b)) >= 0.0
    ensures Max(AbsDiffs(a, b)) == 0.0 <==> a == b
    ensures forall i, j :: 0 <= i < |a| && 0 <= j < |a[i]| ==> Abs(a[i][j] - b[i][j]) <= Max(AbsDiffs(a, b))
    ensures exists i, j :: 0 <= i < |a| && 0 <= j < |a[i]| && Abs(a[i][j] - b[i][j]) == Max(AbsDiffs(a, b))
  {
    var d := AbsDiffs(a, b);
    AbsDiffsZero(a, b);
    forall i, j | 0 <= i < |a| && 0 <= j < |a[i]| ensures Abs(a[i][j] - b[i][j]) <= Max(d) {
      AbsDiffsContains(a, b, i, j);
    }
    AbsDiffsFrom(a, b, Max(d));
  }

  /** Every flattened difference comes from some entry. */
  lemma {:induction false} AbsDiffsFrom(a: Matrix, b: Matrix, x: real)
    requires SameShape(a, b) && x in AbsDiffs(a, b)
    ensures exists i, j :: 0 <= i < |a| && 0 <= j < |a[i]| && Abs(a[i][j] - b[i][j]) == x
    decreases |a|
  {
    var head := seq(|a[0]|, j requires 0 <= j < |a[0]| => Abs(a[0][j] - b[0][j]));
    assert AbsDiffs(a, b) == head + AbsDiffs(a[1..], b[1..]);
    if x in head {
      var j :| 0 <= j < |head| && head[j] == x;
      assert Abs(a[0][j] - b[0][j]) == x;
    } else {
      AbsDiffsFrom(a[1..], b[1..], x);
      var i, j :| 0 <= i < |a[1..]| && 0 <= j < |a[1..][i]| && Abs(a[1..][i][j] - b[1..][i][j]) == x;
      assert Abs(a[i + 1][j] - b[i + 1][j]) == x;
    }
  }

  /** np.mean(metrics) > tol; the mean of an empty window is NaN, and NaN > tol is false. */
  function MeanExceeds(metrics: seq<real>, tol: real): (r: bool)
    ensures r ==> exists i :: 0 <= i < |metrics| && metrics[i] > tol
    ensures |metrics| > 0 ==> (r <==> Mean(metrics) > tol)
  {
    if |metrics| == 0 then false
    else
      MeanAtMostMax(metrics);
      Mean(metrics) > tol
  }

  /** np.max(metrics) > tol: some metric in the window strictly exceeds tol; raises on an empty window. */
  function MaxExceeds(metrics: seq<real>, tol: real): (r: Result<bool>)
    ensures r.Err? <==> |metrics| == 0
    ensures r.Ok? ==> (r.value <==> exists i :: 0 <= i < |metrics| && metrics[i] > tol)
  {
    if |metrics| == 0 then Err(ValueError("zero-size array to reduction operation maximum which has no identity"))
    else Ok(Max(metrics) > tol)
  }

  // ---------------------------------------------------------------------
  // The soft / medium / hard policy.

  /** The attributes the constructor stores, unvalidated: tol (default 1) and mode (default "medium"). */
  datatype TerminationCriterion = TerminationCriterion(tol: real := 1.0, mode: string := "medium")

  const MODE_MESSAGE := "The termination criterion mode must be set to either soft, medium, or hard."

  predicate KnownMode(mode: string)
  {
    Lower(mode) == "soft" || Lower(mode) == "medium" || Lower(mode) == "hard"
  }

  /** _store: the population's decision matrix. */
  function Store(alg: E.Algorithm): (r: Option<Matrix>)
    ensures r == Some(alg.popX)
  {
    Some(alg.popX)
  }

  /**
   * _metric over the data window: the drift between data[-1] and data[-2],
   * averaged for "soft" and "medium", maximal for "hard".  The subtraction
   * comes first, so a short window or mismatched shapes raise before the
   * mode is looked at; an unknown mode raises NameError.
   */
  function Metric(c: TerminationCriterion, data: seq<Matrix>): (r: Result<Option<real>>)
    ensures |data| < 2 ==> r.Err? && r.error.IndexError?
    ensures |data| >= 2 && !SameShape(data[|data| - 1], data[|data| - 2]) ==> r.Err? && r.error.ValueError?
    ensures |data| >= 2 && SameShape(data[|data| - 1], data[|data| - 2]) && !KnownMode(c.mode) ==>
      r == Err(NameError(MODE_MESSAGE))
    ensures |data| >= 2 && SameShape(data[|data| - 1], data[|data| - 2]) && KnownMode(c.mode) ==>
      (r.Ok? <==> |AbsDiffs(data[|data| - 1], data[|data| - 2])| > 0)
    ensures r.Ok? ==> KnownMode(c.mode) && r.value.Some? && r.value.value >= 0.0
    ensures r.Ok? ==> (r.value.value == 0.0 <==> data[|data| - 1] == data[|data| - 2])
    ensures r.Ok? && Lower(c.mode) == "hard" ==>
      var a, b := data[|data| - 1], data[|data| - 2];
      (forall i, j :: 0 <= i < |a| && 0 <= j < |a[i]| ==> Abs(a[i][j] - b[i][j]) <= r.value.value) &&
      (exists i, j :: 0 <= i < |a| && 0 <= j < |a[i]| && Abs(a[i][j] - b[i][j]) == r.value.value)
    ensures r.Ok? && Lower(c.mode) != "hard" ==>
      var a, b := data[|data| - 1], data[|data| - 2];
      SameShape(a, b) && |AbsDiffs(a, b)| > 0 &&
      r.value.value == Mean(AbsDiffs(a, b)) && r.value.value <= Max(AbsDiffs(a, b))
  {
    if |data| < 2 then Err(IndexError("list index out of range"))
    else
      var a, b := data[|data| - 1], data[|data| - 2];
      if !SameShape(a, b) then Err(ValueError("operands could not be broadcast together"))
      else
        var mode := Lower(c.mode);
        if mode == "soft" || mode == "medium" then
          match MeanDrift(a, b)
          case Err(e) => Err(e)
          case Ok(v) => Ok(Some(v))
        else if mode == "hard" then
          match MaxDrift(a, b)
          case Err(e) => Err(e)
          case Ok(v) => Ok(Some(v))
        else Err(NameError(MODE_MESSAGE))
  }

  /**
   * _decide over the metric window: continue (true) while the window's mean
   * ("soft") or maximum ("medium", "hard") is strictly greater than tol.
   * A window aggregate equal to tol stops.  An unknown mode raises NameError.
   */
  function Decide(c: TerminationCriterion, metrics: seq<real>): (r: Result<bool>)
    ensures !KnownMode(c.mode) ==> r == Err(NameError(MODE_MESSAGE))
    ensures r == Ok(true) ==> exists i :: 0 <= i < |metrics| && metrics[i] > c.tol
    ensures Lower(c.mode) == "soft" ==> r.Ok? && (r.value <==> |metrics| > 0 && Mean(metrics) > c.tol)
    ensures (Lower(c.mode) == "medium" || Lower(c.mode) == "hard") && |metrics| > 0 ==>
      r.Ok? && (r.value <==> exists i :: 0 <= i < |metrics| && metrics[i] > c.tol)
    ensures (Lower(c.mode) == "medium" || Lower(c.mode) == "hard") && |metrics| == 0 ==>
      r.Err? && r.error.ValueError?
  {
    var mode := Lower(c.mode);
    if mode == "soft" then Ok(MeanExceeds(metrics, c.tol))
    else if mode == "medium" || mode == "hard" then MaxExceeds(metrics, c.tol)
    else Err(NameError(MODE_MESSAGE))
  }

  /** The policy plugged into the engine. */
  function AsPolicy(c: TerminationCriterion): E.Policy<Matrix, real>
  {
    E.Policy(alg => Store(alg), data => Metric(c, data), metrics => Decide(c, metrics))
  }

  /** The engine configuration: n_last is the metric window; data window 2 and minimum data 2 are inherited. */
  function EngineConfig(nLast: nat): (cfg: E.Config)
    ensures cfg.metricWindowSize == nLast && cfg.dataWindowSize == 2 && cfg.minDataForMetric == 2
    ensures cfg.nthGen == 1 && cfg.truncateData && cfg.truncateMetrics
  {
    E.Config(metricWindowSize := nLast)
  }

  /**
   * __init__: the engine with n_last (default 20) as its metric window and
   * the three hard budgets; tol and mode are stored as given.  Only a
   * wall-time budget MaxWallTime rejects makes construction fail, with its
   * exception; the mode never does.
   */
  method New(timeToInt: string -> Option<int>, nLast: nat := 20, tol: real := 1.0, mode: string := "medium",
             nMaxGen: Option<int> := None, nMaxEvals: Option<int> := None, maxTime: WT.Budget := WT.NoBudget)
    returns (r: Result<(TerminationCriterion, E.RollingWindow<Matrix, real>)>)
    ensures r.Err? <==> WT.Rejected(maxTime, timeToInt)
    ensures r.Err? ==> r.error == WT.NormaliseBudget(maxTime, timeToInt).error
    ensures r.Ok? ==> var (c, engine) := r.value;
      c == TerminationCriterion(tol, mode) && fresh(engine) &&
      engine.Valid() && engine.cfg == EngineConfig(nLast) && engine.policy == AsPolicy(c) &&
      engine.budgets == E.Budgets(nMaxGen, nMaxEvals) && engine.wallTime.Some? &&
      fresh(engine.wallTime.value) && engine.wallTime.value.start == None && engine.wallTime.value.now == None &&
      engine.wallTime.value.maxTime == WT.NormaliseBudget(maxTime, timeToInt).value &&
      engine.data == [] && engine.metrics == []
  {
    var wall := WT.New(maxTime, timeToInt);
    if wall.Err? {
      return Err(wall.error);
    }
    var c := TerminationCriterion(tol, mode);
    var engine := new E.RollingWindow(EngineConfig(nLast), AsPolicy(c), E.Budgets(nMaxGen, nMaxEvals), Some(wall.value));
    r := Ok((c, engine));
  }

  // ---------------------------------------------------------------------
  // The policy inside the engine.

  /**
   * A population that has not moved since the previous snapshot, after a
   * window of zero drift, stops the search on a checking generation: the
   * metric is 0 and 0 > tol is false for any tol >= 0.
   */
  lemma {:induction false} StationaryPopulationStops(c: TerminationCriterion, nLast: nat, alg: E.Algorithm, w: E.Windows<Matrix, real>)
    requires KnownMode(c.mode) && c.tol >= 0.0 && nLast >= 1
    requires |w.data| >= 1 && w.data[|w.data| - 1] == alg.popX && |AbsDiffs(alg.popX, alg.popX)| > 0
    requires |w.metrics| + 1 >= nLast
    requires forall i :: 0 <= i < |w.metrics| ==> w.metrics[i] == 0.0
    ensures E.Step(EngineConfig(nLast), AsPolicy(c), true, alg, w).result == Ok(false)
  {
    var cfg, p := EngineConfig(nLast), AsPolicy(c);
    var data := E.Push(w.data, alg.popX, 2, true);
    StationaryMetric(c, alg.popX, w.data);
    assert E.StoreStep(cfg, p.store(alg), w.data) == data;
    assert p.metric(E.LastN(data, 2)) == Metric(c, data);
    var metrics := E.Push(w.metrics, 0.0, nLast, true);
    ZeroWindow(w.metrics, nLast);
    StationaryDecision(c, metrics);
    assert p.decide(E.LastN(metrics, nLast)) == Decide(c, E.LastN(metrics, nLast));
  }

  /** Two equal snapshots in the data window give a drift of exactly zero. */
  lemma StationaryMetric(c: TerminationCriterion, x: Matrix, data: seq<Matrix>)
    requires KnownMode(c.mode) && |data| >= 1 && data[|data| - 1] == x && |AbsDiffs(x, x)| > 0
    ensures var pushed := E.Push(data, x, 2, true);
      |pushed| == 2 && E.LastN(pushed, 2) == pushed && Metric(c, pushed) == Ok(Some(0.0))
  {
    var pushed := E.Push(data, x, 2, true);
    assert pushed[0] == (data + [x])[|data| - 1];
    assert pushed == [x, x];
  }

  /** A full window of zero drifts never exceeds a non-negative tolerance. */
  lemma StationaryDecision(c: TerminationCriterion, metrics: seq<real>)
    requires KnownMode(c.mode) && c.tol >= 0.0 && |metrics| >= 1
    requires forall i :: 0 <= i < |metrics| ==> metrics[i] == 0.0
    ensures Decide(c, E.LastN(metrics, |metrics|)) == Ok(false)
  {
    assert E.LastN(metrics, |metrics|) == metrics;
    if Lower(c.mode) == "soft" {
      assert Decide(c, metrics).Ok?;
    }
  }

  /** Appending a zero drift to a window of zero drifts keeps it all zero, and full. */
  lemma ZeroWindow(metrics: seq<real>, nLast: nat)
    requires nLast >= 1 && |metrics| + 1 >= nLast
    requires forall i :: 0 <= i < |metrics| ==> metrics[i] == 0.0
    ensures var pushed := E.Push(metrics, 0.0, nLast, true);
      |pushed| == nLast && forall i :: 0 <= i < |pushed| ==> pushed[i] == 0.0
  {
    var pushed := E.Push(metrics, 0.0, nLast, true);
    forall i | 0 <= i < |pushed| ensures pushed[i] == 0.0 {
      assert pushed[i] == (metrics + [0.0])[|metrics| + 1 - |pushed| + i];
    }
  }

  /**
   * Mode validation is deferred: with an unknown mode the engine still
   * answers "continue" at the first check, while it holds fewer than two
   * snapshots.
   */
  lemma UnknownModeContinuesAtFirstCheck(c: TerminationCriterion, nLast: nat, alg: E.Algorithm)
    requires !KnownMode(c.mode) && nLast >= 1
    ensures E.Step(EngineConfig(nLast), AsPolicy(c), true, alg, E.Windows([], [])).result == Ok(true)
  {
    var cfg, p := EngineConfig(nLast), AsPolicy(c);
    var first := E.Step(cfg, p, true, alg, E.Windows([], []));
    assert first.windows.data == [alg.popX];
    assert !E.MetricDue(cfg, first.windows.data);
  }

  /** ... and raises NameError at the first check that computes a metric. */
  lemma UnknownModeRaisesAtFirstMetric(c: TerminationCriterion, nLast: nat, alg: E.Algorithm, w: E.Windows<Matrix, real>)
    requires !KnownMode(c.mode) && nLast >= 1
    requires |w.data| == 1 && w.metrics == [] && SameShape(w.data[0], alg.popX)
    ensures E.Step(EngineConfig(nLast), AsPolicy(c), true, alg, w).result == Err(NameError(MODE_MESSAGE))
  {
    UnknownModeMetricRaises(c, nLast, alg, w);
    E.MetricErrorRaised(EngineConfig(nLast), AsPolicy(c), alg, w);
  }

  /** The second snapshot makes the metric due, and under an unknown mode it raises NameError. */
  lemma UnknownModeMetricRaises(c: TerminationCriterion, nLast: nat, alg: E.Algorithm, w: E.Windows<Matrix, real>)
    requires !KnownMode(c.mode) && nLast >= 1
    requires |w.data| == 1 && SameShape(w.data[0], alg.popX)
    ensures var cfg, p := EngineConfig(nLast), AsPolicy(c);
            var data := E.StoreStep(cfg, p.store(alg), w.data);
            E.MetricDue(cfg, data) && p.metric(E.LastN(data, cfg.dataWindowSize)) == Err(NameError(MODE_MESSAGE))
  {
    var cfg, p := EngineConfig(nLast), AsPolicy(c);
    var data := E.StoreStep(cfg, p.store(alg), w.data);
    assert data == [w.data[0], alg.popX];
    assert SameShape(alg.popX, w.data[0]) by {
      assert forall r :: 0 <= r < |alg.popX| ==> |alg.popX[r]| == |w.data[0][r]|;
    }
    assert E.LastN(data, cfg.dataWindowSize) == data;
  }

  /**
   * Modes are matched case-insensitively: two spellings of a mode that differ
   * only in letter case give the same metric and the same decision, and
   * "HARD" is the hard mode.
   */
  lemma ModeIgnoresCase(tol: real, m1: string, m2: string, data: seq<Matrix>, metrics: seq<real>)
    requires |m1| == |m2| && forall i :: 0 <= i < |m1| ==> LowerChar(m1[i]) == LowerChar(m2[i])
    ensures Metric(TerminationCriterion(tol, m1), data) == Metric(TerminationCriterion(tol, m2), data)
    ensures Decide(TerminationCriterion(tol, m1), metrics) == Decide(TerminationCriterion(tol, m2), metrics)
    ensures Lower("HARD") == "hard"
  {
    LowerIgnoresCase(m1, m2);
  }

  /** A "soft" engine never asks to continue when a "medium" one with the same tolerance would stop. */
  lemma SoftContinuesOnlyWhenMediumDoes(tol: real, metrics: seq<real>)
    requires Decide(TerminationCriterion(tol, "soft"), metrics) == Ok(true)
    ensures Decide(TerminationCriterion(tol, "medium"), metrics) == Ok(true)
  {
    assert Lower("soft") == "soft";
    assert Lower("medium") == "medium";
  }
}

// optimization/termination_criterion.py repeats the soft / medium / hard
// policy of opt/termination_criterion.py line for line; its entry points
// here run the shared definition.
module OptimizationTerminationCriterion {
  import opened Common
  import E = OptRollingWindow
  import WT = OptMaxWallTime
  import D = OptTerminationCriterion

  /** _store of the copy: the population's decision matrix. */
  function Store(alg: E.Algorithm): (r: Option<Matrix>)
    ensures r == Some(alg.popX)
  {
    D.Store(alg)
  }

  /** _metric of the copy: mean drift for soft/medium, max drift for hard, NameError otherwise. */
  function Metric(c: D.TerminationCriterion, data: seq<Matrix>): (r: Result<Option<real>>)
    ensures |data| < 2 ==> r.Err? && r.error.IndexError?
    ensures |data| >= 2 && !SameShape(data[|data| - 1], data[|data| - 2]) ==> r.Err? && r.error.ValueError?
    ensures |data| >= 2 && SameShape(data[|data| - 1], data[|data| - 2]) && !D.KnownMode(c.mode) ==>
      r == Err(NameError(D.MODE_MESSAGE))
    ensures |data| >= 2 && SameShape(data[|data| - 1], data[|data| - 2]) && D.KnownMode(c.mode) ==>
      (r.Ok? <==> |AbsDiffs(data[|data| - 1], data[|data| - 2])| > 0)
    ensures r.Ok? ==> D.KnownMode(c.mode) && r.value.Some? && r.value.value >= 0.0
    ensures r.Ok? ==> (r.value.value == 0.0 <==> data[|data| - 1] == data[|data| - 2])
    ensures r.Ok? && Lower(c.mode) == "hard" ==>
      var a, b := data[|data| - 1], data[|data| - 2];
      (forall i, j :: 0 <= i < |a| && 0 <= j < |a[i]| ==> Abs(a[i][j] - b[i][j]) <= r.value.value) &&
      (exists i, j :: 0 <= i < |a| && 0 <= j < |a[i]| && Abs(a[i][j] - b[i][j]) == r.value.value)
    ensures r.Ok? && Lower(c.mode) != "hard" ==>
      var a, b := data[|data| - 1], data[|data| - 2];
      SameShape(a, b) && |AbsDiffs(a, b)| > 0 &&
      r.value.value == Mean(AbsDiffs(a, b)) && r.value.value <= Max(AbsDiffs(a, b))
  {
    D.Metric(c, data)
  }

  /** _decide of the copy: mean of the window for soft, max for medium/hard, compared strictly with tol. */
  function Decide(c: D.TerminationCriterion, metrics: seq<real>): (r: Result<bool>)
    ensures !D.KnownMode(c.mode) ==> r == Err(NameError(D.MODE_MESSAGE))
    ensures r == Ok(true) ==> exists i :: 0 <= i < |metrics| && metrics[i] > c.tol
    ensures Lower(c.mode) == "soft" ==> r.Ok? && (r.value <==> |metrics| > 0 && Mean(metrics) > c.tol)
    ensures (Lower(c.mode) == "medium" || Lower(c.mode) == "hard") && |metrics| > 0 ==>
      r.Ok? && (r.value <==> exists i :: 0 <= i < |metrics| && metrics[i] > c.tol)
    ensures (Lower(c.mode) == "medium" || Lower(c.mode) == "hard") && |metrics| == 0 ==>
      r.Err? && r.error.ValueError?
  {
    D.Decide(c, metrics)
  }

  /** __init__ of the copy: n_last (20), tol (1), mode ("medium") and the budgets; nothing is validated. */
  method New(timeToInt: string -> Option<int>, nLast: nat := 20, tol: real := 1.0, mode: string := "medium",
             nMaxGen: Option<int> := None, nMaxEvals: Option<int> := None, maxTime: WT.Budget := WT.NoBudget)
    returns (r: Result<(D.TerminationCriterion, E.RollingWindow<Matrix, real>)>)
    ensures r.Err? <==> WT.Rejected(maxTime, timeToInt)
    ensures r.Err? ==> r.error == WT.NormaliseBudget(maxTime, timeToInt).error
    ensures r.Ok? ==> var (c, engine) := r.value;
      c == D.TerminationCriterion(tol, mode) && fresh(engine) && engine.Valid() &&
      engine.cfg == D.EngineConfig(nLast) && engine.policy == D.AsPolicy(c) &&
      engine.budgets == E.Budgets(nMaxGen, nMaxEvals) && engine.wallTime.Some? &&
      fresh(engine.wallTime.value) && engine.wallTime.value.start == None && engine.wallTime.value.now == None &&
      engine.wallTime.value.maxTime == WT.NormaliseBudget(maxTime, timeToInt).value &&
      engine.data == [] && engine.metrics == []
  {
    r := D.New(timeToInt, nLast, tol, mode, nMaxGen, nMaxEvals, maxTime);
  }
}

// optimization/TerminationCriterion.py: the normal / strict variant, with
// its own tolerance default and the data window fixed explicitly.
module OptimizationNormalStrictCriterion {
  import opened Common
  import E = OptRollingWindow
  import WT = OptMaxWallTime
  import D = OptTerminationCriterion

  /** tol defaults to 1e-6 and mode to "normal"; neither is validated. */
  datatype TerminationCriterion = TerminationCriterion(tol: real := 0.000001, mode: string := "normal")

  const MODE_MESSAGE := "The termination criterion mode must be set to either normal or strict."

  predicate KnownMode(mode: string)
  {
    Lower(mode) == "normal" || Lower(mode) == "strict"
  }
  /** Modes are matched case-insensitively, as in the drift criterion. */
  lemma ModeIgnoresCase(tol: real, m1: string, m2: string, data: seq<Matrix>, metrics: seq<real>)
    requires |m1| == |m2| && forall i :: 0 <= i < |m1| ==> LowerChar(m1[i]) == LowerChar(m2[i])
    ensures Metric(TerminationCriterion(tol, m1), data) == Metric(TerminationCriterion(tol, m2), data)
    ensures Decide(TerminationCriterion(tol, m1), metrics) == Decide(TerminationCriterion(tol, m2), metrics)
    ensures Lower("STRICT") == "strict"
  {
    LowerIgnoresCase(m1, m2);
  }


  /** _store: the population's decision matrix. */
  function Store(alg: E.Algorithm): (r: Option<Matrix>)
    ensures r == Some(alg.popX)
  {
    Some(alg.popX)
  }

  /** _metric: mean drift for "normal", largest drift for "strict", NameError for any other mode. */
  function Metric(c: TerminationCriterion, data: seq<Matrix>): (r: Result<Option<real>>)
    ensures |data| < 2 ==> r.Err? && r.error.IndexError?
    ensures |data| >= 2 && !SameShape(data[|data| - 1], data[|data| - 2]) ==> r.Err? && r.error.ValueError?
    ensures |data| >= 2 && SameShape(data[|data| - 1], data[|data| - 2]) && !KnownMode(c.mode) ==>
      r == Err(NameError(MODE_MESSAGE))
    ensures r.Ok? ==> KnownMode(c.mode) && r.value.Some? && r.value.value >= 0.0
    ensures r.Ok? ==> (r.value.value == 0.0 <==> data[|data| - 1] == data[|data| - 2])
    ensures |data| >= 2 && SameShape(data[|data| - 1], data[|data| - 2]) && KnownMode(c.mode) ==>
      (r.Ok? <==> |AbsDiffs(data[|data| - 1], data[|data| - 2])| > 0)
    ensures r.Ok? && Lower(c.mode) == "strict" ==>
      var a, b := data[|data| - 1], data[|data| - 2];
      (forall i, j :: 0 <= i < |a| && 0 <= j < |a[i]| ==> Abs(a[i][j] - b[i][j]) <= r.value.value) &&
      (exists i, j :: 0 <= i < |a| && 0 <= j < |a[i]| && Abs(a[i][j] - b[i][j]) == r.value.value)
    ensures r.Ok? && Lower(c.mode) == "normal" ==>
      var a, b := data[|data| - 1], data[|data| - 2];
      SameShape(a, b) && |AbsDiffs(a, b)| > 0 &&
      r.value.value == Mean(AbsDiffs(a, b)) && r.value.value <= Max(AbsDiffs(a, b))
  {
    if |data| < 2 then Err(IndexError("list index out of range"))
    else
      var a, b := data[|data| - 1], data[|data| - 2];
      if !SameShape(a, b) then Err(ValueError("operands could not be broadcast together"))
      else
        var mode := Lower(c.mode);
        if mode == "normal" then
          match D.MeanDrift(a, b)
          case Err(e) => Err(e)
          case Ok(v) => Ok(Some(v))
        else if mode == "strict" then
          match D.MaxDrift(a, b)
          case Err(e) => Err(e)
          case Ok(v) => Ok(Some(v))
        else Err(NameError(MODE_MESSAGE))
  }

  /** _decide: continue while the window's mean ("normal") or maximum ("strict") is strictly above tol. */
  function Decide(c: TerminationCriterion, metrics: seq<real>): (r: Result<bool>)
    ensures !KnownMode(c.mode) ==> r == Err(NameError(MODE_MESSAGE))
    ensures r == Ok(true) ==> exists i :: 0 <= i < |metrics| && metrics[i] > c.tol
    ensures Lower(c.mode) == "normal" ==> r.Ok? && (r.value <==> |metrics| > 0 && Mean(metrics) > c.tol)
    ensures Lower(c.mode) == "strict" && |metrics| > 0 ==>
      r.Ok? && (r.value <==> exists i :: 0 <= i < |metrics| && metrics[i] > c.tol)
    ensures Lower(c.mode) == "strict" && |metrics| == 0 ==> r.Err? && r.error.ValueError?
  {
    var mode := Lower(c.mode);
    if mode == "normal" then Ok(D.MeanExceeds(metrics, c.tol))
    else if mode == "strict" then D.MaxExceeds(metrics, c.tol)
    else Err(NameError(MODE_MESSAGE))
  }

  function AsPolicy(c: TerminationCriterion): E.Policy<Matrix, real>
  {
    E.Policy(alg => Store(alg), data => Metric(c, data), metrics => Decide(c, metrics))
  }

  /** __init__: n_last as the metric window, data window and minimum data both fixed at 2. */
  method New(timeToInt: string -> Option<int>, nLast: nat := 20, tol: real := 0.000001, mode: string := "normal",
             nMaxGen: Option<int> := None, nMaxEvals: Option<int> := None, maxTime: WT.Budget := WT.NoBudget)
    returns (r: Result<(TerminationCriterion, E.RollingWindow<Matrix, real>)>)
    ensures r.Err? <==> WT.Rejected(maxTime, timeToInt)
    ensures r.Err? ==> r.error == WT.NormaliseBudget(maxTime, timeToInt).error
    ensures r.Ok? ==> var (c, engine) := r.value;
      c == TerminationCriterion(tol, mode) && fresh(engine) && engine.Valid() &&
      engine.cfg == E.Config(nLast, 2, 2) && engine.policy == AsPolicy(c) &&
      engine.budgets == E.Budgets(nMaxGen, nMaxEvals) && engine.wallTime.Some? &&
      fresh(engine.wallTime.value) && engine.wallTime.value.start == None && engine.wallTime.value.now == None &&
      engine.wallTime.value.maxTime == WT.NormaliseBudget(maxTime, timeToInt).value &&
      engine.data == [] && engine.metrics == []
  {
    var wall := WT.New(maxTime, timeToInt);
    if wall.Err? {
      return Err(wall.error);
    }
    var c := TerminationCriterion(tol, mode);
    var engine := new E.RollingWindow(E.Config(nLast, 2, 2), AsPolicy(c), E.Budgets(nMaxGen, nMaxEvals), Some(wall.value));
    r := Ok((c, engine));
  }
}

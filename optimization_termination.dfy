// The Pareto-convergence termination policy (optimization/termination.py).
// It stores the current non-dominated objective set, measures how far the
// latest set moved from the previous one as IGD+ plus the absolute change
// in hypervolume (both on min-max normalised sets), and goes on while the
// largest such change in the metric window exceeds epsilon.  It runs on
// pymoo's sliding-window engine, which behaves as the engine of
// opt/rolling_window.py without a wall-time budget.

module OptimizationTermination {
  import opened Common
  import E = OptRollingWindow
  import U = UtilitiesOptimization

  /** What _store returns: the dictionary {"F": the current non-dominated objective vectors}. */
  datatype Snapshot = Snapshot(F: Matrix)

  /** What _metric returns: the dictionary {"delta": the change between two consecutive sets}. */
  datatype DeltaRecord = DeltaRecord(delta: real)

  /**
   * pymoo's performance indicators, whose computation this model does not
   * look inside: IGD+ of an evaluated set against a reference set, and the
   * hypervolume of a set with respect to a reference point.
   */
  datatype Indicators = Indicators(
    igdPlus: (Matrix, Matrix) -> real,             // (reference set, evaluated set)
    hypervolume: ((real, real), Matrix) -> real)   // (reference point, evaluated set)

  /** The two attributes the constructor stores. */
  datatype TerminationCriterion = TerminationCriterion(epsilon: real := 0.0025, referencePoint: (real, real) := (1.0, 1.0))

  /**
   * _normalize_objective_space_results applied to a front held as rows:
   * an empty front makes np.min raise, ragged rows cannot form an array.
   */
  function NormalizedFront(F: Matrix): (r: Result<Matrix>)
    ensures |F| == 0 ==> r.Err? && r.error.ValueError?
    ensures |F| > 0 && Rectangular(F, |F[0]|) ==> r == U.Normalized(F, |F[0]|)
    ensures r.Ok? ==> |r.value| == |F| > 0 && Rectangular(r.value, |F[0]|)
  {
    if |F| == 0 then Err(ValueError("zero-size array to reduction operation minimum which has no identity"))
    else if !Rectangular(F, |F[0]|) then Err(ValueError("setting an array element with a sequence"))
    else U.Normalized(F, |F[0]|)
  }

  /** _store: the dictionary holding the current non-dominated objective set. */
  function Store(alg: E.Algorithm): (r: Option<Snapshot>)
    ensures r.Some? && r.value.F == alg.optF
  {
    Some(Snapshot(alg.optF))
  }

  /**
   * _metric: normalise data[-1] (current) and then data[-2] (previous);
   * delta is IGD+ of the current set against the previous one plus the
   * absolute difference of their hypervolumes.
   */
  function Metric(c: TerminationCriterion, ind: Indicators, data: seq<Snapshot>): (r: Result<Option<DeltaRecord>>)
    ensures |data| < 2 ==> r.Err? && r.error.IndexError?
    ensures |data| >= 2 ==>
      var cur, prev := NormalizedFront(data[|data| - 1].F), NormalizedFront(data[|data| - 2].F);
      (r.Ok? <==> cur.Ok? && prev.Ok?) &&
      (cur.Err? ==> r == Err(cur.error)) &&
      (cur.Ok? && prev.Err? ==> r == Err(prev.error)) &&
      (r.Ok? ==>
         r.value.Some? &&
         r.value.value.delta >= ind.igdPlus(prev.value, cur.value) &&
         r.value.value.delta - ind.igdPlus(prev.value, cur.value) ==
           Abs(ind.hypervolume(c.referencePoint, cur.value) - ind.hypervolume(c.referencePoint, prev.value)))
  {
    if |data| < 2 then Err(IndexError("list index out of range"))
    else
      var current := NormalizedFront(data[|data| - 1].F);
      if current.Err? then Err(current.error)
      else
        var previous := NormalizedFront(data[|data| - 2].F);
        if previous.Err? then Err(previous.error)
        else
          var igd := ind.igdPlus(previous.value, current.value);
          var hv := Abs(ind.hypervolume(c.referencePoint, current.value) - ind.hypervolume(c.referencePoint, previous.value));
          Ok(Some(DeltaRecord(igd + hv)))
  }

  /** The "delta" entries of the metric window, in order. */
  function Deltas(metrics: seq<DeltaRecord>): (d: seq<real>)
    ensures |d| == |metrics| && forall i :: 0 <= i < |d| ==> d[i] == metrics[i].delta
  {
    seq(|metrics|, i requires 0 <= i < |metrics| => metrics[i].delta)
  }

  /**
   * _decide: continue while the largest delta in the window is strictly
   * greater than epsilon; Python's max raises on an empty window.
   */
  function Decide(c: TerminationCriterion, metrics: seq<DeltaRecord>): (r: Result<bool>)
    ensures r.Err? <==> |metrics| == 0
    ensures r.Err? ==> r.error.ValueError?
    ensures r.Ok? ==> (r.value <==> exists i :: 0 <= i < |metrics| && metrics[i].delta > c.epsilon)
  {
    if |metrics| == 0 then Err(ValueError("max() arg is an empty sequence"))
    else
      var d := Deltas(metrics);
      assert forall i :: 0 <= i < |metrics| ==> metrics[i].delta == d[i];
      Ok(Max(d) > c.epsilon)
  }

  function AsPolicy(c: TerminationCriterion, ind: Indicators): E.Policy<Snapshot, DeltaRecord>
  {
    E.Policy(alg => Store(alg), data => Metric(c, ind, data), metrics => Decide(c, metrics))
  }

  /**
   * The constructor's argument mapping onto the engine: the window sizes
   * as given, minimum_number_generations as the minimum data for a metric,
   * metric_computation_frequency as the checking period.
   */
  function EngineConfig(dataWindowSize: nat, metricWindowSize: nat, metricComputationFrequency: nat,
                        minimumNumberGenerations: nat): (cfg: E.Config)
    ensures cfg.dataWindowSize == dataWindowSize && cfg.metricWindowSize == metricWindowSize
    ensures cfg.nthGen == metricComputationFrequency && cfg.minDataForMetric == minimumNumberGenerations
    ensures cfg.truncateData && cfg.truncateMetrics
  {
    E.Config(metricWindowSize, dataWindowSize, minimumNumberGenerations, metricComputationFrequency)
  }

  /** __init__: forward the window sizes and budgets to the engine, keep epsilon and the reference point. */
  method New(ind: Indicators, epsilon: real := 0.0025, referencePoint: (real, real) := (1.0, 1.0),
             dataWindowSize: nat := 2, metricWindowSize: nat := 1, metricComputationFrequency: nat := 1,
             maximumNumberEvaluations: Option<int> := None, minimumNumberGenerations: nat := 2,
             maximumNumberGenerations: Option<int> := None)
    returns (c: TerminationCriterion, engine: E.RollingWindow<Snapshot, DeltaRecord>)
    requires metricComputationFrequency > 0
    ensures c == TerminationCriterion(epsilon, referencePoint)
    ensures fresh(engine) && engine.Valid()
    ensures engine.cfg == EngineConfig(dataWindowSize, metricWindowSize, metricComputationFrequency, minimumNumberGenerations)
    ensures engine.policy == AsPolicy(c, ind)
    ensures engine.budgets == E.Budgets(maximumNumberGenerations, maximumNumberEvaluations)
    ensures engine.wallTime.None?
    ensures engine.data == [] && engine.metrics == []
  {
    c := TerminationCriterion(epsilon, referencePoint);
    var cfg := EngineConfig(dataWindowSize, metricWindowSize, metricComputationFrequency, minimumNumberGenerations);
    engine := new E.RollingWindow(cfg, AsPolicy(c, ind), E.Budgets(maximumNumberGenerations, maximumNumberEvaluations), None);
  }

  // ---------------------------------------------------------------------
  // Properties of the policy.

  /** _metric looks at the last two stored sets only. */
  lemma MetricReadsLastTwo(c: TerminationCriterion, ind: Indicators, data: seq<Snapshot>)
    requires |data| >= 2
    ensures Metric(c, ind, data) == Metric(c, ind, data[|data| - 2..])
  {
    var tail := data[|data| - 2..];
    assert tail[|tail| - 1] == data[|data| - 1] && tail[|tail| - 2] == data[|data| - 2];
  }

  /**
   * An unchanged front contributes no hypervolume change: its delta is the
   * IGD+ of the normalised set against itself.
   */
  lemma UnchangedFrontDelta(c: TerminationCriterion, ind: Indicators, data: seq<Snapshot>)
    requires |data| >= 2 && data[|data| - 1] == data[|data| - 2]
    requires Metric(c, ind, data).Ok?
    ensures var N := NormalizedFront(data[|data| - 1].F).value;
      Metric(c, ind, data) == Ok(Some(DeltaRecord(ind.igdPlus(N, N))))
  {
  }

  /**
   * Convergence: with the default metric window of one, a generation whose
   * front is the previous front stops the search, provided IGD+ of a set
   * against itself is zero and epsilon is not negative.
   */
  lemma {:induction false} UnchangedFrontStops(c: TerminationCriterion, ind: Indicators, alg: E.Algorithm, w: E.Windows<Snapshot, DeltaRecord>)
    requires c.epsilon >= 0.0
    requires forall X :: ind.igdPlus(X, X) == 0.0
    requires |w.data| >= 1 && w.data[|w.data| - 1] == Snapshot(alg.optF)
    requires NormalizedFront(alg.optF).Ok?
    ensures E.Step(EngineConfig(2, 1, 1, 2), AsPolicy(c, ind), true, alg, w).result == Ok(false)
  {
    var cfg, p := EngineConfig(2, 1, 1, 2), AsPolicy(c, ind);
    var S := Snapshot(alg.optF);
    var data := E.Push(w.data, S, 2, true);
    assert data[0] == (w.data + [S])[|w.data| - 1];
    assert data == [S, S];
    assert E.StoreStep(cfg, p.store(alg), w.data) == data;
    assert E.LastN(data, 2) == data;
    RepeatedFrontMetric(c, ind, alg.optF);
    assert E.MetricStep(cfg, p, data, w.metrics) == Ok([DeltaRecord(0.0)]);
    ZeroDeltaStops(c);
  }

  /** Two equal stored fronts measure a delta of zero when IGD+ of a set against itself is zero. */
  lemma RepeatedFrontMetric(c: TerminationCriterion, ind: Indicators, F: Matrix)
    requires forall X :: ind.igdPlus(X, X) == 0.0
    requires NormalizedFront(F).Ok?
    ensures Metric(c, ind, [Snapshot(F), Snapshot(F)]) == Ok(Some(DeltaRecord(0.0)))
  {
    var N := NormalizedFront(F).value;
    assert ind.igdPlus(N, N) == 0.0;
  }

  /** A window holding only a zero delta stops the search when epsilon is not negative. */
  lemma ZeroDeltaStops(c: TerminationCriterion)
    requires c.epsilon >= 0.0
    ensures Decide(c, [DeltaRecord(0.0)]) == Ok(false)
  {
    assert Deltas([DeltaRecord(0.0)]) == [0.0];
  }
}

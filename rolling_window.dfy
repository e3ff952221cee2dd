// The generic sliding-window termination engine (opt/rolling_window.py).
//
// Each generation the engine first asks its hard budgets (maximum
// generations, maximum evaluations, maximum wall time) whether to go on;
// otherwise it stores a snapshot in a bounded data window, derives a metric
// into a bounded metric window once enough data is there, and only every
// nth_gen-th generation with a full metric window asks the policy to
// decide.  The policy's answer is returned as it is: true means "continue".

module OptRollingWindow {
  import opened Common
  import WT = OptMaxWallTime

  /** The view of pymoo's algorithm object that the engine and its policies read. */
  datatype Algorithm = Algorithm(
    nGen: nat,          // algorithm.n_gen, counted from 1
    nEval: nat,         // algorithm.evaluator.n_eval
    startTime: real,    // algorithm.start_time
    popX: Matrix,       // algorithm.pop.get("X"): the decision vectors of the population
    optF: Matrix)       // algorithm.opt.get("F"): the current non-dominated objective vectors

  /**
   * What a concrete policy plugs in: what to store from the algorithm
   * (None stores nothing), how to derive a metric from the data window
   * (None appends nothing), and how to decide from the metric window.
   * Metric and decision may raise, hence the Result.
   */
  datatype Policy<!D, !M> = Policy(
    store: Algorithm -> Option<D>,
    metric: seq<D> -> Result<Option<M>>,
    decide: seq<M> -> Result<bool>)

  /** The window sizes and switches given to RollingWindow.__init__. */
  datatype Config = Config(
    metricWindowSize: nat,
    dataWindowSize: nat := 2,
    minDataForMetric: nat := 2,
    nthGen: nat := 1,
    truncateMetrics: bool := true,
    truncateData: bool := true)

  /** pymoo's maximum-generation and maximum-evaluation terminations; None means unbounded. */
  datatype Budgets = Budgets(nMaxGen: Option<int>, nMaxEvals: Option<int>)

  /** MaximumGenerationTermination: continue while n_gen < n_max_gen. */
  predicate GenerationsLeft(b: Budgets, alg: Algorithm)
  {
    b.nMaxGen.None? || alg.nGen < b.nMaxGen.value
  }

  /** MaximumFunctionCallTermination: continue while n_eval < n_max_evals. */
  predicate EvaluationsLeft(b: Budgets, alg: Algorithm)
  {
    b.nMaxEvals.None? || alg.nEval < b.nMaxEvals.value
  }

  // ---------------------------------------------------------------------
  // Bounded windows.

  /**
   * SlidingWindow.append: append, then drop the oldest entries while the
   * window is longer than its size.  A plain list (truncate off) only appends.
   */
  function Push<T>(w: seq<T>, x: T, size: nat, truncate: bool): (r: seq<T>)
    ensures |r| > 0 ==> r[|r| - 1] == x
    ensures !truncate ==> r == w + [x]
    ensures truncate ==> |r| == if |w| + 1 <= size then |w| + 1 else size
    ensures truncate ==> r == (w + [x])[|w| + 1 - |r|..]
  {
    var grown := w + [x];
    if truncate && |grown| > size then grown[|grown| - size..] else grown
  }

  /** Python's s[-n:]: the last n entries, the whole list when n is 0 or at least its length. */
  function LastN<T>(s: seq<T>, n: nat): (r: seq<T>)
    ensures n == 0 || n >= |s| ==> r == s
    ensures 0 < n <= |s| ==> |r| == n
    ensures |r| <= |s| && r == s[|s| - |r|..]
  {
    if n == 0 || n >= |s| then s else s[|s| - n..]
  }

  /** Both windows hold the engine's history. */
  datatype Windows<D, M> = Windows(data: seq<D>, metrics: seq<M>)

  /** A truncating window never exceeds its configured size. */
  predicate WithinCapacity<D, M>(cfg: Config, w: Windows<D, M>)
  {
    (cfg.truncateData ==> |w.data| <= cfg.dataWindowSize) &&
    (cfg.truncateMetrics ==> |w.metrics| <= cfg.metricWindowSize)
  }

  /** The windows after a check, and its answer (or the exception it raised). */
  datatype Outcome<D, M> = Outcome(windows: Windows<D, M>, result: Result<bool>)

  /** The data window after storing the snapshot, if there is one. */
  function StoreStep<D>(cfg: Config, stored: Option<D>, data: seq<D>): seq<D>
  {
    if stored.None? then data else Push(data, stored.value, cfg.dataWindowSize, cfg.truncateData)
  }

  /** Whether this generation computes a metric: enough data is stored. */
  predicate MetricDue<D>(cfg: Config, data: seq<D>)
  {
    |data| >= cfg.minDataForMetric
  }

  /** The metric window after a metric is derived when due, or the error the metric raised. */
  function MetricStep<D, M>(cfg: Config, p: Policy<D, M>, data: seq<D>, metrics: seq<M>): (r: Result<seq<M>>)
    ensures r.Err? ==> MetricDue(cfg, data) && p.metric(LastN(data, cfg.dataWindowSize)) == Err(r.error)
    ensures r.Ok? ==> |r.value| <= |metrics| + 1
    ensures r.Ok? && cfg.truncateMetrics && |metrics| <= cfg.metricWindowSize ==> |r.value| <= cfg.metricWindowSize
  {
    if !MetricDue(cfg, data) then Ok(metrics)
    else match p.metric(LastN(data, cfg.dataWindowSize))
      case Err(e) => Err(e)
      case Ok(None) => Ok(metrics)
      case Ok(Some(m)) => Ok(Push(metrics, m, cfg.metricWindowSize, cfg.truncateMetrics))
  }

  /** Whether this generation asks the policy: an nth generation with enough metrics. */
  predicate DecisionDue<M>(cfg: Config, nGen: nat, metrics: seq<M>)
    requires cfg.nthGen > 0
  {
    nGen % cfg.nthGen == 0 && |metrics| >= cfg.metricWindowSize
  }

  /**
   * The part of _do_continue after the hard budgets; `hardContinue` is what
   * the budget collection answered.
   */
  function Step<D, M>(cfg: Config, p: Policy<D, M>, hardContinue: bool, alg: Algorithm, w: Windows<D, M>)
    : (o: Outcome<D, M>)
    requires cfg.nthGen > 0
    // A stop from the budgets short-circuits: nothing is stored or computed.
    ensures !hardContinue ==> o == Outcome(w, Ok(false))
    // Otherwise the data window gains the snapshot, if any, and loses at most its oldest entry.
    ensures hardContinue ==> o.windows.data == StoreStep(cfg, p.store(alg), w.data)
    ensures hardContinue && p.store(alg).None? ==> o.windows.data == w.data
    // The metric window changes only when a metric is due and is not None,
    // and then gains the metric of the last dataWindowSize snapshots.
    ensures hardContinue && !MetricDue(cfg, o.windows.data) ==> o.windows.metrics == w.metrics
    ensures hardContinue && MetricDue(cfg, o.windows.data) ==>
      var m := p.metric(LastN(o.windows.data, cfg.dataWindowSize));
      (m.Err? ==> o == Outcome(Windows(o.windows.data, w.metrics), Err(m.error))) &&
      (m == Ok(None) ==> o.windows.metrics == w.metrics) &&
      (m.Ok? && m.value.Some? ==>
         o.windows.metrics == Push(w.metrics, m.value.value, cfg.metricWindowSize, cfg.truncateMetrics))
    // Each window grows by at most one entry per call.
    ensures |o.windows.data| <= |w.data| + 1 && |o.windows.metrics| <= |w.metrics| + 1
    // A window within its size stays within it.
    ensures WithinCapacity(cfg, w) ==> WithinCapacity(cfg, o.windows)
    // The policy decides only when due, on the last metricWindowSize metrics,
    // and its answer is returned unchanged; in every other case: continue.
    ensures hardContinue && o.result.Ok? && !DecisionDue(cfg, alg.nGen, o.windows.metrics) ==> o.result == Ok(true)
    ensures hardContinue && DecisionDue(cfg, alg.nGen, o.windows.metrics)
            && !(MetricDue(cfg, o.windows.data) && p.metric(LastN(o.windows.data, cfg.dataWindowSize)).Err?) ==>
      o.result == p.decide(LastN(o.windows.metrics, cfg.metricWindowSize))
    // Only the policy's metric or decision can raise.
    ensures o.result.Err? ==>
      hardContinue &&
      ((MetricDue(cfg, o.windows.data) && p.metric(LastN(o.windows.data, cfg.dataWindowSize)).Err?) ||
       DecisionDue(cfg, alg.nGen, o.windows.metrics))
  {
    if !hardContinue then Outcome(w, Ok(false))
    else
      var data := StoreStep(cfg, p.store(alg), w.data);
      var metricOrError := MetricStep(cfg, p, data, w.metrics);
      if metricOrError.Err? then Outcome(Windows(data, w.metrics), Err(metricOrError.error))
      else
        var metrics := metricOrError.value;
        if DecisionDue(cfg, alg.nGen, metrics) then
          Outcome(Windows(data, metrics), p.decide(LastN(metrics, cfg.metricWindowSize)))
        else Outcome(Windows(data, metrics), Ok(true))
  }

  // ---------------------------------------------------------------------
  // The engine object.

  class RollingWindow<D, M> {
    const cfg: Config
    const policy: Policy<D, M>
    const budgets: Budgets
    /** The wall-time budget; pymoo's own sliding-window termination has none. */
    const wallTime: Option<WT.MaxWallTime>
    var data: seq<D>
    var metrics: seq<M>

    ghost predicate Valid()
      reads this
    {
      cfg.nthGen > 0 && WithinCapacity(cfg, Windows(data, metrics))
    }

    /** The objects a check may change besides the engine: its wall-time budget. */
    function WallFrame(): set<object>
      reads this
    {
      if wallTime.Some? then {wallTime.value} else {}
    }

    constructor (cfg: Config, policy: Policy<D, M>, budgets: Budgets, wallTime: Option<WT.MaxWallTime>)
      requires cfg.nthGen > 0
      ensures Valid()
      ensures this.cfg == cfg && this.budgets == budgets && this.wallTime == wallTime
      ensures this.policy == policy
      ensures data == [] && metrics == []
    {
      this.cfg := cfg;
      this.policy := policy;
      this.budgets := budgets;
      this.wallTime := wallTime;
      data := [];
      metrics := [];
    }

    /**
     * _do_continue.  The budget collection asks maximum generations, then
     * maximum evaluations, then the wall time, and stops at the first
     * "stop": a wall-time budget behind an exhausted counter is not
     * consulted, so it does not capture its start time.
     */
    method DoContinue(alg: Algorithm, clock: real) returns (r: Result<bool>)
      requires Valid()
      modifies this, WallFrame()
      ensures Valid()
      ensures wallTime.Some? && !(GenerationsLeft(budgets, alg) && EvaluationsLeft(budgets, alg)) ==>
        wallTime.value.start == old(wallTime.value.start) && wallTime.value.now == old(wallTime.value.now)
      ensures wallTime.Some? && GenerationsLeft(budgets, alg) && EvaluationsLeft(budgets, alg) ==>
        wallTime.value.start == (if old(wallTime.value.start).None? then Some(alg.startTime) else old(wallTime.value.start)) &&
        wallTime.value.now == Some(clock)
      ensures var hard := GenerationsLeft(budgets, alg) && EvaluationsLeft(budgets, alg) &&
                          (wallTime.Some? ==> clock - wallTime.value.start.value < wallTime.value.maxTime);
              Outcome(Windows(data, metrics), r) == Step(cfg, policy, hard, alg, old(Windows(data, metrics)))
    {
      var hard := GenerationsLeft(budgets, alg) && EvaluationsLeft(budgets, alg);
      if hard && wallTime.Some? {
        hard := wallTime.value.DoContinue(alg.startTime, clock);
      }
      if !hard {
        return Ok(false);
      }

      r := Advance(alg);
    }

    /**
     * The rest of _do_continue once the hard budgets said "continue": store,
     * derive a metric when due, decide when due.
     */
    method Advance(alg: Algorithm) returns (r: Result<bool>)
      requires Valid()
      modifies this
      ensures Valid()
      ensures Outcome(Windows(data, metrics), r) == Step(cfg, policy, true, alg, old(Windows(data, metrics)))
    {
      ghost var w0 := Windows(data, metrics);
      var obj := policy.store(alg);
      if obj.Some? {
        data := Push(data, obj.value, cfg.dataWindowSize, cfg.truncateData);
      }
      assert data == StoreStep(cfg, policy.store(alg), w0.data);

      var err := RecordMetric();
      if err.Some? {
        return Err(err.value);
      }

      if alg.nGen % cfg.nthGen == 0 && |metrics| >= cfg.metricWindowSize {
        r := policy.decide(LastN(metrics, cfg.metricWindowSize));
      } else {
        r := Ok(true);
      }
    }

    /**
     * Once enough data is stored: the metric of the last dataWindowSize
     * snapshots, appended to the metric window unless it is None; an
     * exception from the metric is handed back and leaves the window alone.
     */
    method RecordMetric() returns (err: Option<Error>)
      requires Valid()
      modifies this
      ensures data == old(data) && Valid()
      ensures var step := MetricStep(cfg, policy, data, old(metrics));
        (err.Some? <==> step.Err?) &&
        (step.Err? ==> err.value == step.error && metrics == old(metrics)) &&
        (step.Ok? ==> metrics == step.value)
    {
      err := None;
      if |data| >= cfg.minDataForMetric {
        var metric := policy.metric(LastN(data, cfg.dataWindowSize));
        if metric.Err? {
          return Some(metric.error);
        }
        if metric.value.Some? {
          metrics := Push(metrics, metric.value.value, cfg.metricWindowSize, cfg.truncateMetrics);
        }
      }
    }

    /** get_metric: the most recent metric, or None before any metric is stored. */
    function GetMetric(): (r: Option<M>)
      reads this
      ensures r.None? <==> |metrics| == 0
      ensures r.Some? ==> r.value == metrics[|metrics| - 1] && r.value in metrics
    {
      if |metrics| > 0 then Some(metrics[|metrics| - 1]) else None
    }
  }

  // ---------------------------------------------------------------------
  // Runs of several checks, as the driver makes them: one check per
  // generation while the answer is "continue".

  /** The windows and answers of consecutive checks that all pass the hard budgets. */
  function Run<D, M>(cfg: Config, p: Policy<D, M>, gens: seq<Algorithm>, w: Windows<D, M>)
    : (o: (Windows<D, M>, seq<Result<bool>>))
    requires cfg.nthGen > 0
    ensures |o.1| <= |gens|
    ensures WithinCapacity(cfg, w) ==> WithinCapacity(cfg, o.0)
    // The first answer is the first check's own; the run goes on only while
    // the answer is "continue", and it stops early only on another answer.
    ensures |gens| > 0 ==> |o.1| >= 1 && o.1[0] == Step(cfg, p, true, gens[0], w).result
    ensures forall i :: 0 <= i < |o.1| - 1 ==> o.1[i] == Ok(true)
    ensures |o.1| < |gens| ==> |o.1| >= 1 && o.1[|o.1| - 1] != Ok(true)
    decreases |gens|
  {
    if |gens| == 0 then (w, [])
    else
      var s := Step(cfg, p, true, gens[0], w);
      if s.result != Ok(true) then (s.windows, [s.result])
      else
        var rest := Run(cfg, p, gens[1..], s.windows);
        (rest.0, [s.result] + rest.1)
  }

  /**
   * Warm-up: starting from empty windows, as long as fewer than
   * min_data_for_metric snapshots have been stored, no metric is computed,
   * the policy is never asked, and every check answers "continue".
   */
  lemma {:induction false} WarmUpContinues<D, M>(cfg: Config, p: Policy<D, M>, gens: seq<Algorithm>, data: seq<D>)
    requires cfg.nthGen > 0 && cfg.metricWindowSize >= 1
    requires |data| + |gens| < cfg.minDataForMetric
    ensures var o := Run(cfg, p, gens, Windows(data, []));
            o.0.metrics == [] && |o.1| == |gens| && forall i :: 0 <= i < |o.1| ==> o.1[i] == Ok(true)
    decreases |gens|
  {
    if |gens| > 0 {
      var s := Step(cfg, p, true, gens[0], Windows(data, []));
      assert |s.windows.data| <= |data| + 1;
      assert s.windows.metrics == [] && s.result == Ok(true);
      WarmUpContinues(cfg, p, gens[1..], s.windows.data);
    }
  }

  /** A metric that raises when it is due makes the check raise that error, whatever else holds. */
  lemma MetricErrorRaised<D, M>(cfg: Config, p: Policy<D, M>, alg: Algorithm, w: Windows<D, M>)
    requires cfg.nthGen > 0
    requires var data := StoreStep(cfg, p.store(alg), w.data);
             MetricDue(cfg, data) && p.metric(LastN(data, cfg.dataWindowSize)).Err?
    ensures var data := StoreStep(cfg, p.store(alg), w.data);
            Step(cfg, p, true, alg, w).result == Err(p.metric(LastN(data, cfg.dataWindowSize)).error)
  {
  }

  /**
   * Hard-budget precedence: with n_max_gen = 1, every check from
   * generation 1 on stops, leaves both windows unchanged and does not ask
   * the policy, whatever the policy would say.
   */
  lemma MaxOneGenerationStops<D, M>(cfg: Config, p: Policy<D, M>, b: Budgets, alg: Algorithm, w: Windows<D, M>, wallOk: bool)
    requires cfg.nthGen > 0 && b.nMaxGen == Some(1) && alg.nGen >= 1
    ensures var hard := GenerationsLeft(b, alg) && EvaluationsLeft(b, alg) && wallOk;
            Step(cfg, p, hard, alg, w) == Outcome(w, Ok(false))
  {
  }
}

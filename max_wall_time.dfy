// The wall-time budget (opt/max_wall_time.py, and its copy
// optimization/max_wall_time.py): a two-phase object whose budget is
// normalised once at construction and whose start time is captured lazily
// on the first check.  The clock reading (time.time()) and the driver's
// recorded run-start time are parameters of each check.

module OptMaxWallTime {
  import opened Common

  /** UNIX timestamp upper limit used when no budget is given. */
  const UNLIMITED_SECONDS: real := 2147483647.0

  /** The Python value passed as max_time, by its runtime type. */
  datatype Budget =
    | NoBudget                 // None
    | Text(text: string)       // str, converted by pymoo's time_to_int
    | Integer(i: int)          // int
    | Flag(b: bool)            // bool, which Python's isinstance counts as an int
    | Float(x: real)           // float
    | Unsupported              // any other type

  /**
   * Whether construction raises: an unsupported type raises Exception, and
   * a string pymoo's `time_to_int` cannot parse (None here) raises the
   * parser's ValueError, which the constructor does not catch.
   */
  predicate Rejected(budget: Budget, timeToInt: string -> Option<int>)
  {
    budget.Unsupported? || (budget.Text? && timeToInt(budget.text).None?)
  }

  /**
   * The number of seconds a budget stands for, or the exception the
   * constructor raises.  `timeToInt` is pymoo's string parser, which this
   * model does not look inside; None stands for a string it rejects.
   */
  function NormaliseBudget(budget: Budget, timeToInt: string -> Option<int>): (r: Result<real>)
    ensures r.Err? <==> Rejected(budget, timeToInt)
    ensures r.Err? && budget.Unsupported? ==> r.error.Exception?
    ensures r.Err? && budget.Text? ==> r.error.ValueError?
    ensures budget.NoBudget? ==> r == Ok(UNLIMITED_SECONDS)
    ensures budget.Text? && timeToInt(budget.text).Some? ==> r == Ok(timeToInt(budget.text).value as real)
    ensures budget.Integer? ==> r == Ok(budget.i as real)
    ensures budget.Float? ==> r == Ok(budget.x)
    ensures budget.Flag? ==> r == Ok(if budget.b then 1.0 else 0.0)
  {
    match budget
    case NoBudget => Ok(UNLIMITED_SECONDS)
    case Text(t) =>
      (match timeToInt(t)
       case None => Err(ValueError("invalid literal for int() with base 10"))
       case Some(seconds) => Ok(seconds as real))
    case Integer(i) => Ok(i as real)
    case Flag(b) => Ok(if b then 1.0 else 0.0)
    case Float(x) => Ok(x)
    case Unsupported => Err(Exception("The maximum runtime must be provided in either integer or string form."))
  }

  /** Continuation rule of one check: the elapsed time is strictly below the budget. */
  predicate WithinBudget(start: real, now: real, maxTime: real)
  {
    now - start < maxTime
  }

  class MaxWallTime {
    const maxTime: real
    var start: Option<real>
    var now: Option<real>

    constructor (maxTime: real)
      ensures this.maxTime == maxTime
      ensures start == None && now == None
    {
      this.maxTime := maxTime;
      start := None;
      now := None;
    }

    /**
     * do_continue: the first call takes the start time from the driver and
     * later calls never change it; every call records the clock reading; the
     * answer is "continue" exactly when the elapsed time is strictly below
     * the budget, so an elapsed time equal to the budget stops the search.
     */
    method DoContinue(runStartTime: real, clock: real) returns (cont: bool)
      modifies this
      ensures start == (if old(start).None? then Some(runStartTime) else old(start))
      ensures now == Some(clock)
      ensures cont <==> WithinBudget(start.value, clock, maxTime)
      ensures cont <==> clock - start.value < maxTime
    {
      if start.None? {
        start := Some(runStartTime);
      }
      now := Some(clock);
      cont := now.value - start.value < maxTime;
    }
  }

  /** __init__: normalise the budget, raising for an unsupported type or an unparsable string; start and now begin unset. */
  method New(budget: Budget, timeToInt: string -> Option<int>) returns (r: Result<MaxWallTime>)
    ensures r.Err? <==> Rejected(budget, timeToInt)
    ensures r.Err? ==> r.error == NormaliseBudget(budget, timeToInt).error
    ensures r.Ok? ==> fresh(r.value)
    ensures r.Ok? ==> r.value.maxTime == NormaliseBudget(budget, timeToInt).value
    ensures r.Ok? ==> r.value.start == None && r.value.now == None
  {
    var seconds := NormaliseBudget(budget, timeToInt);
    if seconds.Err? {
      return Err(seconds.error);
    }
    var w := new MaxWallTime(seconds.value);
    r := Ok(w);
  }

  /**
   * Two consecutive checks: the second one measures from the start time
   * the first captured, whatever start time the driver reports then.
   */
  method CheckTwice(w: MaxWallTime, firstStart: real, firstClock: real, laterStart: real, laterClock: real)
    returns (first: bool, second: bool)
    requires w.start == None
    modifies w
    ensures w.start == Some(firstStart)
    ensures first <==> firstClock - firstStart < w.maxTime
    ensures second <==> laterClock - firstStart < w.maxTime
  {
    first := w.DoContinue(firstStart, firstClock);
    second := w.DoContinue(laterStart, laterClock);
  }
}

// optimization/max_wall_time.py is a line-for-line copy of
// opt/max_wall_time.py; its entry points here run the shared definition.
module OptimizationMaxWallTime {
  import opened Common
  import W = OptMaxWallTime

  /** __init__ of the copy: a missing budget becomes 2147483647 s, an unsupported type or unparsable string raises. */
  method New(budget: W.Budget, timeToInt: string -> Option<int>) returns (r: Result<W.MaxWallTime>)
    ensures r.Err? <==> W.Rejected(budget, timeToInt)
    ensures r.Err? && budget.Unsupported? ==> r.error.Exception?
    ensures r.Err? && budget.Text? ==> r.error.ValueError?
    ensures r.Ok? ==> fresh(r.value) && r.value.start == None && r.value.now == None
    ensures r.Ok? && budget.NoBudget? ==> r.value.maxTime == W.UNLIMITED_SECONDS
    ensures r.Ok? && budget.Text? ==> r.value.maxTime == timeToInt(budget.text).value as real
    ensures r.Ok? && budget.Integer? ==> r.value.maxTime == budget.i as real
    ensures r.Ok? && budget.Float? ==> r.value.maxTime == budget.x
    ensures r.Ok? && budget.Flag? ==> r.value.maxTime == if budget.b then 1.0 else 0.0
  {
    r := W.New(budget, timeToInt);
  }

  /** do_continue of the copy: lazy start, per-call clock, strict comparison. */
  method DoContinue(w: W.MaxWallTime, runStartTime: real, clock: real) returns (cont: bool)
    modifies w
    ensures w.start == (if old(w.start).None? then Some(runStartTime) else old(w.start))
    ensures w.now == Some(clock)
    ensures cont <==> clock - w.start.value < w.maxTime
  {
    cont := w.DoContinue(runStartTime, clock);
  }
}

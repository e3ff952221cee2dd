// The variation operators of the search (opt/algorithm.py): bounded
// uniform sampling, simulated binary crossover (SBX) and polynomial
// mutation.  Every random draw is an input array of the shape numpy draws;
// np.power is a parameter whose values the model does not look inside.
// numpy's whole-array mask assignments are modelled as passes over Dafny
// arrays, one method per pass, each proved against a specification
// function of one position.

module OptAlgorithm {
  import opened Common

  /** parameters["SEED"] in prefs/parameters.py. */
  const SEED: int := 4144415054

  /** Parents closer than this are not recombined (1.0e-14). */
  const CLOSENESS: real := 0.00000000000001

  /** The smallest parent distance SBX divides by (1.0e-10). */
  const DELTA_FLOOR: real := 0.0000000001

  // ---------------------------------------------------------------------
  // Bounds.

  /**
   * pymoo's set_to_bounds_if_outside on one value: values below the lower
   * bound are raised to it first, then values above the upper bound are
   * lowered to it.
   */
  function Clamp(v: real, lo: real, hi: real): (r: real)
    ensures lo <= hi ==> lo <= r <= hi
    ensures lo <= v <= hi ==> r == v
    ensures lo <= hi && v < lo ==> r == lo
    ensures v > hi ==> r == hi
  {
    var raised := if v < lo then lo else v;
    if raised > hi then hi else raised
  }

  /** A float that may be infinite, as numpy's divisions by zero produce. */
  datatype Value = Finite(x: real) | PosInf | NegInf

  /** The clamp on a value that may be infinite: +inf ends at the upper bound, -inf at the lower one. */
  function ClampValue(v: Value, lo: real, hi: real): (r: real)
    ensures lo <= hi ==> lo <= r <= hi
    ensures v.Finite? ==> r == Clamp(v.x, lo, hi)
    ensures v.PosInf? ==> r == hi
    ensures lo <= hi && v.NegInf? ==> r == lo
  {
    match v
    case Finite(x) => Clamp(x, lo, hi)
    case PosInf => hi
    case NegInf => if lo > hi then hi else lo
  }

  // ---------------------------------------------------------------------
  // SamplingScheme._do.

  /**
   * numpy's generator: the k-th double in [0, 1) that default_rng(seed)
   * produces.  The bit generator itself is not modelled.
   */
  type Generator = (int, nat) -> real

  /** A draw u stretched over an interval of width w. */
  function Stretch(w: real, u: real): real
  {
    w * u
  }

  /** A draw from [0, 1) stretched over a positive width stays within [0, w). */
  lemma StretchBounds(w: real, u: real)
    requires w > 0.0 && 0.0 <= u < 1.0
    ensures 0.0 <= Stretch(w, u) < w
  {
    assert w * (1.0 - u) > 0.0;
  }

  /**
   * SamplingScheme._do: a fresh generator seeded with SEED draws an
   * n_samples x n_var matrix row by row, entry (j, i) scaled to
   * xl[i] + (xu[i] - xl[i]) * u.  The rounding to `decimals` is commented
   * out in the source and so is absent here.
   */
  function Sample(gen: Generator, nSamples: nat, xl: seq<real>, xu: seq<real>): (s: Matrix)
    requires |xl| == |xu|
    ensures |s| == nSamples && Rectangular(s, |xl|)
  {
    seq(nSamples, j requires 0 <= j < nSamples =>
      seq(|xl|, i requires 0 <= i < |xl| => xl[i] + Stretch(xu[i] - xl[i], gen(SEED, j * |xl| + i))))
  }

  /** Every sample of variable i lies in the half-open interval [xl[i], xu[i]). */
  lemma SampleInBounds(gen: Generator, nSamples: nat, xl: seq<real>, xu: seq<real>)
    requires |xl| == |xu| && forall i :: 0 <= i < |xl| ==> xl[i] < xu[i]
    requires forall k :: 0.0 <= gen(SEED, k) < 1.0
    ensures var s := Sample(gen, nSamples, xl, xu);
      forall j, i :: 0 <= j < nSamples && 0 <= i < |xl| ==> xl[i] <= s[j][i] < xu[i]
  {
    var s := Sample(gen, nSamples, xl, xu);
    forall j, i | 0 <= j < nSamples && 0 <= i < |xl| ensures xl[i] <= s[j][i] < xu[i] {
      StretchBounds(xu[i] - xl[i], gen(SEED, j * |xl| + i));
    }
  }

  /**
   * The generator is re-seeded on every call, so the samples do not depend
   * on earlier calls: a smaller population is exactly the first rows of a
   * larger one.
   */
  lemma SamplePrefix(gen: Generator, n1: nat, n2: nat, xl: seq<real>, xu: seq<real>)
    requires |xl| == |xu| && n1 <= n2
    ensures Sample(gen, n1, xl, xu) == Sample(gen, n2, xl, xu)[..n1]
  {
    var small, large := Sample(gen, n1, xl, xu), Sample(gen, n2, xl, xu);
    forall j | 0 <= j < n1 ensures small[j] == large[j] { }
  }

  // ---------------------------------------------------------------------
  // CrossoverScheme: the specification of one position.

  /** The attributes __init__ stores: eta as a float, n_offsprings (default 2) and prob_per_variable (default 0.5). */
  datatype CrossoverScheme = CrossoverScheme(eta: real, nOffsprings: int := 2, probPerVariable: real := 0.5)

  /** Variable i of mating j is recombined unless its draw exceeds prob_per_variable or its parents are too close. */
  predicate Enabled(s: CrossoverScheme, x0: real, x1: real, uCross: real)
  {
    !(uCross > s.probPerVariable) && !(Abs(x0 - x1) <= CLOSENESS)
  }

  /** delta[delta < 1e-10] = 1e-10. */
  function Floored(d: real): (r: real)
    ensures r >= DELTA_FLOOR
    ensures d >= DELTA_FLOOR ==> r == d
  {
    if d < DELTA_FLOOR then DELTA_FLOOR else d
  }

  /**
   * calc_betaq at one position.  alpha == 0 makes 1 / alpha infinite, so
   * the first branch is taken with rand * alpha == 0; a zero denominator
   * 2 - rand * alpha makes the second branch infinite.
   */
  function BetaQ(power: (real, real) -> real, eta: real, beta: real, rand: real): Value
    requires eta + 1.0 != 0.0
  {
    var alpha := 2.0 - power(beta, -(eta + 1.0));
    var e := 1.0 / (eta + 1.0);
    if alpha == 0.0 || rand <= 1.0 / alpha then Finite(power(rand * alpha, e))
    else if 2.0 - rand * alpha == 0.0 then (if e > 0.0 then PosInf else Finite(0.0))
    else Finite(power(1.0 / (2.0 - rand * alpha), e))
  }

  /** c1 = 0.5 * ((y1 + y2) - betaq * delta), with delta > 0. */
  function ChildBelow(y1: real, y2: real, bq: Value, delta: real): Value
  {
    match bq
    case Finite(b) => Finite(0.5 * ((y1 + y2) - b * delta))
    case PosInf => NegInf
    case NegInf => PosInf
  }

  /** c2 = 0.5 * ((y1 + y2) + betaq * delta), with delta > 0. */
  function ChildAbove(y1: real, y2: real, bq: Value, delta: real): Value
  {
    match bq
    case Finite(b) => Finite(0.5 * ((y1 + y2) + b * delta))
    case PosInf => PosInf
    case NegInf => NegInf
  }

  function MinOf(a: real, b: real): real { if a <= b then a else b }
  function MaxOf(a: real, b: real): real { if a >= b then a else b }

  /**
   * c1 and c2 at one position from the smaller parent value y1, the larger
   * y2 and their floored distance delta: beta measures the room to each
   * bound, and both children use the same draw.
   */
  function RecombinedFrom(s: CrossoverScheme, power: (real, real) -> real, lo: real, hi: real,
                          y1: real, y2: real, delta: real, rand: real): (Value, Value)
    requires s.eta + 1.0 != 0.0 && delta > 0.0
  {
    (ChildBelow(y1, y2, BetaQ(power, s.eta, 1.0 + 2.0 * (y1 - lo) / delta, rand), delta),
     ChildAbove(y1, y2, BetaQ(power, s.eta, 1.0 + 2.0 * (hi - y2) / delta, rand), delta))
  }

  /** The two recombined values at one position, before the swap. */
  function Recombined(s: CrossoverScheme, power: (real, real) -> real, lo: real, hi: real,
                      x0: real, x1: real, rand: real): (Value, Value)
    requires s.eta + 1.0 != 0.0
  {
    var y1, y2 := MinOf(x0, x1), MaxOf(x0, x1);
    RecombinedFrom(s, power, lo, hi, y1, y2, Floored(y2 - y1), rand)
  }

  /** The swap: where the draw is at most 0.5 the two values change places; it is a permutation of the pair. */
  function Swapped<T>(p: (T, T), uSwap: real): (q: (T, T))
    ensures multiset{q.0, q.1} == multiset{p.0, p.1}
    ensures uSwap <= 0.5 ==> q == (p.1, p.0)
    ensures !(uSwap <= 0.5) ==> q == p
  {
    if uSwap <= 0.5 then (p.1, p.0) else p
  }

  /**
   * The two children at one position before the final repair: where
   * recombination is enabled the (possibly swapped) recombined values,
   * elsewhere the parents' own values, child k from parent k.
   */
  function ChildValues(s: CrossoverScheme, power: (real, real) -> real, lo: real, hi: real,
                       x0: real, x1: real, uCross: real, rand: real, uSwap: real): (Value, Value)
    requires s.eta + 1.0 != 0.0
  {
    if Enabled(s, x0, x1, uCross) then Swapped(Recombined(s, power, lo, hi, x0, x1, rand), uSwap)
    else (Finite(x0), Finite(x1))
  }

  /**
   * The two children at one position, clamped into [lo, hi]: both lie
   * within the bounds, and where recombination is disabled child k is
   * parent k (parents within bounds), not the smaller or larger value.
   */
  function Offspring(s: CrossoverScheme, power: (real, real) -> real, lo: real, hi: real,
                     x0: real, x1: real, uCross: real, rand: real, uSwap: real): (r: (real, real))
    requires s.eta + 1.0 != 0.0
    ensures lo <= hi ==> lo <= r.0 <= hi && lo <= r.1 <= hi
    ensures !Enabled(s, x0, x1, uCross) && lo <= x0 <= hi && lo <= x1 <= hi ==> r == (x0, x1)
  {
    var c := ChildValues(s, power, lo, hi, x0, x1, uCross, rand, uSwap);
    (ClampValue(c.0, lo, hi), ClampValue(c.1, lo, hi))
  }

  // What SBX promises at every position.

  /**
   * Where recombination is enabled, the children are the two recombined
   * values in some order: the swap only permutes them.
   */
  lemma OffspringPermutesRecombined(s: CrossoverScheme, power: (real, real) -> real, lo: real, hi: real,
                                    x0: real, x1: real, uCross: real, rand: real, uSwap: real)
    requires s.eta + 1.0 != 0.0 && Enabled(s, x0, x1, uCross)
    ensures var c := Offspring(s, power, lo, hi, x0, x1, uCross, rand, uSwap);
      var r := Recombined(s, power, lo, hi, x0, x1, rand);
      multiset{c.0, c.1} == multiset{ClampValue(r.0, lo, hi), ClampValue(r.1, lo, hi)}
  {
    var r := Recombined(s, power, lo, hi, x0, x1, rand);
    var q := Swapped(r, uSwap);
    assert q == (r.1, r.0) || q == r;
  }

  /**
   * Recombination depends on the parents only through their smaller and
   * larger value: exchanging the parents does not change recombined
   * children, while unrecombined children follow their parents.
   */
  lemma OffspringParentOrder(s: CrossoverScheme, power: (real, real) -> real, lo: real, hi: real,
                             x0: real, x1: real, uCross: real, rand: real, uSwap: real)
    requires s.eta + 1.0 != 0.0
    ensures var c := Offspring(s, power, lo, hi, x0, x1, uCross, rand, uSwap);
      var d := Offspring(s, power, lo, hi, x1, x0, uCross, rand, uSwap);
      (Enabled(s, x0, x1, uCross) ==> c == d) && (!Enabled(s, x0, x1, uCross) ==> c == (d.1, d.0))
  {
    assert Abs(x0 - x1) == Abs(x1 - x0);
    assert Enabled(s, x0, x1, uCross) == Enabled(s, x1, x0, uCross);
    assert Recombined(s, power, lo, hi, x0, x1, rand) == Recombined(s, power, lo, hi, x1, x0, rand) by {
      assert MinOf(x0, x1) == MinOf(x1, x0) && MaxOf(x0, x1) == MaxOf(x1, x0);
    }
  }

  // ---------------------------------------------------------------------
  // CrossoverScheme._do: the passes over the arrays.

  /** do_crossover[draw > prob_per_variable] = False. */
  method DisableByDraw(mask: array2<bool>, uCross: array2<real>, prob: real)
    requires uCross.Length0 == mask.Length0 && uCross.Length1 == mask.Length1
    modifies mask
    ensures forall j, i :: 0 <= j < mask.Length0 && 0 <= i < mask.Length1 ==>
      mask[j, i] == (old(mask[j, i]) && !(uCross[j, i] > prob))
  {
    var j := 0;
    while j < mask.Length0
      invariant 0 <= j <= mask.Length0
      invariant forall a, b :: 0 <= a < j && 0 <= b < mask.Length1 ==> mask[a, b] == (old(mask[a, b]) && !(uCross[a, b] > prob))
      invariant forall a, b :: j <= a < mask.Length0 && 0 <= b < mask.Length1 ==> mask[a, b] == old(mask[a, b])
    {
      var i := 0;
      while i < mask.Length1
        invariant 0 <= i <= mask.Length1
        invariant forall a, b :: 0 <= a < j && 0 <= b < mask.Length1 ==> mask[a, b] == (old(mask[a, b]) && !(uCross[a, b] > prob))
        invariant forall b :: 0 <= b < i ==> mask[j, b] == (old(mask[j, b]) && !(uCross[j, b] > prob))
        invariant forall a, b :: j <= a < mask.Length0 && 0 <= b < mask.Length1 && (a > j || b >= i) ==> mask[a, b] == old(mask[a, b])
      {
        if uCross[j, i] > prob {
          mask[j, i] := false;
        }
        i := i + 1;
      }
      j := j + 1;
    }
  }

  /** do_crossover[|X[0] - X[1]| <= 1e-14] = False. */
  method DisableByCloseness(mask: array2<bool>, X: array3<real>)
    requires X.Length0 == 2 && X.Length1 == mask.Length0 && X.Length2 == mask.Length1
    modifies mask
    ensures forall j, i :: 0 <= j < mask.Length0 && 0 <= i < mask.Length1 ==>
      mask[j, i] == (old(mask[j, i]) && !(Abs(X[0, j, i] - X[1, j, i]) <= CLOSENESS))
  {
    var j := 0;
    while j < mask.Length0
      invariant 0 <= j <= mask.Length0
      invariant forall a, b :: 0 <= a < j && 0 <= b < mask.Length1 ==>
        mask[a, b] == (old(mask[a, b]) && !(Abs(X[0, a, b] - X[1, a, b]) <= CLOSENESS))
      invariant forall a, b :: j <= a < mask.Length0 && 0 <= b < mask.Length1 ==> mask[a, b] == old(mask[a, b])
    {
      var i := 0;
      while i < mask.Length1
        invariant 0 <= i <= mask.Length1
        invariant forall a, b :: 0 <= a < j && 0 <= b < mask.Length1 ==>
          mask[a, b] == (old(mask[a, b]) && !(Abs(X[0, a, b] - X[1, a, b]) <= CLOSENESS))
        invariant forall b :: 0 <= b < i ==> mask[j, b] == (old(mask[j, b]) && !(Abs(X[0, j, b] - X[1, j, b]) <= CLOSENESS))
        invariant forall a, b :: j <= a < mask.Length0 && 0 <= b < mask.Length1 && (a > j || b >= i) ==> mask[a, b] == old(mask[a, b])
      {
        if Abs(X[0, j, i] - X[1, j, i]) <= CLOSENESS {
          mask[j, i] := false;
        }
        i := i + 1;
      }
      j := j + 1;
    }
  }

  /** y1 = np.min(X, axis=0), y2 = np.max(X, axis=0), delta = y2 - y1. */
  method Spread(X: array3<real>) returns (y1: array2<real>, y2: array2<real>, delta: array2<real>)
    requires X.Length0 == 2
    ensures fresh(y1) && fresh(y2) && fresh(delta) && delta != y1 && delta != y2
    ensures y1.Length0 == y2.Length0 == delta.Length0 == X.Length1
    ensures y1.Length1 == y2.Length1 == delta.Length1 == X.Length2
    ensures forall j, i :: 0 <= j < X.Length1 && 0 <= i < X.Length2 ==>
      y1[j, i] == MinOf(X[0, j, i], X[1, j, i]) && y2[j, i] == MaxOf(X[0, j, i], X[1, j, i]) &&
      delta[j, i] == y2[j, i] - y1[j, i]
  {
    y1 := new real[X.Length1, X.Length2];
    y2 := new real[X.Length1, X.Length2];
    delta := new real[X.Length1, X.Length2];
    var j := 0;
    while j < X.Length1
      invariant 0 <= j <= X.Length1
      invariant forall a, b :: 0 <= a < j && 0 <= b < X.Length2 ==>
        y1[a, b] == MinOf(X[0, a, b], X[1, a, b]) && y2[a, b] == MaxOf(X[0, a, b], X[1, a, b]) &&
        delta[a, b] == y2[a, b] - y1[a, b]
    {
      var i := 0;
      while i < X.Length2
        invariant 0 <= i <= X.Length2
        invariant forall a, b :: 0 <= a < j && 0 <= b < X.Length2 ==>
          y1[a, b] == MinOf(X[0, a, b], X[1, a, b]) && y2[a, b] == MaxOf(X[0, a, b], X[1, a, b]) &&
          delta[a, b] == y2[a, b] - y1[a, b]
        invariant forall b :: 0 <= b < i ==>
          y1[j, b] == MinOf(X[0, j, b], X[1, j, b]) && y2[j, b] == MaxOf(X[0, j, b], X[1, j, b]) &&
          delta[j, b] == y2[j, b] - y1[j, b]
      {
        y1[j, i] := MinOf(X[0, j, i], X[1, j, i]);
        y2[j, i] := MaxOf(X[0, j, i], X[1, j, i]);
        delta[j, i] := y2[j, i] - y1[j, i];
        i := i + 1;
      }
      j := j + 1;
    }
  }

  /** delta[delta < 1e-10] = 1e-10, in place. */
  method FloorDeltas(delta: array2<real>)
    modifies delta
    ensures forall j, i :: 0 <= j < delta.Length0 && 0 <= i < delta.Length1 ==> delta[j, i] == Floored(old(delta[j, i]))
  {
    var j := 0;
    while j < delta.Length0
      invariant 0 <= j <= delta.Length0
      invariant forall a, b :: 0 <= a < j && 0 <= b < delta.Length1 ==> delta[a, b] == Floored(old(delta[a, b]))
      invariant forall a, b :: j <= a < delta.Length0 && 0 <= b < delta.Length1 ==> delta[a, b] == old(delta[a, b])
    {
      var i := 0;
      while i < delta.Length1
        invariant 0 <= i <= delta.Length1
        invariant forall a, b :: 0 <= a < j && 0 <= b < delta.Length1 ==> delta[a, b] == Floored(old(delta[a, b]))
        invariant forall b :: 0 <= b < i ==> delta[j, b] == Floored(old(delta[j, b]))
        invariant forall a, b :: j <= a < delta.Length0 && 0 <= b < delta.Length1 && (a > j || b >= i) ==> delta[a, b] == old(delta[a, b])
      {
        if delta[j, i] < DELTA_FLOOR {
          delta[j, i] := DELTA_FLOOR;
        }
        i := i + 1;
      }
      j := j + 1;
    }
  }

  /** beta and betaq from each bound, then c1 and c2, at every position. */
  method Recombine(s: CrossoverScheme, power: (real, real) -> real, y1: array2<real>, y2: array2<real>,
                   delta: array2<real>, xl: array<real>, xu: array<real>, rand: array2<real>)
    returns (c1: array2<Value>, c2: array2<Value>)
    requires s.eta + 1.0 != 0.0
    requires y2.Length0 == delta.Length0 == rand.Length0 == y1.Length0
    requires y2.Length1 == delta.Length1 == rand.Length1 == xl.Length == xu.Length == y1.Length1
    requires forall j, i :: 0 <= j < delta.Length0 && 0 <= i < delta.Length1 ==> delta[j, i] > 0.0
    ensures fresh(c1) && fresh(c2) && c1 != c2
    ensures c1.Length0 == c2.Length0 == y1.Length0 && c1.Length1 == c2.Length1 == y1.Length1
    ensures forall j, i :: 0 <= j < y1.Length0 && 0 <= i < y1.Length1 ==>
      (c1[j, i], c2[j, i]) == RecombinedFrom(s, power, xl[i], xu[i], y1[j, i], y2[j, i], delta[j, i], rand[j, i])
  {
    c1 := new Value[y1.Length0, y1.Length1];
    c2 := new Value[y1.Length0, y1.Length1];
    forall j, i | 0 <= j < y1.Length0 && 0 <= i < y1.Length1 {
      c1[j, i] := RecombinedFrom(s, power, xl[i], xu[i], y1[j, i], y2[j, i], delta[j, i], rand[j, i]).0;
    }
    forall j, i | 0 <= j < y1.Length0 && 0 <= i < y1.Length1 {
      c2[j, i] := RecombinedFrom(s, power, xl[i], xu[i], y1[j, i], y2[j, i], delta[j, i], rand[j, i]).1;
    }
  }

  /** val = copy(c1[b]); c1[b] = c2[b]; c2[b] = val, where b is draw <= 0.5. */
  method SwapWhere(c1: array2<Value>, c2: array2<Value>, uSwap: array2<real>)
    requires c1 != c2
    requires c2.Length0 == uSwap.Length0 == c1.Length0 && c2.Length1 == uSwap.Length1 == c1.Length1
    modifies c1, c2
    ensures forall j, i :: 0 <= j < c1.Length0 && 0 <= i < c1.Length1 ==>
      c1[j, i] == (if uSwap[j, i] <= 0.5 then old(c2[j, i]) else old(c1[j, i])) &&
      c2[j, i] == (if uSwap[j, i] <= 0.5 then old(c1[j, i]) else old(c2[j, i]))
  {
    var j := 0;
    while j < c1.Length0
      invariant 0 <= j <= c1.Length0
      invariant forall a, b :: 0 <= a < j && 0 <= b < c1.Length1 ==>
        c1[a, b] == (if uSwap[a, b] <= 0.5 then old(c2[a, b]) else old(c1[a, b])) &&
          c2[a, b] == (if uSwap[a, b] <= 0.5 then old(c1[a, b]) else old(c2[a, b]))
      invariant forall a, b :: j <= a < c1.Length0 && 0 <= b < c1.Length1 ==>
        c1[a, b] == old(c1[a, b]) && c2[a, b] == old(c2[a, b])
    {
      var i := 0;
      while i < c1.Length1
        invariant 0 <= i <= c1.Length1
        invariant forall a, b :: 0 <= a < j && 0 <= b < c1.Length1 ==>
          c1[a, b] == (if uSwap[a, b] <= 0.5 then old(c2[a, b]) else old(c1[a, b])) &&
          c2[a, b] == (if uSwap[a, b] <= 0.5 then old(c1[a, b]) else old(c2[a, b]))
        invariant forall b :: 0 <= b < i ==>
          c1[j, b] == (if uSwap[j, b] <= 0.5 then old(c2[j, b]) else old(c1[j, b])) &&
          c2[j, b] == (if uSwap[j, b] <= 0.5 then old(c1[j, b]) else old(c2[j, b]))
        invariant forall a, b :: j <= a < c1.Length0 && 0 <= b < c1.Length1 && (a > j || b >= i) ==>
          c1[a, b] == old(c1[a, b]) && c2[a, b] == old(c2[a, b])
      {
        if uSwap[j, i] <= 0.5 {
          var val := c1[j, i];
          c1[j, i] := c2[j, i];
          c2[j, i] := val;
        }
        i := i + 1;
      }
      j := j + 1;
    }
  }

  /** Child k of c = np.copy(X), as values that may later become infinite. */
  method CopyParent(X: array3<real>, k: nat) returns (child: array2<Value>)
    requires k < X.Length0
    ensures fresh(child) && child.Length0 == X.Length1 && child.Length1 == X.Length2
    ensures forall j, i :: 0 <= j < X.Length1 && 0 <= i < X.Length2 ==> child[j, i] == Finite(X[k, j, i])
  {
    child := new Value[X.Length1, X.Length2];
    var j := 0;
    while j < X.Length1
      invariant 0 <= j <= X.Length1
      invariant forall a, b :: 0 <= a < j && 0 <= b < X.Length2 ==> child[a, b] == Finite(X[k, a, b])
    {
      var i := 0;
      while i < X.Length2
        invariant 0 <= i <= X.Length2
        invariant forall a, b :: 0 <= a < j && 0 <= b < X.Length2 ==> child[a, b] == Finite(X[k, a, b])
        invariant forall b :: 0 <= b < i ==> child[j, b] == Finite(X[k, j, b])
      {
        child[j, i] := Finite(X[k, j, i]);
        i := i + 1;
      }
      j := j + 1;
    }
  }

  /** c[k, do_crossover] = ck[do_crossover]. */
  method TakeWhere<T>(child: array2<T>, source: array2<T>, mask: array2<bool>)
    requires child != source && child as object != mask as object
    requires source.Length0 == mask.Length0 == child.Length0 && source.Length1 == mask.Length1 == child.Length1
    modifies child
    ensures forall j, i :: 0 <= j < child.Length0 && 0 <= i < child.Length1 ==>
      child[j, i] == if mask[j, i] then source[j, i] else old(child[j, i])
  {
    var j := 0;
    while j < child.Length0
      invariant 0 <= j <= child.Length0
      invariant forall a, b :: 0 <= a < j && 0 <= b < child.Length1 ==>
        child[a, b] == if mask[a, b] then source[a, b] else old(child[a, b])
      invariant forall a, b :: j <= a < child.Length0 && 0 <= b < child.Length1 ==> child[a, b] == old(child[a, b])
    {
      var i := 0;
      while i < child.Length1
        invariant 0 <= i <= child.Length1
        invariant forall a, b :: 0 <= a < j && 0 <= b < child.Length1 ==>
          child[a, b] == if mask[a, b] then source[a, b] else old(child[a, b])
        invariant forall b :: 0 <= b < i ==> child[j, b] == if mask[j, b] then source[j, b] else old(child[j, b])
        invariant forall a, b :: j <= a < child.Length0 && 0 <= b < child.Length1 && (a > j || b >= i) ==>
          child[a, b] == old(child[a, b])
      {
        if mask[j, i] {
          child[j, i] := source[j, i];
        }
        i := i + 1;
      }
      j := j + 1;
    }
  }

  /** c[k] = set_to_bounds_if_outside_by_problem(problem, c[k]). */
  method ClampChild(c: array3<real>, k: nat, child: array2<Value>, xl: array<real>, xu: array<real>)
    requires k < c.Length0 && c.Length1 == child.Length0 && c.Length2 == child.Length1 == xl.Length == xu.Length
    modifies c
    ensures forall kk, j, i :: 0 <= kk < c.Length0 && kk != k && 0 <= j < c.Length1 && 0 <= i < c.Length2 ==>
      c[kk, j, i] == old(c[kk, j, i])
    ensures forall j, i :: 0 <= j < c.Length1 && 0 <= i < c.Length2 ==> c[k, j, i] == ClampValue(child[j, i], xl[i], xu[i])
  {
    var j := 0;
    while j < c.Length1
      invariant 0 <= j <= c.Length1
      invariant forall kk, a, b :: 0 <= kk < c.Length0 && kk != k && 0 <= a < c.Length1 && 0 <= b < c.Length2 ==>
        c[kk, a, b] == old(c[kk, a, b])
      invariant forall a, b :: 0 <= a < j && 0 <= b < c.Length2 ==> c[k, a, b] == ClampValue(child[a, b], xl[b], xu[b])
    {
      var i := 0;
      while i < c.Length2
        invariant 0 <= i <= c.Length2
        invariant forall kk, a, b :: 0 <= kk < c.Length0 && kk != k && 0 <= a < c.Length1 && 0 <= b < c.Length2 ==>
          c[kk, a, b] == old(c[kk, a, b])
        invariant forall a, b :: 0 <= a < j && 0 <= b < c.Length2 ==> c[k, a, b] == ClampValue(child[a, b], xl[b], xu[b])
        invariant forall b :: 0 <= b < i ==> c[k, j, b] == ClampValue(child[j, b], xl[b], xu[b])
      {
        c[k, j, i] := ClampValue(child[j, i], xl[i], xu[i]);
        i := i + 1;
      }
      j := j + 1;
    }
  }

  /**
   * n_offsprings == 1: c[choice(2, n_matings), arange(n_matings)] reshaped
   * to (1, n_matings, n_var): one whole child per mating.
   */
  method SelectOffspring(c: array3<real>, pickSecond: array<bool>) returns (one: array3<real>)
    requires c.Length0 == 2 && pickSecond.Length == c.Length1
    ensures fresh(one) && one.Length0 == 1 && one.Length1 == c.Length1 && one.Length2 == c.Length2
    ensures forall j, i :: 0 <= j < c.Length1 && 0 <= i < c.Length2 ==>
      one[0, j, i] == c[if pickSecond[j] then 1 else 0, j, i]
  {
    one := new real[1, c.Length1, c.Length2];
    var j := 0;
    while j < c.Length1
      invariant 0 <= j <= c.Length1
      invariant forall a, b :: 0 <= a < j && 0 <= b < c.Length2 ==> one[0, a, b] == c[if pickSecond[a] then 1 else 0, a, b]
    {
      var k := if pickSecond[j] then 1 else 0;
      var i := 0;
      while i < c.Length2
        invariant 0 <= i <= c.Length2
        invariant forall a, b :: 0 <= a < j && 0 <= b < c.Length2 ==> one[0, a, b] == c[if pickSecond[a] then 1 else 0, a, b]
        invariant forall b :: 0 <= b < i ==> one[0, j, b] == c[k, j, b]
      {
        one[0, j, i] := c[k, j, i];
        i := i + 1;
      }
      j := j + 1;
    }
  }

  /** do_crossover: all True, then switched off by the draw and by closeness. */
  method RecombinationMask(s: CrossoverScheme, X: array3<real>, uCross: array2<real>) returns (mask: array2<bool>)
    requires X.Length0 == 2 && uCross.Length0 == X.Length1 && uCross.Length1 == X.Length2
    ensures fresh(mask) && mask.Length0 == X.Length1 && mask.Length1 == X.Length2
    ensures forall j, i :: 0 <= j < X.Length1 && 0 <= i < X.Length2 ==>
      mask[j, i] == Enabled(s, X[0, j, i], X[1, j, i], uCross[j, i])
  {
    mask := new bool[X.Length1, X.Length2]((j, i) => true);
    DisableByDraw(mask, uCross, s.probPerVariable);
    DisableByCloseness(mask, X);
  }

  /** y1, y2 and the floored delta. */
  method FlooredSpread(X: array3<real>) returns (y1: array2<real>, y2: array2<real>, delta: array2<real>)
    requires X.Length0 == 2
    ensures fresh(y1) && fresh(y2) && fresh(delta)
    ensures y1.Length0 == y2.Length0 == delta.Length0 == X.Length1
    ensures y1.Length1 == y2.Length1 == delta.Length1 == X.Length2
    ensures forall j, i :: 0 <= j < X.Length1 && 0 <= i < X.Length2 ==>
      y1[j, i] == MinOf(X[0, j, i], X[1, j, i]) && y2[j, i] == MaxOf(X[0, j, i], X[1, j, i]) &&
      delta[j, i] == Floored(y2[j, i] - y1[j, i])
  {
    y1, y2, delta := Spread(X);
    FloorDeltas(delta);
  }

  /** c1 and c2 after the swap, at every position. */
  method SwappedChildren(s: CrossoverScheme, power: (real, real) -> real, X: array3<real>, xl: array<real>, xu: array<real>,
                         rand: array2<real>, uSwap: array2<real>)
    returns (c1: array2<Value>, c2: array2<Value>)
    requires s.eta + 1.0 != 0.0 && X.Length0 == 2 && xl.Length == xu.Length == X.Length2
    requires rand.Length0 == uSwap.Length0 == X.Length1 && rand.Length1 == uSwap.Length1 == X.Length2
    ensures fresh(c1) && fresh(c2)
    ensures c1.Length0 == c2.Length0 == X.Length1 && c1.Length1 == c2.Length1 == X.Length2
    ensures forall j, i :: 0 <= j < X.Length1 && 0 <= i < X.Length2 ==>
      (c1[j, i], c2[j, i]) == Swapped(Recombined(s, power, xl[i], xu[i], X[0, j, i], X[1, j, i], rand[j, i]), uSwap[j, i])
  {
    var y1, y2, delta := FlooredSpread(X);
    c1, c2 := Recombine(s, power, y1, y2, delta, xl, xu, rand);
    SwapWhere(c1, c2, uSwap);
  }

  /** Child k: parent k, overwritten by ck where the mask holds. */
  method MaskedChild(X: array3<real>, k: nat, ck: array2<Value>, mask: array2<bool>) returns (child: array2<Value>)
    requires k < X.Length0
    requires ck.Length0 == mask.Length0 == X.Length1 && ck.Length1 == mask.Length1 == X.Length2
    ensures fresh(child) && child.Length0 == X.Length1 && child.Length1 == X.Length2
    ensures forall j, i :: 0 <= j < X.Length1 && 0 <= i < X.Length2 ==>
      child[j, i] == if mask[j, i] then ck[j, i] else Finite(X[k, j, i])
  {
    child := CopyParent(X, k);
    TakeWhere(child, ck, mask);
  }

  /**
   * The passes of CrossoverScheme._do up to the final repair: c = copy(X),
   * then c[k, do_crossover] = ck[do_crossover].
   */
  method CrossoverValues(s: CrossoverScheme, power: (real, real) -> real, X: array3<real>, xl: array<real>, xu: array<real>,
                         uCross: array2<real>, rand: array2<real>, uSwap: array2<real>)
    returns (child0: array2<Value>, child1: array2<Value>)
    requires s.eta + 1.0 != 0.0 && X.Length0 == 2 && xl.Length == xu.Length == X.Length2
    requires uCross.Length0 == rand.Length0 == uSwap.Length0 == X.Length1
    requires uCross.Length1 == rand.Length1 == uSwap.Length1 == X.Length2
    ensures fresh(child0) && fresh(child1)
    ensures child0.Length0 == child1.Length0 == X.Length1 && child0.Length1 == child1.Length1 == X.Length2
    ensures forall j, i :: 0 <= j < X.Length1 && 0 <= i < X.Length2 ==>
      (child0[j, i], child1[j, i]) == ChildValues(s, power, xl[i], xu[i], X[0, j, i], X[1, j, i], uCross[j, i], rand[j, i], uSwap[j, i])
  {
    var mask := RecombinationMask(s, X, uCross);
    var c1, c2 := SwappedChildren(s, power, X, xl, xu, rand, uSwap);
    child0 := MaskedChild(X, 0, c1, mask);
    child1 := MaskedChild(X, 1, c2, mask);
    ChildrenFromPasses(s, power, X, xl, xu, uCross, rand, uSwap, mask, c1, c2, child0, child1);
  }

  /** The mask, the swapped recombined values and the masked copy together give ChildValues at every position. */
  lemma ChildrenFromPasses(s: CrossoverScheme, power: (real, real) -> real, X: array3<real>, xl: array<real>, xu: array<real>,
                           uCross: array2<real>, rand: array2<real>, uSwap: array2<real>, mask: array2<bool>,
                           c1: array2<Value>, c2: array2<Value>, child0: array2<Value>, child1: array2<Value>)
    requires s.eta + 1.0 != 0.0 && X.Length0 == 2 && xl.Length == xu.Length == X.Length2
    requires uCross.Length0 == rand.Length0 == uSwap.Length0 == X.Length1
    requires uCross.Length1 == rand.Length1 == uSwap.Length1 == X.Length2
    requires mask.Length0 == c1.Length0 == c2.Length0 == child0.Length0 == child1.Length0 == X.Length1
    requires mask.Length1 == c1.Length1 == c2.Length1 == child0.Length1 == child1.Length1 == X.Length2
    requires forall j, i :: 0 <= j < X.Length1 && 0 <= i < X.Length2 ==>
      mask[j, i] == Enabled(s, X[0, j, i], X[1, j, i], uCross[j, i])
    requires forall j, i :: 0 <= j < X.Length1 && 0 <= i < X.Length2 ==>
      (c1[j, i], c2[j, i]) == Swapped(Recombined(s, power, xl[i], xu[i], X[0, j, i], X[1, j, i], rand[j, i]), uSwap[j, i])
    requires forall j, i :: 0 <= j < X.Length1 && 0 <= i < X.Length2 ==>
      child0[j, i] == (if mask[j, i] then c1[j, i] else Finite(X[0, j, i])) &&
      child1[j, i] == (if mask[j, i] then c2[j, i] else Finite(X[1, j, i]))
    ensures forall j, i :: 0 <= j < X.Length1 && 0 <= i < X.Length2 ==>
      (child0[j, i], child1[j, i]) == ChildValues(s, power, xl[i], xu[i], X[0, j, i], X[1, j, i], uCross[j, i], rand[j, i], uSwap[j, i])
  {
    forall j, i | 0 <= j < X.Length1 && 0 <= i < X.Length2
      ensures (child0[j, i], child1[j, i]) ==
        ChildValues(s, power, xl[i], xu[i], X[0, j, i], X[1, j, i], uCross[j, i], rand[j, i], uSwap[j, i])
    {
      assert mask[j, i] == Enabled(s, X[0, j, i], X[1, j, i], uCross[j, i]);
    }
  }

  /** The children Offspring prescribes at mating j, variable i. */
  function OffspringAt(s: CrossoverScheme, power: (real, real) -> real, X: array3<real>, xl: array<real>, xu: array<real>,
                       uCross: array2<real>, rand: array2<real>, uSwap: array2<real>, j: nat, i: nat): (real, real)
    reads X, xl, xu, uCross, rand, uSwap
    requires s.eta + 1.0 != 0.0 && X.Length0 == 2 && j < X.Length1 && i < X.Length2
    requires xl.Length == xu.Length == X.Length2
    requires uCross.Length0 == rand.Length0 == uSwap.Length0 == X.Length1
    requires uCross.Length1 == rand.Length1 == uSwap.Length1 == X.Length2
  {
    Offspring(s, power, xl[i], xu[i], X[0, j, i], X[1, j, i], uCross[j, i], rand[j, i], uSwap[j, i])
  }

  /**
   * CrossoverScheme._do on parents X of shape (2, n_matings, n_var), with
   * the three draw arrays of shape (n_matings, n_var) and the child choice
   * used when one offspring is asked for.  1 / (eta + 1) is a Python float
   * division and raises for eta == -1; the passes before it change nothing
   * visible, so the model raises first.
   */
  method CrossoverDo(s: CrossoverScheme, power: (real, real) -> real, X: array3<real>, xl: array<real>, xu: array<real>,
                     uCross: array2<real>, rand: array2<real>, uSwap: array2<real>, pickSecond: array<bool>)
    returns (r: Result<array3<real>>)
    requires X.Length0 == 2 && xl.Length == xu.Length == X.Length2 && pickSecond.Length == X.Length1
    requires uCross.Length0 == rand.Length0 == uSwap.Length0 == X.Length1
    requires uCross.Length1 == rand.Length1 == uSwap.Length1 == X.Length2
    ensures r.Err? <==> s.eta + 1.0 == 0.0
    ensures r.Err? ==> r.error == ZeroDivisionError
    ensures r.Ok? ==> (fresh(r.value) && r.value.Length0 == (if s.nOffsprings == 1 then 1 else 2) &&
      r.value.Length1 == X.Length1 && r.value.Length2 == X.Length2)
    ensures r.Ok? && s.nOffsprings != 1 ==> forall j, i :: 0 <= j < X.Length1 && 0 <= i < X.Length2 ==>
      r.value[0, j, i] == OffspringAt(s, power, X, xl, xu, uCross, rand, uSwap, j, i).0 &&
      r.value[1, j, i] == OffspringAt(s, power, X, xl, xu, uCross, rand, uSwap, j, i).1
    ensures r.Ok? && s.nOffsprings == 1 ==> forall j, i :: 0 <= j < X.Length1 && 0 <= i < X.Length2 ==>
      r.value[0, j, i] == if pickSecond[j] then OffspringAt(s, power, X, xl, xu, uCross, rand, uSwap, j, i).1
                          else OffspringAt(s, power, X, xl, xu, uCross, rand, uSwap, j, i).0
  {
    if s.eta + 1.0 == 0.0 {
      return Err(ZeroDivisionError);
    }
    var child0, child1 := CrossoverValues(s, power, X, xl, xu, uCross, rand, uSwap);
    var c := new real[2, X.Length1, X.Length2];
    ClampChild(c, 0, child0, xl, xu);
    ClampChild(c, 1, child1, xl, xu);
    assert forall j, i :: 0 <= j < X.Length1 && 0 <= i < X.Length2 ==>
      c[0, j, i] == OffspringAt(s, power, X, xl, xu, uCross, rand, uSwap, j, i).0 &&
      c[1, j, i] == OffspringAt(s, power, X, xl, xu, uCross, rand, uSwap, j, i).1;
    if s.nOffsprings == 1 {
      var one := SelectOffspring(c, pickSecond);
      return Ok(one);
    }
    return Ok(c);
  }

  // ---------------------------------------------------------------------
  // MutationScheme: the specification of one entry.

  /**
   * The mutated value _Y of one selected entry, already clamped into
   * [lo, hi]: delta1 and delta2 are the entry's relative distances to
   * its bounds, and the draw picks the side of the polynomial
   * distribution.
   */
  function PolynomialStep(power: (real, real) -> real, eta: real, x: real, lo: real, hi: real, u: real): real
    requires lo < hi && eta + 1.0 != 0.0
  {
    var delta1 := (x - lo) / (hi - lo);
    var delta2 := (hi - x) / (hi - lo);
    var mutPow := 1.0 / (eta + 1.0);
    var deltaq :=
      if u <= 0.5 then power(2.0 * u + (1.0 - 2.0 * u) * power(1.0 - delta1, eta + 1.0), mutPow) - 1.0
      else 1.0 - power(2.0 * (1.0 - u) + 2.0 * (u - 0.5) * power(1.0 - delta2, eta + 1.0), mutPow);
    Clamp(x + deltaq * (hi - lo), lo, hi)
  }

  /**
   * Entry of Y: mutated where the draw is strictly below prob, copied
   * elsewhere, then repaired.  It always lies within the bounds, and an
   * unselected entry within bounds is left as it was.
   */
  function MutantEntry(power: (real, real) -> real, eta: real, prob: real, x: real, lo: real, hi: real,
                       uMut: real, u: real): (r: real)
    requires lo < hi && eta + 1.0 != 0.0
    ensures lo <= r <= hi
    ensures uMut >= prob && lo <= x <= hi ==> r == x
  {
    Clamp(if uMut < prob then PolynomialStep(power, eta, x, lo, hi, u) else x, lo, hi)
  }

  // ---------------------------------------------------------------------
  // MutationScheme: the object and its passes.

  /** do_mutation = draw < prob. */
  method MutationMask(uMut: array2<real>, prob: real) returns (mask: array2<bool>)
    ensures fresh(mask) && mask.Length0 == uMut.Length0 && mask.Length1 == uMut.Length1
    ensures forall j, i :: 0 <= j < uMut.Length0 && 0 <= i < uMut.Length1 ==> mask[j, i] == (uMut[j, i] < prob)
  {
    mask := new bool[uMut.Length0, uMut.Length1];
    var j := 0;
    while j < uMut.Length0
      invariant 0 <= j <= uMut.Length0
      invariant forall a, b :: 0 <= a < j && 0 <= b < uMut.Length1 ==> mask[a, b] == (uMut[a, b] < prob)
    {
      var i := 0;
      while i < uMut.Length1
        invariant 0 <= i <= uMut.Length1
        invariant forall a, b :: 0 <= a < j && 0 <= b < uMut.Length1 ==> mask[a, b] == (uMut[a, b] < prob)
        invariant forall b :: 0 <= b < i ==> mask[j, b] == (uMut[j, b] < prob)
      {
        mask[j, i] := uMut[j, i] < prob;
        i := i + 1;
      }
      j := j + 1;
    }
  }

  /** Y[:, :] = X. */
  method CopyMatrix(X: array2<real>) returns (Y: array2<real>)
    ensures fresh(Y) && Y.Length0 == X.Length0 && Y.Length1 == X.Length1
    ensures forall j, i :: 0 <= j < X.Length0 && 0 <= i < X.Length1 ==> Y[j, i] == X[j, i]
  {
    Y := new real[X.Length0, X.Length1];
    var j := 0;
    while j < X.Length0
      invariant 0 <= j <= X.Length0
      invariant forall a, b :: 0 <= a < j && 0 <= b < X.Length1 ==> Y[a, b] == X[a, b]
    {
      var i := 0;
      while i < X.Length1
        invariant 0 <= i <= X.Length1
        invariant forall a, b :: 0 <= a < j && 0 <= b < X.Length1 ==> Y[a, b] == X[a, b]
        invariant forall b :: 0 <= b < i ==> Y[j, b] == X[j, b]
      {
        Y[j, i] := X[j, i];
        i := i + 1;
      }
      j := j + 1;
    }
  }

  /** _Y: the clamped polynomial step of every entry, computed into a fresh array. */
  method PolynomialSteps(X: array2<real>, power: (real, real) -> real, eta: real,
                         xl: array<real>, xu: array<real>, rand: array2<real>) returns (steps: array2<real>)
    requires eta + 1.0 != 0.0
    requires rand.Length0 == X.Length0 && rand.Length1 == xl.Length == xu.Length == X.Length1
    requires forall i :: 0 <= i < xl.Length ==> xl[i] < xu[i]
    ensures fresh(steps) && steps.Length0 == X.Length0 && steps.Length1 == X.Length1
    ensures forall j, i :: 0 <= j < X.Length0 && 0 <= i < X.Length1 ==>
      steps[j, i] == PolynomialStep(power, eta, X[j, i], xl[i], xu[i], rand[j, i])
  {
    steps := new real[X.Length0, X.Length1];
    forall j, i | 0 <= j < X.Length0 && 0 <= i < X.Length1 {
      steps[j, i] := PolynomialStep(power, eta, X[j, i], xl[i], xu[i], rand[j, i]);
    }
  }

  /** Y = set_to_bounds_if_outside_by_problem(problem, Y), in place. */
  method RepairAll(Y: array2<real>, xl: array<real>, xu: array<real>)
    requires xl.Length == xu.Length == Y.Length1
    modifies Y
    ensures forall j, i :: 0 <= j < Y.Length0 && 0 <= i < Y.Length1 ==> Y[j, i] == Clamp(old(Y[j, i]), xl[i], xu[i])
  {
    var j := 0;
    while j < Y.Length0
      invariant 0 <= j <= Y.Length0
      invariant forall a, b :: 0 <= a < j && 0 <= b < Y.Length1 ==> Y[a, b] == Clamp(old(Y[a, b]), xl[b], xu[b])
      invariant forall a, b :: j <= a < Y.Length0 && 0 <= b < Y.Length1 ==> Y[a, b] == old(Y[a, b])
    {
      var i := 0;
      while i < Y.Length1
        invariant 0 <= i <= Y.Length1
        invariant forall a, b :: 0 <= a < j && 0 <= b < Y.Length1 ==> Y[a, b] == Clamp(old(Y[a, b]), xl[b], xu[b])
        invariant forall b :: 0 <= b < i ==> Y[j, b] == Clamp(old(Y[j, b]), xl[b], xu[b])
        invariant forall a, b :: j <= a < Y.Length0 && 0 <= b < Y.Length1 && (a > j || b >= i) ==> Y[a, b] == old(Y[a, b])
      {
        Y[j, i] := Clamp(Y[j, i], xl[i], xu[i]);
        i := i + 1;
      }
      j := j + 1;
    }
  }

  class MutationScheme {
    const eta: real
    /** The per-entry mutation probability; None until the first call fills in 1 / n_var. */
    var prob: Option<real>

    /** __init__: eta as a float, prob as given (None by default). */
    constructor (eta: real, prob: Option<real> := None)
      ensures this.eta == eta && this.prob == prob
    {
      this.eta := eta;
      this.prob := prob;
    }

    /**
     * _do on a population X of shape (n, n_var), with the selection draws
     * and the polynomial draws as arrays of X's shape.  A missing prob is
     * set to 1 / n_var on the first call and kept for later calls; with no
     * variables that division raises, as does 1 / (eta + 1) for eta == -1.
     */
    method Do(power: (real, real) -> real, X: array2<real>, xl: array<real>, xu: array<real>,
              uMut: array2<real>, rand: array2<real>) returns (r: Result<array2<real>>)
      requires xl.Length == xu.Length == X.Length1
      requires uMut.Length0 == rand.Length0 == X.Length0 && uMut.Length1 == rand.Length1 == X.Length1
      requires forall i :: 0 <= i < xl.Length ==> xl[i] < xu[i]
      modifies this
      ensures old(prob).None? && X.Length1 > 0 ==> prob == Some(1.0 / X.Length1 as real)
      ensures old(prob).Some? || X.Length1 == 0 ==> prob == old(prob)
      ensures r.Err? <==> (old(prob).None? && X.Length1 == 0) || eta + 1.0 == 0.0
      ensures r.Err? ==> r.error == ZeroDivisionError
      ensures r.Ok? ==> fresh(r.value) && r.value.Length0 == X.Length0 && r.value.Length1 == X.Length1
      ensures r.Ok? ==> forall j, i :: 0 <= j < X.Length0 && 0 <= i < X.Length1 ==>
        r.value[j, i] == MutantEntry(power, eta, prob.value, X[j, i], xl[i], xu[i], uMut[j, i], rand[j, i])
    {
      if prob.None? {
        if X.Length1 == 0 {
          return Err(ZeroDivisionError);
        }
        prob := Some(1.0 / X.Length1 as real);
      }
      var mask := MutationMask(uMut, prob.value);
      var Y := CopyMatrix(X);
      if eta + 1.0 == 0.0 {
        return Err(ZeroDivisionError);
      }
      var steps := PolynomialSteps(X, power, eta, xl, xu, rand);
      TakeWhere(Y, steps, mask);
      RepairAll(Y, xl, xu);
      r := Ok(Y);
    }
  }

  /**
   * The fallback probability is fixed by the first call: a second call on
   * a population with a different number of variables still uses 1 / n_var
   * of the first.
   */
  method MutateTwice(scheme: MutationScheme, power: (real, real) -> real,
                     X1: array2<real>, xl1: array<real>, xu1: array<real>, uMut1: array2<real>, rand1: array2<real>,
                     X2: array2<real>, xl2: array<real>, xu2: array<real>, uMut2: array2<real>, rand2: array2<real>)
    returns (first: Result<array2<real>>, second: Result<array2<real>>)
    requires scheme.prob.None? && X1.Length1 > 0
    requires xl1.Length == xu1.Length == X1.Length1
    requires uMut1.Length0 == rand1.Length0 == X1.Length0 && uMut1.Length1 == rand1.Length1 == X1.Length1
    requires forall i :: 0 <= i < xl1.Length ==> xl1[i] < xu1[i]
    requires xl2.Length == xu2.Length == X2.Length1
    requires uMut2.Length0 == rand2.Length0 == X2.Length0 && uMut2.Length1 == rand2.Length1 == X2.Length1
    requires forall i :: 0 <= i < xl2.Length ==> xl2[i] < xu2[i]
    modifies scheme
    ensures scheme.prob == Some(1.0 / X1.Length1 as real)
  {
    first := scheme.Do(power, X1, xl1, xu1, uMut1, rand1);
    second := scheme.Do(power, X2, xl2, xu2, uMut2, rand2);
  }
}

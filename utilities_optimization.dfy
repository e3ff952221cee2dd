// Objective-space helpers (utilities/optimization.py, and its copy
// utils/optimization.py): min-max scaling of a non-dominated set, column by
// column into a preallocated array, and the closing of a half-open bound.

module UtilitiesOptimization {
  import opened Common

  // ---------------------------------------------------------------------
  // The specification of min-max scaling.

  /** Column i of a matrix with `cols` columns, top to bottom. */
  function Column(F: Matrix, cols: nat, i: nat): (col: seq<real>)
    requires Rectangular(F, cols) && i < cols
    ensures |col| == |F|
    ensures forall r :: 0 <= r < |F| ==> col[r] == F[r][i]
  {
    seq(|F|, r requires 0 <= r < |F| => F[r][i])
  }

  /** A column whose maximum equals its minimum: scaling it divides by zero. */
  predicate ConstantAt(F: Matrix, cols: nat, i: nat)
    requires Rectangular(F, cols) && i < cols && |F| > 0
  {
    Min(Column(F, cols, i)) == Max(Column(F, cols, i))
  }

  /** (v - lo) / (hi - lo) on a column whose range is not empty. */
  function Scale(v: real, lo: real, hi: real): real
    requires lo < hi
  {
    (v - lo) / (hi - lo)
  }

  /** Which columns are constant, left to right. */
  function ConstantColumns(F: Matrix, cols: nat): (flags: seq<bool>)
    requires Rectangular(F, cols) && |F| > 0
    ensures |flags| == cols && forall j :: 0 <= j < cols ==> flags[j] == ConstantAt(F, cols, j)
  {
    seq(cols, j requires 0 <= j < cols => ConstantAt(F, cols, j))
  }

  /** The first set flag at or after position i, if any. */
  function FirstSet(flags: seq<bool>, i: nat): (r: Option<nat>)
    requires i <= |flags|
    ensures r.Some? ==> i <= r.value < |flags| && flags[r.value]
    ensures r.Some? ==> forall j :: i <= j < r.value ==> !flags[j]
    ensures r.None? ==> forall j :: i <= j < |flags| ==> !flags[j]
    decreases |flags| - i
  {
    if i == |flags| then None
    else if flags[i] then Some(i)
    else FirstSet(flags, i + 1)
  }

  /** The first constant column at or after column i, if any. */
  function FirstConstant(F: Matrix, cols: nat, i: nat): (r: Option<nat>)
    requires Rectangular(F, cols) && |F| > 0 && i <= cols
    ensures r.Some? ==> i <= r.value < cols && ConstantAt(F, cols, r.value)
    ensures r.Some? ==> forall j :: i <= j < r.value ==> !ConstantAt(F, cols, j)
    ensures r.None? ==> forall j :: i <= j < cols ==> !ConstantAt(F, cols, j)
  {
    FirstSet(ConstantColumns(F, cols), i)
  }

  /** Entry (r, i) of the scaled matrix, on a column that is not constant. */
  function ScaledEntry(F: Matrix, cols: nat, r: nat, i: nat): real
    requires Rectangular(F, cols) && r < |F| && i < cols && !ConstantAt(F, cols, i)
  {
    var col := Column(F, cols, i);
    Scale(F[r][i], Min(col), Max(col))
  }

  /**
   * _normalize_objective_space_results as a value: every column mapped to
   * (v - min) / (max - min).  With no rows np.min raises; a constant column
   * makes numpy divide 0 by 0, which this model reports as an error at the
   * first such column (see README).  Without columns the loop never runs.
   */
  function Normalized(F: Matrix, cols: nat): (r: Result<Matrix>)
    requires Rectangular(F, cols)
    ensures r.Err? <==> cols > 0 && (|F| == 0 || exists j :: 0 <= j < cols && ConstantAt(F, cols, j))
    ensures r.Err? && |F| == 0 ==> r.error.ValueError?
    ensures r.Err? && |F| > 0 ==>
      r.error.ConstantColumn? && r.error.column < cols &&
      ConstantAt(F, cols, r.error.column) &&
      forall j :: 0 <= j < r.error.column ==> !ConstantAt(F, cols, j)
    ensures r.Ok? ==> |r.value| == |F| && Rectangular(r.value, cols)
    ensures r.Ok? ==> forall row, i :: 0 <= row < |F| && 0 <= i < cols ==>
      !ConstantAt(F, cols, i) && r.value[row][i] == ScaledEntry(F, cols, row, i)
  {
    if cols == 0 then Ok(F)
    else if |F| == 0 then Err(ValueError("zero-size array to reduction operation minimum which has no identity"))
    else
      match FirstConstant(F, cols, 0)
      case Some(i) => Err(ConstantColumn(i))
      case None =>
        Ok(seq(|F|, row requires 0 <= row < |F| =>
             seq(cols, i requires 0 <= i < cols => ScaledEntry(F, cols, row, i))))
  }

  // ---------------------------------------------------------------------
  // What the scaling promises.

  /** A column that is not constant has a non-empty range holding all its values. */
  lemma ColumnRange(F: Matrix, cols: nat, i: nat)
    requires Rectangular(F, cols) && |F| > 0 && i < cols && !ConstantAt(F, cols, i)
    ensures var col := Column(F, cols, i);
      Min(col) < Max(col) && forall row :: 0 <= row < |F| ==> Min(col) <= F[row][i] <= Max(col)
  {
    var col := Column(F, cols, i);
    assert Min(col) <= col[0] <= Max(col);
    forall row | 0 <= row < |F| ensures Min(col) <= F[row][i] <= Max(col) {
      assert col[row] == F[row][i];
    }
  }

  /** Every scaled value lies in [0, 1]. */
  lemma NormalizedInUnitInterval(F: Matrix, cols: nat)
    requires Rectangular(F, cols) && Normalized(F, cols).Ok?
    ensures var N := Normalized(F, cols).value;
      forall row, i :: 0 <= row < |N| && 0 <= i < cols ==> 0.0 <= N[row][i] <= 1.0
  {
    var N := Normalized(F, cols).value;
    forall row, i | 0 <= row < |N| && 0 <= i < cols ensures 0.0 <= N[row][i] <= 1.0 {
      var col := Column(F, cols, i);
      assert !ConstantAt(F, cols, i) && N[row][i] == ScaledEntry(F, cols, row, i);
      ColumnRange(F, cols, i);
      UnitScale(F[row][i], Min(col), Max(col));
    }
  }

  lemma UnitScale(v: real, lo: real, hi: real)
    requires lo < hi && lo <= v <= hi
    ensures 0.0 <= Scale(v, lo, hi) <= 1.0
  {
    var d := hi - lo;
    assert Scale(v, lo, hi) * d == v - lo;
  }

  /** In every column, the smallest value becomes 0 and the largest becomes 1. */
  lemma NormalizedAttainsBounds(F: Matrix, cols: nat, i: nat)
    requires Rectangular(F, cols) && Normalized(F, cols).Ok? && i < cols
    ensures var N := Normalized(F, cols).value;
      (exists row :: 0 <= row < |N| && N[row][i] == 0.0) &&
      (exists row :: 0 <= row < |N| && N[row][i] == 1.0)
  {
    var N := Normalized(F, cols).value;
    var col := Column(F, cols, i);
    var lo, hi := Min(col), Max(col);
    var a :| 0 <= a < |col| && col[a] == lo;
    var b :| 0 <= b < |col| && col[b] == hi;
    assert !ConstantAt(F, cols, i) && N[a][i] == ScaledEntry(F, cols, a, i);
    assert N[b][i] == ScaledEntry(F, cols, b, i);
    ColumnRange(F, cols, i);
    ScaleEnds(lo, hi);
    assert N[a][i] == Scale(lo, lo, hi);
    assert N[b][i] == Scale(hi, lo, hi);
  }

  lemma ScaleEnds(lo: real, hi: real)
    requires lo < hi
    ensures Scale(lo, lo, hi) == 0.0 && Scale(hi, lo, hi) == 1.0
  {
    var d := hi - lo;
    assert d / d == 1.0;
  }

  /**
   * Scaling ranks the rows of a column as the input does: the order of two
   * values in one column is kept, and equal values stay equal.
   */
  lemma NormalizedKeepsOrder(F: Matrix, cols: nat, i: nat, r1: nat, r2: nat)
    requires Rectangular(F, cols) && Normalized(F, cols).Ok?
    requires i < cols && r1 < |F| && r2 < |F|
    ensures var N := Normalized(F, cols).value;
      (F[r1][i] <= F[r2][i] <==> N[r1][i] <= N[r2][i]) && (F[r1][i] == F[r2][i] <==> N[r1][i] == N[r2][i])
  {
    var N := Normalized(F, cols).value;
    var col := Column(F, cols, i);
    assert !ConstantAt(F, cols, i) && N[r1][i] == ScaledEntry(F, cols, r1, i);
    assert N[r2][i] == ScaledEntry(F, cols, r2, i);
    ColumnRange(F, cols, i);
    ScaleMonotone(F[r1][i], F[r2][i], Min(col), Max(col));
  }

  lemma ScaleMonotone(u: real, v: real, lo: real, hi: real)
    requires lo < hi
    ensures u <= v <==> Scale(u, lo, hi) <= Scale(v, lo, hi)
    ensures u == v <==> Scale(u, lo, hi) == Scale(v, lo, hi)
  {
    var d := hi - lo;
    assert Scale(u, lo, hi) * d == u - lo;
    assert Scale(v, lo, hi) * d == v - lo;
  }

  // ---------------------------------------------------------------------
  // The loop itself, over numpy-style two-dimensional arrays.

  /** The entries of an array, row by row. */
  function Contents(a: array2<real>): (m: Matrix)
    reads a
    ensures |m| == a.Length0 && Rectangular(m, a.Length1)
    ensures forall r, c :: 0 <= r < a.Length0 && 0 <= c < a.Length1 ==> m[r][c] == a[r, c]
  {
    seq(a.Length0, r requires 0 <= r < a.Length0 reads a =>
      seq(a.Length1, c requires 0 <= c < a.Length1 reads a => a[r, c]))
  }

  /** A matrix of the input's shape holding every scaled entry is the scaled matrix. */
  lemma NormalizedIs(M: Matrix, cols: nat, N: Matrix)
    requires Rectangular(M, cols) && |M| > 0 && cols > 0 && FirstConstant(M, cols, 0).None?
    requires |N| == |M| && Rectangular(N, cols)
    requires forall row, c :: 0 <= row < |M| && 0 <= c < cols ==> N[row][c] == ScaledEntry(M, cols, row, c)
    ensures Normalized(M, cols) == Ok(N)
  {
    var spec := Normalized(M, cols);
    assert spec.Ok?;
    forall row | 0 <= row < |M| ensures spec.value[row] == N[row] {
      assert forall c :: 0 <= c < cols ==> spec.value[row][c] == N[row][c];
    }
    assert spec.value == N;
  }

  /** out[:, i] = (column - lo) / (hi - lo): writes column i and nothing else. */
  method FillColumn(out: array2<real>, M: Matrix, cols: nat, i: nat, lo: real, hi: real)
    requires out.Length0 == |M| && out.Length1 == cols && Rectangular(M, cols) && i < cols && lo < hi
    modifies out
    ensures forall row, c :: 0 <= row < |M| && 0 <= c < cols && c != i ==> out[row, c] == old(out[row, c])
    ensures forall row :: 0 <= row < |M| ==> out[row, i] == Scale(M[row][i], lo, hi)
  {
    var k := 0;
    while k < |M|
      invariant 0 <= k <= |M|
      invariant forall row, c :: 0 <= row < |M| && 0 <= c < cols && c != i ==> out[row, c] == old(out[row, c])
      invariant forall row :: 0 <= row < k ==> out[row, i] == Scale(M[row][i], lo, hi)
    {
      out[k, i] := (M[k][i] - lo) / (hi - lo);
      k := k + 1;
    }
  }

  /**
   * One pass of the column loop: the column's minimum and maximum, then the
   * scaled column written into `out`; a constant column writes nothing.
   */
  method ScaleColumn(out: array2<real>, M: Matrix, cols: nat, i: nat) returns (scaled: bool)
    requires out.Length0 == |M| > 0 && out.Length1 == cols && Rectangular(M, cols) && i < cols
    modifies out
    ensures scaled <==> !ConstantAt(M, cols, i)
    ensures !scaled ==> Min(Column(M, cols, i)) == Max(Column(M, cols, i))
    ensures forall row, c :: 0 <= row < |M| && 0 <= c < cols && c != i ==> out[row, c] == old(out[row, c])
    ensures scaled ==> forall row :: 0 <= row < |M| ==> out[row, i] == ScaledEntry(M, cols, row, i)
  {
    var column := Column(M, cols, i);
    var lo, hi := Min(column), Max(column);
    if lo == hi {
      return false;
    }
    ColumnRange(M, cols, i);
    FillColumn(out, M, cols, i, lo, hi);
    scaled := true;
  }

  /**
   * _normalize_objective_space_results: allocate an array of the input's
   * shape, then for each column compute its minimum and range and write the
   * scaled column into it.  The input is not changed.
   */
  method NormalizeObjectiveSpaceResults(F: array2<real>) returns (r: Result<array2<real>>)
    ensures r.Ok? ==> fresh(r.value) && r.value.Length0 == F.Length0 && r.value.Length1 == F.Length1
    ensures var spec := Normalized(Contents(F), F.Length1);
      (r.Err? <==> spec.Err?) &&
      (r.Err? ==> r.error == spec.error) &&
      (r.Ok? ==> Contents(r.value) == spec.value)
  {
    var rows, cols := F.Length0, F.Length1;
    var M := Contents(F);
    var out := new real[rows, cols];
    if cols == 0 {
      NoColumns(M, Contents(out));
      return Ok(out);
    }
    if rows == 0 {
      return Err(ValueError("zero-size array to reduction operation minimum which has no identity"));
    }
    var constant := ScaleColumns(out, M, cols);
    if constant.Some? {
      return Err(ConstantColumn(constant.value));
    }
    NormalizedIs(M, cols, Contents(out));
    r := Ok(out);
  }

  /** Without columns the loop never runs and the empty_like copy is returned as allocated. */
  lemma NoColumns(M: Matrix, N: Matrix)
    requires Rectangular(M, 0) && Rectangular(N, 0) && |N| == |M|
    ensures Normalized(M, 0) == Ok(N)
  {
    forall row | 0 <= row < |M| ensures M[row] == N[row] { }
    assert M == N;
  }

  /**
   * The column loop: scale column after column into `out` and stop at the
   * first constant column, where the division by a zero range fails.
   */
  method ScaleColumns(out: array2<real>, M: Matrix, cols: nat) returns (constant: Option<nat>)
    requires out.Length0 == |M| > 0 && out.Length1 == cols && Rectangular(M, cols)
    modifies out
    ensures constant == FirstConstant(M, cols, 0)
    ensures constant.None? ==> forall row, c :: 0 <= row < |M| && 0 <= c < cols ==> out[row, c] == ScaledEntry(M, cols, row, c)
  {
    var i := 0;
    while i < cols
      invariant 0 <= i <= cols
      invariant FirstConstant(M, cols, 0) == FirstConstant(M, cols, i)
      invariant forall c :: 0 <= c < i ==> !ConstantAt(M, cols, c)
      invariant forall row, c :: 0 <= row < |M| && 0 <= c < i ==> out[row, c] == ScaledEntry(M, cols, row, c)
    {
      var scaled := ScaleColumn(out, M, cols, i);
      if !scaled {
        assert ConstantAt(M, cols, i);
        return Some(i);
      }
      i := i + 1;
    }
    constant := None;
  }

  // ---------------------------------------------------------------------
  // close_bound.

  /** 10 ** e for an integer exponent: an int for e >= 0, a float otherwise. */
  function Pow10(e: int): (p: real)
    ensures p > 0.0
    ensures e >= 0 ==> p >= 1.0
    decreases if e < 0 then -e else e
  {
    if e == 0 then 1.0
    else if e > 0 then 10.0 * Pow10(e - 1)
    else Pow10(e + 1) / 10.0
  }

  /**
   * close_bound: widen every bound by one unit in the last of `decimals`
   * decimal places, so that a half-open sampling interval [a, b) reaches b.
   */
  function CloseBound(bound: seq<real>, decimals: int): (r: seq<real>)
    ensures |r| == |bound|
    ensures forall i :: 0 <= i < |r| ==> r[i] > bound[i]
    ensures forall i :: 0 <= i < |r| ==> r[i] - bound[i] == Pow10(-decimals)
  {
    var step := Pow10(-decimals);
    seq(|bound|, i requires 0 <= i < |bound| => bound[i] + step)
  }
}

// utils/optimization.py repeats the scaling loop and close_bound of
// utilities/optimization.py line for line; its entry points here run the
// shared definition.
module UtilsOptimization {
  import opened Common
  import U = UtilitiesOptimization

  /** _normalize_objective_space_results of the copy: the same column-by-column min-max scaling. */
  method NormalizeObjectiveSpaceResults(F: array2<real>) returns (r: Result<array2<real>>)
    ensures r.Ok? ==> fresh(r.value) && r.value.Length0 == F.Length0 && r.value.Length1 == F.Length1
    ensures var spec := U.Normalized(U.Contents(F), F.Length1);
      (r.Err? <==> spec.Err?) && (r.Err? ==> r.error == spec.error) &&
      (r.Ok? ==> U.Contents(r.value) == spec.value)
  {
    r := U.NormalizeObjectiveSpaceResults(F);
  }

  /** close_bound of the copy: every bound grows by 10 ** -decimals. */
  function CloseBound(bound: seq<real>, decimals: int): (r: seq<real>)
    ensures |r| == |bound|
    ensures forall i :: 0 <= i < |r| ==> r[i] > bound[i] && r[i] - bound[i] == U.Pow10(-decimals)
  {
    U.CloseBound(bound, decimals)
  }
}

// The decision helpers of optimization/main.py: the recommended point of
// a Pareto front (recommend_point), its schedule (recommend_schedule), and
// the decompression of a schedule into hourly columns (write_result).

module OptimizationMain {
  import opened Common
  import U = UtilitiesOptimization

  /** The default owPPD limit of recommend_point, in percent. */
  const MAX_PPD: real := 10.0

  /** parameters["DF_FREQ_NUM"] in prefs/parameters.py: hours between two rows of the schedule. */
  const DF_FREQ_NUM: int := 1

  /** The rows of the schedule frame: pandas turns the float period count 24 / DF_FREQ_NUM into an int. */
  const ROWS: nat := 24 / DF_FREQ_NUM

  // ---------------------------------------------------------------------
  // recommend_point.

  /** diff = F[:, 0] - max_ppd at row k. */
  function Diff(F: Matrix, k: nat, maxPpd: real): real
    requires k < |F| && |F[k]| > 0
  {
    F[k][0] - maxPpd
  }

  /** Row k is left unmasked by np.ma.greater(diff, 0): its owPPD is at most the limit. */
  predicate Eligible(F: Matrix, k: nat, maxPpd: real)
    requires k < |F| && |F[k]| > 0
  {
    !(Diff(F, k, maxPpd) > 0.0)
  }

  /**
   * argmax of the masked diff over the first n rows: the first eligible
   * row whose diff is largest among the eligible rows, or None when every
   * row is masked.
   */
  function BestEligible(F: Matrix, cols: nat, n: nat, maxPpd: real): (r: Option<nat>)
    requires Rectangular(F, cols) && cols > 0 && n <= |F|
    ensures r.None? <==> forall k :: 0 <= k < n ==> !Eligible(F, k, maxPpd)
    ensures r.Some? ==> r.value < n && Eligible(F, r.value, maxPpd)
    ensures r.Some? ==> forall k :: 0 <= k < n && Eligible(F, k, maxPpd) ==> Diff(F, k, maxPpd) <= Diff(F, r.value, maxPpd)
    ensures r.Some? ==> forall k :: 0 <= k < r.value && Eligible(F, k, maxPpd) ==> Diff(F, k, maxPpd) < Diff(F, r.value, maxPpd)
  {
    if n == 0 then None
    else
      var best := BestEligible(F, cols, n - 1, maxPpd);
      if Eligible(F, n - 1, maxPpd) && (best.None? || Diff(F, n - 1, maxPpd) > Diff(F, best.value, maxPpd)) then Some(n - 1)
      else best
  }

  /**
   * recommend_point on a front F of `cols` objectives, owPPD first.  With
   * an eligible row, the masked argmax; with none (an empty front
   * included, as np.all of nothing holds), the index the ASF
   * decomposition picks on the normalised front, which this model takes
   * as the parameter `asf`.
   */
  function RecommendPoint(F: Matrix, cols: nat, asf: Matrix -> nat, maxPpd: real := MAX_PPD): (r: Result<nat>)
    requires Rectangular(F, cols)
    requires forall N: Matrix :: |N| > 0 ==> asf(N) < |N|
    ensures cols == 0 ==> r.Err? && r.error.IndexError?
    ensures cols > 0 && (exists k :: 0 <= k < |F| && Eligible(F, k, maxPpd)) ==>
      r.Ok? && r.value < |F| && Eligible(F, r.value, maxPpd) &&
      (forall k :: 0 <= k < |F| && Eligible(F, k, maxPpd) ==> F[k][0] <= F[r.value][0]) &&
      (forall k :: 0 <= k < r.value && Eligible(F, k, maxPpd) ==> F[k][0] < F[r.value][0])
    ensures cols > 0 && (forall k :: 0 <= k < |F| ==> !Eligible(F, k, maxPpd)) ==>
      (r.Ok? <==> U.Normalized(F, cols).Ok?) &&
      (r.Err? ==> r.error == U.Normalized(F, cols).error) &&
      (r.Ok? ==> r.value == asf(U.Normalized(F, cols).value) && r.value < |F|)
  {
    if cols == 0 then Err(IndexError("index 0 is out of bounds for axis 1 with size 0"))
    else
      match BestEligible(F, cols, |F|, maxPpd)
      case Some(k) => Ok(k)
      case None =>
        match U.Normalized(F, cols)
        case Err(e) => Err(e)
        case Ok(N) => Ok(asf(N))
  }

  /** A point exactly at the limit is eligible: the mask is a strict comparison. */
  lemma LimitIsEligible(F: Matrix, k: nat, maxPpd: real)
    requires k < |F| && |F[k]| > 0 && F[k][0] <= maxPpd
    ensures Eligible(F, k, maxPpd)
  {
  }

  // ---------------------------------------------------------------------
  // recommend_schedule.

  /** design_space_results[index, :]: Python indexing, negative indices counting from the end. */
  function RecommendSchedule(X: Matrix, index: int): (r: Result<seq<real>>)
    ensures r.Ok? <==> -|X| <= index < |X|
    ensures r.Err? ==> r.error.IndexError?
    ensures 0 <= index < |X| ==> r == Ok(X[index])
    ensures -|X| <= index < 0 ==> r == Ok(X[|X| + index])
  {
    if 0 <= index < |X| then Ok(X[index])
    else if -|X| <= index < 0 then Ok(X[|X| + index])
    else Err(IndexError("index out of bounds"))
  }

  /**
   * The two steps together: the schedule of the recommended point of F is
   * the row of the design matrix at the same index.
   */
  lemma RecommendedSchedule(F: Matrix, cols: nat, asf: Matrix -> nat, maxPpd: real, X: Matrix)
    requires Rectangular(F, cols) && forall N: Matrix :: |N| > 0 ==> asf(N) < |N|
    requires |X| == |F| && RecommendPoint(F, cols, asf, maxPpd).Ok?
    ensures var i := RecommendPoint(F, cols, asf, maxPpd).value;
      i < |X| && RecommendSchedule(X, i) == Ok(X[i])
  {
    var r := RecommendPoint(F, cols, asf, maxPpd);
    if cols > 0 && forall k :: 0 <= k < |F| ==> !Eligible(F, k, maxPpd) {
      assert r.value < |F|;
    } else {
      assert r.value < |F|;
    }
  }

  // ---------------------------------------------------------------------
  // write_result: decompressing the schedule.

  /** One row of the lookup table: [StartIndex, StopIndex, Label]. */
  datatype LookupEntry = LookupEntry(start: int, stop: int, name: string)

  /** A labelled column of the output frame. */
  datatype Column = Column(name: string, values: seq<real>)

  /** A slice bound as Python normalises it: negative counts from the end, then clamped into [0, len]. */
  function SliceBound(i: int, len: nat): (k: nat)
    ensures k <= len
    ensures 0 <= i <= len ==> k == i
    ensures i < 0 && 0 <= i + len ==> k == len + i
  {
    if i < 0 then (if i + len < 0 then 0 else i + len)
    else if i > len then len
    else i
  }

  /** s[start:stop]: the elements from the normalised start up to the normalised stop, empty when stop is not after start. */
  function Slice(s: seq<real>, start: int, stop: int): (r: seq<real>)
    ensures 0 <= start <= stop <= |s| ==> r == s[start..stop]
    ensures |r| <= |s|
  {
    var a, b := SliceBound(start, |s|), SliceBound(stop, |s|);
    if b <= a then [] else s[a..b]
  }

  /** int(a / b) for a non-negative a: Python's true division, truncated toward zero. */
  function TruncDiv(a: nat, b: int): (q: int)
    requires b != 0
    ensures b > 0 ==> 0 <= q && q * b <= a < q * b + b
    ensures b < 0 ==> q <= 0 && q * b <= a < q * b - b
  {
    if b > 0 then a / b else -(a / -b)
  }

  /** np.repeat(s, n): every value n times, consecutively and in order. */
  function Repeat(s: seq<real>, n: nat): (r: seq<real>)
    ensures |r| == |s| * n
  {
    if |s| == 0 then []
    else
      var rest := Repeat(s[1..], n);
      assert |rest| == (|s| - 1) * n;
      seq(n, _ => s[0]) + rest
  }

  /** n copies of v. */
  function Copies(v: real, n: nat): (r: seq<real>)
    ensures |r| == n && forall t :: 0 <= t < n ==> r[t] == v
  {
    seq(n, _ => v)
  }

  /** Rows i * n up to (i + 1) * n of r: the block that value i of a repetition fills. */
  function Block(r: seq<real>, n: nat, i: nat): seq<real>
    requires i * n + n <= |r|
  {
    r[i * n..i * n + n]
  }

  /** Block i of the repetition is n copies of value i. */
  lemma {:induction false} RepeatBlocks(s: seq<real>, n: nat, i: nat)
    requires i < |s|
    ensures i * n + n <= |Repeat(s, n)|
    ensures Block(Repeat(s, n), n, i) == Copies(s[i], n)
  {
    var r, rest := Repeat(s, n), Repeat(s[1..], n);
    assert r == Copies(s[0], n) + rest;
    if i == 0 {
      assert i * n == 0;
    } else {
      RepeatBlocks(s[1..], n, i - 1);
      assert (i - 1) * n == i * n - n;
      assert Block(r, n, i) == Block(rest, n, i - 1);
    }
  }

  /** The compressed values are recovered from the repetition: value i is the first of its block. */
  lemma RepeatRoundTrip(s: seq<real>, n: nat, i: nat)
    requires n > 0 && i < |s|
    ensures i * n < |Repeat(s, n)| && Repeat(s, n)[i * n] == s[i]
  {
    RepeatBlocks(s, n, i);
    assert Repeat(s, n)[i * n] == Block(Repeat(s, n), n, i)[0];
  }

  /**
   * One decompressed column: the slice [start:stop] of the schedule, each
   * value repeated int(rows / (stop - start)) times.  An empty range
   * divides by zero, a negative count makes np.repeat raise, and a
   * repetition whose length differs from the frame's cannot be assigned.
   */
  function Decompress(design: seq<real>, e: LookupEntry, rows: nat): (r: Result<seq<real>>)
    ensures r.Ok? ==> |r.value| == rows
  {
    if e.stop == e.start then Err(ZeroDivisionError)
    else
      var repeats := TruncDiv(rows, e.stop - e.start);
      if repeats < 0 then Err(ValueError("negative dimensions are not allowed"))
      else
        var values := Repeat(Slice(design, e.start, e.stop), repeats);
        if |values| != rows then Err(ValueError("Length of values does not match length of index"))
        else Ok(values)
  }

  /**
   * The outcomes of Decompress: which exception each malformed range
   * raises, exactly when a column comes out, and that the column is the
   * slice with each value repeated in a block of its own.
   */
  lemma DecompressCases(design: seq<real>, e: LookupEntry, rows: nat)
    ensures var r := Decompress(design, e, rows);
      (e.stop == e.start ==> r.Err? && r.error.ZeroDivisionError?) &&
      (e.stop != e.start && TruncDiv(rows, e.stop - e.start) < 0 ==> r.Err? && r.error.ValueError?) &&
      (r.Ok? <==> (e.stop != e.start && TruncDiv(rows, e.stop - e.start) >= 0 &&
                   |Slice(design, e.start, e.stop)| * TruncDiv(rows, e.stop - e.start) == rows)) &&
      (r.Ok? ==>
         var slice, n := Slice(design, e.start, e.stop), TruncDiv(rows, e.stop - e.start);
         forall i :: 0 <= i < |slice| ==> i * n + n <= rows && Block(r.value, n, i) == Copies(slice[i], n))
  {
    var r := Decompress(design, e, rows);
    if r.Ok? {
      var slice, n := Slice(design, e.start, e.stop), TruncDiv(rows, e.stop - e.start);
      forall i | 0 <= i < |slice| ensures i * n + n <= rows && Block(r.value, n, i) == Copies(slice[i], n) {
        RepeatBlocks(slice, n, i);
      }
    }
  }

  /** Whether the frame already has a column of this label. */
  predicate HasLabel(frame: seq<Column>, name: string)
  {
    exists i :: 0 <= i < |frame| && frame[i].name == name
  }

  /** dataframe[label] = values: an existing column of that label is replaced in place, otherwise one is appended. */
  function Upsert(frame: seq<Column>, c: Column): (r: seq<Column>)
    ensures |r| == |frame| || r == frame + [c]
  {
    if |frame| == 0 then [c]
    else if frame[0].name == c.name then [c] + frame[1..]
    else [frame[0]] + Upsert(frame[1..], c)
  }

  /** The column is in the frame afterwards. */
  lemma {:induction false} UpsertHolds(frame: seq<Column>, c: Column)
    ensures c in Upsert(frame, c)
  {
    if |frame| > 0 && frame[0].name != c.name {
      UpsertHolds(frame[1..], c);
    }
  }

  /** A label already present keeps the frame's shape and label order. */
  lemma {:induction false} UpsertReplaces(frame: seq<Column>, c: Column)
    requires HasLabel(frame, c.name)
    ensures var r := Upsert(frame, c);
      |r| == |frame| && forall i :: 0 <= i < |r| ==> r[i].name == frame[i].name
  {
    if frame[0].name != c.name {
      var k :| 0 <= k < |frame| && frame[k].name == c.name;
      assert frame[1..][k - 1].name == c.name;
      UpsertReplaces(frame[1..], c);
      var r, rest := Upsert(frame, c), Upsert(frame[1..], c);
      assert forall i :: 1 <= i < |r| ==> r[i] == rest[i - 1] && frame[i] == frame[1..][i - 1];
    }
  }

  /** A new label is appended as the last column. */
  lemma {:induction false} UpsertAppends(frame: seq<Column>, c: Column)
    requires !HasLabel(frame, c.name)
    ensures Upsert(frame, c) == frame + [c]
  {
    if |frame| > 0 {
      assert frame[0].name != c.name;
      assert !HasLabel(frame[1..], c.name) by {
        forall k | 0 <= k < |frame[1..]| ensures frame[1..][k].name != c.name {
          assert frame[1..][k] == frame[k + 1];
        }
      }
      UpsertAppends(frame[1..], c);
      assert frame == [frame[0]] + frame[1..];
    }
  }

  /** Columns of other labels are left where and as they were. */
  lemma {:induction false} UpsertKeepsOthers(frame: seq<Column>, c: Column, i: nat)
    requires i < |frame| && frame[i].name != c.name
    ensures i < |Upsert(frame, c)| && Upsert(frame, c)[i] == frame[i]
  {
    if i > 0 && frame[0].name != c.name {
      UpsertKeepsOthers(frame[1..], c, i - 1);
    }
  }

  /**
   * The columns of the frame after the loop has handled `table`, entry by
   * entry; the first entry that cannot be decompressed raises.
   */
  function Build(design: seq<real>, table: seq<LookupEntry>, rows: nat): Result<seq<Column>>
  {
    if |table| == 0 then Ok([])
    else
      match Build(design, table[..|table| - 1], rows)
      case Err(e) => Err(e)
      case Ok(frame) =>
        var e := table[|table| - 1];
        match Decompress(design, e, rows)
        case Err(err) => Err(err)
        case Ok(values) => Ok(Upsert(frame, Column(e.name, values)))
  }

  /** Every column the loop writes has exactly one value per row. */
  lemma {:induction false} BuildColumnsFill(design: seq<real>, table: seq<LookupEntry>, rows: nat)
    requires Build(design, table, rows).Ok?
    ensures forall c :: c in Build(design, table, rows).value ==> |c.values| == rows
  {
    if |table| > 0 {
      BuildColumnsFill(design, table[..|table| - 1], rows);
      var frame := Build(design, table[..|table| - 1], rows).value;
      var e := table[|table| - 1];
      var c := Column(e.name, Decompress(design, e, rows).value);
      forall d | d in Upsert(frame, c) ensures |d.values| == rows {
        UpsertMembers(frame, c, d);
      }
    }
  }

  lemma {:induction false} UpsertMembers(frame: seq<Column>, c: Column, d: Column)
    requires d in Upsert(frame, c)
    ensures d == c || d in frame
  {
    if |frame| > 0 && frame[0].name != c.name {
      if d != frame[0] {
        UpsertMembers(frame[1..], c, d);
      }
    }
  }

  /** No label of the lookup table occurs twice: each row names a column of its own. */
  predicate DistinctLabels(table: seq<LookupEntry>)
  {
    |table| == 0 ||
    (DistinctLabels(table[..|table| - 1]) &&
     forall i :: 0 <= i < |table| - 1 ==> table[i].name != table[|table| - 1].name)
  }

  /** With distinct labels, the frame has one column per lookup row, labelled in table order. */
  lemma {:induction false} BuildLabels(design: seq<real>, table: seq<LookupEntry>, rows: nat)
    requires DistinctLabels(table)
    requires Build(design, table, rows).Ok?
    ensures var frame := Build(design, table, rows).value;
      |frame| == |table| && forall j :: 0 <= j < |table| ==> frame[j].name == table[j].name
  {
    if |table| > 0 {
      var n := |table| - 1;
      var init, e := table[..n], table[n];
      BuildLabels(design, init, rows);
      var frame := Build(design, init, rows).value;
      assert !HasLabel(frame, e.name) by {
        forall j | 0 <= j < |frame| ensures frame[j].name != e.name {
          assert frame[j].name == init[j].name == table[j].name;
        }
      }
      UpsertAppends(frame, Column(e.name, Decompress(design, e, rows).value));
      var full := Build(design, table, rows).value;
      forall j | 0 <= j < |table| ensures full[j].name == table[j].name {
        if j < n {
          assert full[j] == frame[j] && init[j] == table[j];
        }
      }
    }
  }

  /**
   * With distinct labels, column i of the frame is lookup row i's label
   * holding that row's decompressed values.
   */
  lemma {:induction false} BuildDistinct(design: seq<real>, table: seq<LookupEntry>, rows: nat, i: nat)
    requires DistinctLabels(table)
    requires Build(design, table, rows).Ok? && i < |table|
    ensures var frame := Build(design, table, rows).value;
      |frame| == |table| && Decompress(design, table[i], rows).Ok? &&
      frame[i] == Column(table[i].name, Decompress(design, table[i], rows).value)
  {
    var n := |table| - 1;
    var init, e := table[..n], table[n];
    BuildLabels(design, init, rows);
    BuildLabels(design, table, rows);
    var frame := Build(design, init, rows).value;
    assert !HasLabel(frame, e.name) by {
      forall j | 0 <= j < |frame| ensures frame[j].name != e.name {
        assert frame[j].name == init[j].name == table[j].name;
      }
    }
    UpsertAppends(frame, Column(e.name, Decompress(design, e, rows).value));
    if i < n {
      BuildDistinct(design, init, rows, i);
      assert init[i] == table[i];
    }
  }

  /** Handling one more entry of the table is one more step of Build. */
  lemma BuildStep(design: seq<real>, table: seq<LookupEntry>, rows: nat, i: nat)
    requires i < |table|
    ensures Build(design, table[..i + 1], rows) ==
      match Build(design, table[..i], rows)
      case Err(e) => Err(e)
      case Ok(frame) =>
        match Decompress(design, table[i], rows)
        case Err(err) => Err(err)
        case Ok(values) => Ok(Upsert(frame, Column(table[i].name, values)))
  {
    assert table[..i + 1][..i] == table[..i];
  }

  /** The first entry that raises ends the loop: later entries do not change the error. */
  lemma {:induction false} BuildStopsAtError(design: seq<real>, table: seq<LookupEntry>, rows: nat, i: nat)
    requires i <= |table| && Build(design, table[..i], rows).Err?
    ensures Build(design, table, rows) == Build(design, table[..i], rows)
    decreases |table| - i
  {
    if i == |table| {
      assert table[..i] == table;
    } else {
      BuildStep(design, table, rows, i);
      BuildStopsAtError(design, table, rows, i + 1);
    }
  }

  /**
   * The loop of write_result over the lookup table, on a frame of ROWS
   * rows.  The rounding to `decimals`, the time column and the CSV file
   * are not part of this model.
   */
  method WriteResult(design: seq<real>, table: seq<LookupEntry>) returns (r: Result<seq<Column>>)
    ensures r == Build(design, table, ROWS)
  {
    var frame: seq<Column> := [];
    var i := 0;
    while i < |table|
      invariant 0 <= i <= |table|
      invariant Build(design, table[..i], ROWS) == Ok(frame)
    {
      var e := table[i];
      var column := Decompress(design, e, ROWS);
      BuildStep(design, table, ROWS, i);
      if column.Err? {
        BuildStopsAtError(design, table, ROWS, i + 1);
        return Err(column.error);
      }
      frame := Upsert(frame, Column(e.name, column.value));
      i := i + 1;
    }
    assert table[..|table|] == table;
    r := Ok(frame);
  }
}

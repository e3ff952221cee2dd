// Shared vocabulary of the model: option and result values, the Python
// exceptions the core raises, ASCII lower-casing of mode strings, and the
// numpy reductions (sum, mean, max, min) over sequences of reals.

module Common {

  datatype Option<+T> = None | Some(value: T)

  /** The exceptions the modelled code can raise, by their Python class. */
  datatype Error =
    | NameError(message: string)       // unrecognised termination mode
    | ValueError(message: string)      // reduction over an empty array, length mismatch
    | IndexError(message: string)      // data[-2] on a short window, row index out of range
    | ZeroDivisionError                // integer or float division by zero
    | Exception(message: string)       // bare Exception: wall-time budget of an unsupported type
    | ConstantColumn(column: nat)      // min-max scaling of a column whose max equals its min

  datatype Result<+T> = Ok(value: T) | Err(error: Error)

  /** A two-dimensional numpy array, row by row. */
  type Matrix = seq<seq<real>>

  predicate Rectangular(m: Matrix, cols: nat)
  {
    forall r :: 0 <= r < |m| ==> |m[r]| == cols
  }

  predicate SameShape(a: Matrix, b: Matrix)
  {
    |a| == |b| && forall r :: 0 <= r < |a| ==> |a[r]| == |b[r]|
  }

  // ---------------------------------------------------------------------
  // Mode strings are compared after str.lower().  For the mode names used
  // here only the ASCII letters matter (see README), so lower-casing maps
  // 'A'..'Z' to 'a'..'z' and leaves every other character alone.

  function LowerChar(c: char): char
  {
    if 'A' <= c <= 'Z' then (c as int - 'A' as int + 'a' as int) as char else c
  }

  function Lower(s: string): (r: string)
    ensures |r| == |s|
    ensures forall i :: 0 <= i < |r| ==> !('A' <= r[i] <= 'Z')
    ensures forall i :: 0 <= i < |s| && !('A' <= s[i] <= 'Z') ==> r[i] == s[i]
    ensures forall i :: 0 <= i < |s| && 'A' <= s[i] <= 'Z' ==> r[i] == (s[i] as int - 'A' as int + 'a' as int) as char
  {
    seq(|s|, i requires 0 <= i < |s| => LowerChar(s[i]))
  }

  /** Two strings that differ only in the case of their letters lower-case to the same string. */
  lemma LowerIgnoresCase(s: string, t: string)
    requires |s| == |t| && forall i :: 0 <= i < |s| ==> LowerChar(s[i]) == LowerChar(t[i])
    ensures Lower(s) == Lower(t)
  {
  }

  /** Lower-casing twice is lower-casing once. */
  lemma LowerIdempotent(s: string)
    ensures Lower(Lower(s)) == Lower(s)
  {
  }

  // ---------------------------------------------------------------------
  // Reductions over sequences of reals (np.sum, np.mean, np.max, np.min,
  // and Python's max over a list).

  function Sum(xs: seq<real>): real
  {
    if |xs| == 0 then 0.0 else xs[0] + Sum(xs[1..])
  }

  function Mean(xs: seq<real>): real
    requires |xs| > 0
  {
    Sum(xs) / |xs| as real
  }

  /** The largest element: it is an element, and no element exceeds it. */
  function Max(xs: seq<real>): (m: real)
    requires |xs| > 0
    ensures m in xs
    ensures forall i :: 0 <= i < |xs| ==> xs[i] <= m
  {
    if |xs| == 1 then xs[0]
    else
      var rest := Max(xs[1..]);
      if xs[0] >= rest then xs[0] else rest
  }

  /** The smallest element: it is an element, and no element is below it. */
  function Min(xs: seq<real>): (m: real)
    requires |xs| > 0
    ensures m in xs
    ensures forall i :: 0 <= i < |xs| ==> m <= xs[i]
  {
    if |xs| == 1 then xs[0]
    else
      var rest := Min(xs[1..]);
      if xs[0] <= rest then xs[0] else rest
  }

  /** A sum is at most the length times any upper bound of the elements. */
  lemma {:induction false} SumAtMost(xs: seq<real>, bound: real)
    requires forall i :: 0 <= i < |xs| ==> xs[i] <= bound
    ensures Sum(xs) <= |xs| as real * bound
  {
    if |xs| > 0 {
      SumAtMost(xs[1..], bound);
    }
  }

  /** A sum of non-negative reals is non-negative, and it is zero only when every element is. */
  lemma {:induction false} SumNonNegative(xs: seq<real>)
    requires forall i :: 0 <= i < |xs| ==> xs[i] >= 0.0
    ensures Sum(xs) >= 0.0
    ensures Sum(xs) == 0.0 <==> forall i :: 0 <= i < |xs| ==> xs[i] == 0.0
  {
    if |xs| > 0 {
      SumNonNegative(xs[1..]);
      if Sum(xs) == 0.0 {
        forall i | 0 <= i < |xs| ensures xs[i] == 0.0 {
          if i > 0 { assert xs[i] == xs[1..][i - 1]; }
        }
      }
    }
  }

  /** The mean of a non-empty window never exceeds its maximum. */
  lemma MeanAtMostMax(xs: seq<real>)
    requires |xs| > 0
    ensures Mean(xs) <= Max(xs)
  {
    var s, n, m := Sum(xs), |xs| as real, Max(xs);
    SumAtMost(xs, m);
    QuotientAtMost(s, n, m);
    assert Mean(xs) == s / n;
  }

  lemma QuotientAtMost(s: real, n: real, m: real)
    requires n > 0.0 && s <= n * m
    ensures s / n <= m
  {
    assert s / n * n == s;
  }

  /** The mean of non-negative reals is non-negative, and zero exactly when every element is. */
  lemma MeanNonNegative(xs: seq<real>)
    requires |xs| > 0
    requires forall i :: 0 <= i < |xs| ==> xs[i] >= 0.0
    ensures Mean(xs) >= 0.0
    ensures Mean(xs) == 0.0 <==> forall i :: 0 <= i < |xs| ==> xs[i] == 0.0
  {
    SumNonNegative(xs);
  }

  function Abs(x: real): real
  {
    if x < 0.0 then -x else x
  }

  // ---------------------------------------------------------------------
  // np.abs(a - b) over two arrays of one shape, flattened row by row, which
  // is the order in which np.mean and np.max visit the entries.

  function AbsDiffs(a: Matrix, b: Matrix): (d: seq<real>)
    requires SameShape(a, b)
    ensures forall k :: 0 <= k < |d| ==> d[k] >= 0.0
    decreases |a|
  {
    if |a| == 0 then []
    else
      seq(|a[0]|, j requires 0 <= j < |a[0]| => Abs(a[0][j] - b[0][j]))
      + AbsDiffs(a[1..], b[1..])
  }

  /** Every entry's absolute difference appears in the flattened differences. */
  lemma {:induction false} AbsDiffsContains(a: Matrix, b: Matrix, r: nat, c: nat)
    requires SameShape(a, b) && r < |a| && c < |a[r]|
    ensures Abs(a[r][c] - b[r][c]) in AbsDiffs(a, b)
    decreases r
  {
    var head := seq(|a[0]|, j requires 0 <= j < |a[0]| => Abs(a[0][j] - b[0][j]));
    if r == 0 {
      assert AbsDiffs(a, b)[c] == head[c];
    } else {
      AbsDiffsContains(a[1..], b[1..], r - 1, c);
      var k :| 0 <= k < |AbsDiffs(a[1..], b[1..])| && AbsDiffs(a[1..], b[1..])[k] == Abs(a[r][c] - b[r][c]);
      assert AbsDiffs(a, b)[|head| + k] == AbsDiffs(a[1..], b[1..])[k];
    }
  }

  /** The flattened differences are all zero exactly when the two arrays are equal. */
  lemma {:induction false} AbsDiffsZero(a: Matrix, b: Matrix)
    requires SameShape(a, b)
    ensures (forall k :: 0 <= k < |AbsDiffs(a, b)| ==> AbsDiffs(a, b)[k] == 0.0) <==> a == b
    decreases |a|
  {
    if |a| > 0 {
      var head := seq(|a[0]|, j requires 0 <= j < |a[0]| => Abs(a[0][j] - b[0][j]));
      var tail := AbsDiffs(a[1..], b[1..]);
      AbsDiffsZero(a[1..], b[1..]);
      assert AbsDiffs(a, b) == head + tail;
      if a == b {
        forall j | 0 <= j < |head| ensures head[j] == 0.0 {
          assert a[0][j] == b[0][j];
        }
        assert forall k :: 0 <= k < |head + tail| ==> (head + tail)[k] == 0.0 by {
          forall k | 0 <= k < |head + tail| ensures (head + tail)[k] == 0.0 {
            if k >= |head| { assert (head + tail)[k] == tail[k - |head|]; }
          }
        }
      }
      if forall k :: 0 <= k < |head + tail| ==> (head + tail)[k] == 0.0 {
        forall j | 0 <= j < |a[0]| ensures a[0][j] == b[0][j] {
          assert (head + tail)[j] == 0.0;
        }
        assert a[0] == b[0];
        forall k | 0 <= k < |tail| ensures tail[k] == 0.0 {
          assert (head + tail)[|head| + k] == tail[k];
        }
        assert a[1..] == b[1..];
        assert a == [a[0]] + a[1..] && b == [b[0]] + b[1..];
      }
    }
  }

  /** The number of entries of an array, which is the length of its flattening. */
  lemma {:induction false} AbsDiffsLength(a: Matrix, b: Matrix)
    requires SameShape(a, b)
    ensures |AbsDiffs(a, b)| == 0 <==> forall r :: 0 <= r < |a| ==> |a[r]| == 0
    decreases |a|
  {
    if |a| > 0 {
      AbsDiffsLength(a[1..], b[1..]);
      assert forall r :: 1 <= r < |a| ==> a[r] == a[1..][r - 1];
    }
  }
}

/** Two- and three-dimensional arrays of coefficients as values, the
    zero-padded window sums used by the match step, whole-array statistics,
    and the row-major order in which the loop-based strategies visit cells. */
module Matrices {
  import opened Numerics

  /** A band of coefficients: `w` rows of `h` columns (numpy shape (w, h)). */
  type Matrix = seq<seq<real>>

  /** A colour band: numpy shape (w, h, c). */
  type Volume = seq<seq<seq<real>>>

  predicate IsMatrix(m: Matrix, w: nat, h: nat)
  {
    |m| == w && forall i :: 0 <= i < w ==> |m[i]| == h
  }

  function Width(m: Matrix): nat
  {
    |m|
  }

  function Height(m: Matrix): nat
  {
    if |m| == 0 then 0 else |m[0]|
  }

  predicate Rectangular(m: Matrix)
  {
    IsMatrix(m, Width(m), Height(m))
  }

  predicate SameShape(a: Matrix, b: Matrix)
  {
    Rectangular(a) && Rectangular(b) && Width(a) == Width(b) && Height(a) == Height(b)
  }

  predicate IsVolume(v: Volume, w: nat, h: nat, c: nat)
  {
    |v| == w &&
    (forall i :: 0 <= i < w ==> |v[i]| == h) &&
    (forall i, j :: 0 <= i < w && 0 <= j < h ==> |v[i][j]| == c)
  }

  /** The matrix of `f` applied to corresponding cells of `a` and `b`, as
      numpy evaluates an elementwise expression of two same-shape arrays. */
  function Zip(a: Matrix, b: Matrix, f: (real, real) -> real): (r: Matrix)
    requires SameShape(a, b)
    ensures SameShape(r, a)
    ensures forall i, j :: 0 <= i < |a| && 0 <= j < Height(a) ==> r[i][j] == f(a[i][j], b[i][j])
  {
    seq(|a|, i requires 0 <= i < |a| => seq(Height(a), j requires 0 <= j < Height(a) => f(a[i][j], b[i][j])))
  }

  /** The matrix of `f` applied to every cell of `a`. */
  function Apply(a: Matrix, f: real -> real): (r: Matrix)
    requires Rectangular(a)
    ensures SameShape(r, a)
    ensures forall i, j :: 0 <= i < |a| && 0 <= j < Height(a) ==> r[i][j] == f(a[i][j])
  {
    seq(|a|, i requires 0 <= i < |a| => seq(Height(a), j requires 0 <= j < Height(a) => f(a[i][j])))
  }

  /** Cells (m[i][j] - mean)^2. */
  function SquaredDeviations(x: Matrix, mean: real): (r: Matrix)
    requires Rectangular(x)
    ensures SameShape(r, x)
  {
    Apply(x, v => Sq(v - mean))
  }

  /** Squared deviations are not negative. */
  lemma SquaredDeviationsNonNegative(x: Matrix, mean: real)
    requires Rectangular(x)
    ensures forall p, q :: 0 <= p < |SquaredDeviations(x, mean)| && 0 <= q < |SquaredDeviations(x, mean)[p]| ==>
      0.0 <= SquaredDeviations(x, mean)[p][q]
  {
    var d := SquaredDeviations(x, mean);
    forall p, q | 0 <= p < |d| && 0 <= q < |d[p]| ensures 0.0 <= d[p][q] {
      assert d[p][q] == Sq(x[p][q] - mean);
    }
  }

  /** The w-by-h matrix whose cell (i, j) is f(i, j). */
  function Grid(w: nat, h: nat, f: (int, int) -> real): (r: Matrix)
    ensures IsMatrix(r, w, h) && Width(r) == w && (0 < w ==> Height(r) == h)
    ensures forall i, j :: 0 <= i < w && 0 <= j < h ==> r[i][j] == f(i, j)
  {
    seq(w, i => seq(h, j => f(i, j)))
  }

  /** The cells of a 2-D array, as a matrix value. */
  function ToMatrix(a: array2<real>): (r: Matrix)
    reads a
    ensures IsMatrix(r, a.Length0, a.Length1)
    ensures forall i, j :: 0 <= i < a.Length0 && 0 <= j < a.Length1 ==> r[i][j] == a[i, j]
  {
    seq(a.Length0, i requires 0 <= i < a.Length0 reads a =>
      seq(a.Length1, j requires 0 <= j < a.Length1 reads a => a[i, j]))
  }

  /** Two w-by-h matrices with the same cells are equal. */
  lemma SameCells(a: Matrix, b: Matrix, w: nat, h: nat)
    requires IsMatrix(a, w, h) && IsMatrix(b, w, h)
    requires forall i, j :: 0 <= i < w && 0 <= j < h ==> a[i][j] == b[i][j]
    ensures a == b
  {
    forall i | 0 <= i < w ensures a[i] == b[i] {
    }
  }

  /** The image-processing routines the strategies call: the Sobel edge
      filter and the Shannon entropy of an array, passed in as values. */
  datatype Imaging = Imaging(sobel: Matrix -> Matrix, shannonEntropy: Matrix -> real)

  /** What the model assumes of them: the filter keeps the shape of its
      input and an entropy is never negative. */
  ghost predicate LawfulImaging(im: Imaging)
  {
    (forall x :: Rectangular(x) ==> SameShape(im.sobel(x), x)) &&
    (forall x :: 0.0 <= im.shannonEntropy(x))
  }

  /** The cell at (i, j), or 0 outside the array: zero padding. */
  function At(m: Matrix, i: int, j: int): real
  {
    if 0 <= i < |m| && 0 <= j < |m[i]| then m[i][j] else 0.0
  }

  /** Sum of `At(m, i, c)` over columns c0 <= c < c1 of row i. */
  function RowBox(m: Matrix, i: int, c0: int, c1: int): real
    decreases c1 - c0
  {
    if c1 <= c0 then 0.0 else RowBox(m, i, c0, c1 - 1) + At(m, i, c1 - 1)
  }

  /** Sum of `At(m, i, j)` over the half-open block r0 <= i < r1,
      c0 <= j < c1, rows outermost: cells outside the array add nothing. */
  function BoxSum(m: Matrix, r0: int, r1: int, c0: int, c1: int): real
    decreases r1 - r0
  {
    if r1 <= r0 then 0.0 else BoxSum(m, r0, r1 - 1, c0, c1) + RowBox(m, r1 - 1, c0, c1)
  }

  lemma {:induction false} RowBoxZero(m: Matrix, i: int, c0: int, c1: int)
    requires forall p, q :: 0 <= p < |m| && 0 <= q < |m[p]| ==> m[p][q] == 0.0
    ensures RowBox(m, i, c0, c1) == 0.0
    decreases c1 - c0
  {
    if c0 < c1 {
      RowBoxZero(m, i, c0, c1 - 1);
    }
  }

  /** A window over an all-zero array sums to 0. */
  lemma {:induction false} BoxSumZero(m: Matrix, r0: int, r1: int, c0: int, c1: int)
    requires forall p, q :: 0 <= p < |m| && 0 <= q < |m[p]| ==> m[p][q] == 0.0
    ensures BoxSum(m, r0, r1, c0, c1) == 0.0
    decreases r1 - r0
  {
    if r0 < r1 {
      BoxSumZero(m, r0, r1 - 1, c0, c1);
      RowBoxZero(m, r1 - 1, c0, c1);
    }
  }

  lemma {:induction false} RowBoxNonNegative(m: Matrix, i: int, c0: int, c1: int)
    requires forall p, q :: 0 <= p < |m| && 0 <= q < |m[p]| ==> 0.0 <= m[p][q]
    ensures 0.0 <= RowBox(m, i, c0, c1)
    decreases c1 - c0
  {
    if c0 < c1 {
      RowBoxNonNegative(m, i, c0, c1 - 1);
    }
  }

  /** A window over a non-negative array sums to at least 0. */
  lemma {:induction false} BoxSumNonNegative(m: Matrix, r0: int, r1: int, c0: int, c1: int)
    requires forall p, q :: 0 <= p < |m| && 0 <= q < |m[p]| ==> 0.0 <= m[p][q]
    ensures 0.0 <= BoxSum(m, r0, r1, c0, c1)
    decreases r1 - r0
  {
    if r0 < r1 {
      BoxSumNonNegative(m, r0, r1 - 1, c0, c1);
      RowBoxNonNegative(m, r1 - 1, c0, c1);
    }
  }

  /** `n` copies of `b` added up (n * b for n >= 0): the bound a sum of `n`
      terms of magnitude at most `b` keeps to. */
  function Scaled(n: int, b: real): real
    decreases n
  {
    if n <= 0 then 0.0 else Scaled(n - 1, b) + b
  }

  /** A row window of a matrix whose cells are at most `bound` in magnitude
      sums to at most (number of columns) * bound in magnitude. */
  lemma {:induction false} RowBoxBound(m: Matrix, i: int, c0: int, c1: int, bound: real)
    requires forall p, q :: 0 <= p < |m| && 0 <= q < |m[p]| ==> Abs(m[p][q]) <= bound
    requires 0.0 <= bound
    ensures Abs(RowBox(m, i, c0, c1)) <= Scaled(c1 - c0, bound)
    decreases c1 - c0
  {
    if c0 < c1 {
      RowBoxBound(m, i, c0, c1 - 1, bound);
      assert Abs(At(m, i, c1 - 1)) <= bound;
    }
  }

  /** A window of rows whose sums are each at most `rowBound` in magnitude
      sums to at most (number of rows) * rowBound in magnitude. */
  lemma {:induction false} BoxSumBound(m: Matrix, r0: int, r1: int, c0: int, c1: int, rowBound: real)
    requires forall i :: r0 <= i < r1 ==> Abs(RowBox(m, i, c0, c1)) <= rowBound
    ensures Abs(BoxSum(m, r0, r1, c0, c1)) <= Scaled(r1 - r0, rowBound)
    decreases r1 - r0
  {
    if r0 < r1 {
      BoxSumBound(m, r0, r1 - 1, c0, c1, rowBound);
      assert Abs(RowBox(m, r1 - 1, c0, c1)) <= rowBound;
    }
  }

  /** Sum of a sequence of reals. */
  function SeqSum(s: seq<real>): real
  {
    if s == [] then 0.0 else SeqSum(s[..|s| - 1]) + s[|s| - 1]
  }

  /** The cells of `m` in row-major order (numpy's flattening order). */
  function Flatten(m: Matrix): (r: seq<real>)
    ensures |m| == 0 ==> r == []
  {
    if m == [] then [] else Flatten(m[..|m| - 1]) + m[|m| - 1]
  }

  lemma {:induction false} FlattenLength(m: Matrix, w: nat, h: nat)
    requires IsMatrix(m, w, h)
    ensures |Flatten(m)| == w * h
  {
    if w > 0 {
      FlattenLength(m[..w - 1], w - 1, h);
      assert (w - 1) * h + h == w * h;
    }
  }

  /** `np.mean`: the sum of all cells over their number. numpy gives NaN for
      an empty array; no caller reads the mean of an empty array, so 0
      stands in for it here. */
  function Mean(m: Matrix): real
  {
    var cells := Flatten(m);
    if |cells| == 0 then 0.0 else SeqSum(cells) / |cells| as real
  }

  function SeqMin(s: seq<real>): (r: real)
    requires |s| > 0
    ensures forall k :: 0 <= k < |s| ==> r <= s[k]
    ensures exists k :: 0 <= k < |s| && r == s[k]
  {
    if |s| == 1 then s[0]
    else
      var rest := SeqMin(s[..|s| - 1]);
      if s[|s| - 1] < rest then s[|s| - 1] else rest
  }

  function SeqMax(s: seq<real>): (r: real)
    requires |s| > 0
    ensures forall k :: 0 <= k < |s| ==> s[k] <= r
    ensures exists k :: 0 <= k < |s| && r == s[k]
  {
    if |s| == 1 then s[0]
    else
      var rest := SeqMax(s[..|s| - 1]);
      if rest < s[|s| - 1] then s[|s| - 1] else rest
  }

  lemma {:induction false} FlattenHasCell(m: Matrix, w: nat, h: nat, i: int, j: int)
    requires IsMatrix(m, w, h) && 0 <= i < w && 0 <= j < h
    ensures |Flatten(m)| == w * h
    ensures 0 <= i * h + j < w * h && Flatten(m)[i * h + j] == m[i][j]
  {
    FlattenLength(m, w, h);
    FlattenLength(m[..w - 1], w - 1, h);
    assert Flatten(m) == Flatten(m[..w - 1]) + m[w - 1];
    if i < w - 1 {
      FlattenHasCell(m[..w - 1], w - 1, h, i, j);
      assert i * h + j < (w - 1) * h by {
        assert i * h + h <= (w - 1) * h by { MulLe(i + 1, w - 1, h); }
      }
    } else {
      assert i * h == (w - 1) * h;
    }
  }

  lemma MulLe(a: nat, b: nat, h: nat)
    requires a <= b
    ensures a * h <= b * h
  {
  }

  /** `np.min` of a non-empty matrix: at most every cell. */
  function MatrixMin(m: Matrix): (r: real)
    requires Rectangular(m) && Width(m) > 0 && Height(m) > 0
    ensures forall i, j :: 0 <= i < Width(m) && 0 <= j < Height(m) ==> r <= m[i][j]
  {
    FlattenLength(m, Width(m), Height(m));
    assert 0 < Width(m) * Height(m) by { MulLe(1, Width(m), Height(m)); }
    var r := SeqMin(Flatten(m));
    assert forall i, j :: 0 <= i < Width(m) && 0 <= j < Height(m) ==> r <= m[i][j] by {
      forall i, j | 0 <= i < Width(m) && 0 <= j < Height(m) ensures r <= m[i][j] {
        FlattenHasCell(m, Width(m), Height(m), i, j);
      }
    }
    r
  }

  /** `np.max` of a non-empty matrix: at least every cell. */
  function MatrixMax(m: Matrix): (r: real)
    requires Rectangular(m) && Width(m) > 0 && Height(m) > 0
    ensures forall i, j :: 0 <= i < Width(m) && 0 <= j < Height(m) ==> m[i][j] <= r
  {
    FlattenLength(m, Width(m), Height(m));
    assert 0 < Width(m) * Height(m) by { MulLe(1, Width(m), Height(m)); }
    var r := SeqMax(Flatten(m));
    assert forall i, j :: 0 <= i < Width(m) && 0 <= j < Height(m) ==> m[i][j] <= r by {
      forall i, j | 0 <= i < Width(m) && 0 <= j < Height(m) ensures m[i][j] <= r {
        FlattenHasCell(m, Width(m), Height(m), i, j);
      }
    }
    r
  }

  /** A ghost record of how often each cell of a 2-D array has been
      assigned; cells never assigned are absent. */
  type WriteLog = map<(int, int), nat>

  function Writes(log: WriteLog, p: int, q: int): nat
  {
    if (p, q) in log then log[(p, q)] else 0
  }

  /** The log after one more assignment to cell (i, j). */
  function Record(log: WriteLog, i: int, j: int): (r: WriteLog)
    ensures forall p, q :: Writes(r, p, q) == Writes(log, p, q) + if p == i && q == j then 1 else 0
  {
    log[(i, j) := Writes(log, i, j) + 1]
  }

  /** Every cell of a w-by-h array was assigned exactly once, and nothing
      outside it. */
  ghost predicate WrittenOnce(log: WriteLog, w: nat, h: nat)
  {
    forall p, q :: Writes(log, p, q) == if 0 <= p < w && 0 <= q < h then 1 else 0
  }

  /** The same record for a 3-D array. */
  type WriteLog3 = map<(int, int, int), nat>

  function Writes3(log: WriteLog3, p: int, q: int, r: int): nat
  {
    if (p, q, r) in log then log[(p, q, r)] else 0
  }

  function Record3(log: WriteLog3, i: int, j: int, k: int): (res: WriteLog3)
    ensures forall p, q, r ::
      Writes3(res, p, q, r) == Writes3(log, p, q, r) + if p == i && q == j && r == k then 1 else 0
  {
    log[(i, j, k) := Writes3(log, i, j, k) + 1]
  }

  ghost predicate WrittenOnce3(log: WriteLog3, w: nat, h: nat, c: nat)
  {
    forall p, q, r :: Writes3(log, p, q, r) == if 0 <= p < w && 0 <= q < h && 0 <= r < c then 1 else 0
  }

  /** Cell (p, q) comes before cell (i, j) in row-major order, inside a
      grid of `h` columns. */
  predicate RowMajorBefore(p: int, q: int, i: int, j: int, h: int)
  {
    (0 <= p < i && 0 <= q < h) || (p == i && 0 <= q < j)
  }

  /** The double loop `for i in range(w): for j in range(h):
      out[i][j] = f(i, j)` over a fresh w-by-h array, which the loop-based
      strategies share: every cell is assigned once, in row-major order. */
  method FillCells(w: nat, h: nat, f: (int, int) -> real) returns (out: array2<real>, ghost log: WriteLog)
    ensures fresh(out)
    ensures out.Length0 == w && out.Length1 == h
    ensures forall i, j :: 0 <= i < w && 0 <= j < h ==> out[i, j] == f(i, j)
    ensures WrittenOnce(log, w, h)
  {
    out := new real[w, h]((i, j) => 0.0);
    log := map[];
    var i := 0;
    while i < w
      invariant 0 <= i <= w
      invariant forall p, q :: 0 <= p < i && 0 <= q < h ==> out[p, q] == f(p, q)
      invariant forall p, q :: Writes(log, p, q) == if RowMajorBefore(p, q, i, 0, h) then 1 else 0
    {
      var j := 0;
      while j < h
        invariant 0 <= j <= h
        invariant forall p, q :: RowMajorBefore(p, q, i, j, h) ==> out[p, q] == f(p, q)
        invariant forall p, q :: Writes(log, p, q) == if RowMajorBefore(p, q, i, j, h) then 1 else 0
      {
        out[i, j] := f(i, j);
        log := Record(log, i, j);
        j := j + 1;
      }
      i := i + 1;
    }
  }
}

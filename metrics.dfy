/** The quality metrics: Shannon entropy of the positive coefficients
    (`entr`), the spatial frequency of one image (`spatial`) and of a pair of
    reference images (`spatial_reference`), the ratio of spatial-frequency
    error (`rSFe`) and the whole-image quality index (`IQI`). */
module Metrics {
  import opened Numerics
  import opened Matrices

  // ---------------------------------------------------------------- entropy

  /** The strictly positive entries of `s`, in order (`coeffs[coeffs > 0]`). */
  function Positives(s: seq<real>): (r: seq<real>)
    ensures forall k :: 0 <= k < |r| ==> 0.0 < r[k]
    ensures forall x :: x in r <==> x in s && 0.0 < x
    ensures forall x :: multiset(r)[x] == if 0.0 < x then multiset(s)[x] else 0
  {
    if s == [] then []
    else
      var init := Positives(s[..|s| - 1]);
      assert s == s[..|s| - 1] + [s[|s| - 1]];
      if 0.0 < s[|s| - 1] then init + [s[|s| - 1]] else init
  }

  /** The sum of p * log2(p) over p = x / total for every x in `ps`. */
  function PLogP(ps: seq<real>, total: real, m: Maths): real
    requires total != 0.0
  {
    if ps == [] then 0.0
    else
      var p := ps[|ps| - 1] / total;
      PLogP(ps[..|ps| - 1], total, m) + p * m.log2(p)
  }

  /** `entr`: minus the sum of p * log2(p) over the positive entries
      normalised to sum 1. With no positive entry numpy sums an empty array,
      which is 0. */
  function Entr(cells: seq<real>, m: Maths): (r: real)
    ensures (forall k :: 0 <= k < |cells| ==> cells[k] <= 0.0) ==> r == 0.0
  {
    var ps := Positives(cells);
    if |ps| == 0 then 0.0
    else
      assert ps[0] in ps;
      PositiveSum(ps);
      -PLogP(ps, SeqSum(ps), m)
  }

  /** A sequence of positive numbers has a positive sum that is at least
      each of its elements. */
  lemma {:induction false} PositiveSum(ps: seq<real>)
    requires |ps| > 0
    requires forall k :: 0 <= k < |ps| ==> 0.0 < ps[k]
    ensures 0.0 < SeqSum(ps)
    ensures forall k :: 0 <= k < |ps| ==> ps[k] <= SeqSum(ps)
  {
    if |ps| > 1 {
      PositiveSum(ps[..|ps| - 1]);
    }
  }

  lemma {:induction false} PLogPNonPositive(ps: seq<real>, total: real, m: Maths)
    requires Lawful(m) && 0.0 < total
    requires forall k :: 0 <= k < |ps| ==> 0.0 < ps[k] <= total
    ensures PLogP(ps, total, m) <= 0.0
  {
    if ps != [] {
      PLogPNonPositive(ps[..|ps| - 1], total, m);
      var p := ps[|ps| - 1] / total;
      ShareAtMostOne(ps[|ps| - 1], total);
      Log2NonPositive(m, p);
      MulMonoLeft(p, m.log2(p), 0.0);
    }
  }

  lemma ShareAtMostOne(x: real, total: real)
    requires 0.0 < x <= total
    ensures 0.0 < x / total <= 1.0
  {
    calc {
      x / total;
    <= { MulMonoLeft(1.0 / total, x, total); }
      total / total;
    ==
      1.0;
    }
  }

  /** The entropy is never negative: every normalised entry lies in (0, 1],
      where log2 is not positive. */
  lemma EntrNonNegative(cells: seq<real>, m: Maths)
    requires Lawful(m)
    ensures 0.0 <= Entr(cells, m)
  {
    var ps := Positives(cells);
    if |ps| > 0 {
      PositiveSum(ps);
      PLogPNonPositive(ps, SeqSum(ps), m);
    }
  }

  // ------------------------------------------------------ spatial frequency

  /** Pixel values after `int()`: the metrics see integers. */
  type Image = seq<seq<int>>

  predicate IsImage(img: Image, w: nat, h: nat)
  {
    |img| == w && forall i :: 0 <= i < w ==> |img[i]| == h
  }

  function Pixel(img: Image, i: int, j: int): int
  {
    if 0 <= i < |img| && 0 <= j < |img[i]| then img[i][j] else 0
  }

  function SqInt(x: int): (r: int)
    ensures 0 <= r
  {
    x * x
  }

  /** The four directions of neighbouring pixel pairs. */
  datatype Direction = Row | Column | MainDiagonal | SecondaryDiagonal

  /** Pixel (i, j) is paired with pixel (i + di, j + dj). */
  function Offset(d: Direction): (int, int)
  {
    match d
    case Row => (0, -1)
    case Column => (-1, 0)
    case MainDiagonal => (-1, -1)
    case SecondaryDiagonal => (-1, 1)
  }

  /** The half-open range of i visited for direction `d`. */
  function RowRange(d: Direction, w: int): (int, int)
  {
    if d == Row then (0, w) else (1, w)
  }

  /** The half-open range of j visited for direction `d`. */
  function ColumnRange(d: Direction, h: int): (int, int)
  {
    match d
    case Row => (1, h)
    case Column => (0, h)
    case MainDiagonal => (1, h)
    case SecondaryDiagonal => (0, h - 1)
  }

  /** The column and secondary-diagonal loops run over j outermost. */
  predicate ColumnMajor(d: Direction)
  {
    d == Column || d == SecondaryDiagonal
  }

  predicate InPairRange(d: Direction, w: int, h: int, i: int, j: int)
  {
    RowRange(d, w).0 <= i < RowRange(d, w).1 && ColumnRange(d, h).0 <= j < ColumnRange(d, h).1
  }

  /** Every visited pair lies inside the image. */
  lemma PairInside(d: Direction, w: int, h: int, i: int, j: int)
    requires InPairRange(d, w, h, i, j)
    ensures 0 <= i < w && 0 <= j < h
    ensures 0 <= i + Offset(d).0 < w && 0 <= j + Offset(d).1 < h
  {
  }

  /** The squared difference of pixel (i, j) and its neighbour along `d`. */
  function Gap(img: Image, d: Direction, i: int, j: int): int
  {
    SqInt(Pixel(img, i, j) - Pixel(img, i + Offset(d).0, j + Offset(d).1))
  }

  /** Sum of g(k) for lo <= k < hi, accumulated in increasing k. */
  function Sum(g: int -> int, lo: int, hi: int): int
    decreases hi - lo
  {
    if hi <= lo then 0 else Sum(g, lo, hi - 1) + g(hi - 1)
  }

  function RowSlice(term: (int, int) -> int, i: int): int -> int
  {
    j => term(i, j)
  }

  function ColumnSlice(term: (int, int) -> int, j: int): int -> int
  {
    i => term(i, j)
  }

  /** Inner-loop totals of a row-major double loop: row i's sum over j. */
  function RowTotals(term: (int, int) -> int, jLo: int, jHi: int): int -> int
  {
    i => Sum(RowSlice(term, i), jLo, jHi)
  }

  /** Inner-loop totals of a column-major double loop: column j's sum over i. */
  function ColumnTotals(term: (int, int) -> int, iLo: int, iHi: int): int -> int
  {
    j => Sum(ColumnSlice(term, j), iLo, iHi)
  }

  /** The total a direction's double loop accumulates, in its loop order. */
  function DirectionSum(term: (int, int) -> int, d: Direction, w: int, h: int): int
  {
    var (iLo, iHi) := RowRange(d, w);
    var (jLo, jHi) := ColumnRange(d, h);
    if ColumnMajor(d) then Sum(ColumnTotals(term, iLo, iHi), jLo, jHi)
    else Sum(RowTotals(term, jLo, jHi), iLo, iHi)
  }

  lemma {:induction false} SumMono(g1: int -> int, g2: int -> int, lo: int, hi: int)
    requires forall k :: lo <= k < hi ==> g1(k) <= g2(k)
    ensures Sum(g1, lo, hi) <= Sum(g2, lo, hi)
    decreases hi - lo
  {
    if lo < hi {
      SumMono(g1, g2, lo, hi - 1);
    }
  }

  lemma {:induction false} SumZero(g: int -> int, lo: int, hi: int)
    requires forall k :: lo <= k < hi ==> g(k) == 0
    ensures Sum(g, lo, hi) == 0
    decreases hi - lo
  {
    if lo < hi {
      SumZero(g, lo, hi - 1);
    }
  }

  /** A direction's total is monotone in the term it adds up. */
  lemma DirectionSumMono(t1: (int, int) -> int, t2: (int, int) -> int, d: Direction, w: int, h: int)
    requires forall i, j :: InPairRange(d, w, h, i, j) ==> t1(i, j) <= t2(i, j)
    ensures DirectionSum(t1, d, w, h) <= DirectionSum(t2, d, w, h)
  {
    var (iLo, iHi) := RowRange(d, w);
    var (jLo, jHi) := ColumnRange(d, h);
    if ColumnMajor(d) {
      forall j | jLo <= j < jHi
        ensures ColumnTotals(t1, iLo, iHi)(j) <= ColumnTotals(t2, iLo, iHi)(j)
      {
        SumMono(ColumnSlice(t1, j), ColumnSlice(t2, j), iLo, iHi);
      }
      SumMono(ColumnTotals(t1, iLo, iHi), ColumnTotals(t2, iLo, iHi), jLo, jHi);
    } else {
      forall i | iLo <= i < iHi
        ensures RowTotals(t1, jLo, jHi)(i) <= RowTotals(t2, jLo, jHi)(i)
      {
        SumMono(RowSlice(t1, i), RowSlice(t2, i), jLo, jHi);
      }
      SumMono(RowTotals(t1, jLo, jHi), RowTotals(t2, jLo, jHi), iLo, iHi);
    }
  }

  /** A direction whose every visited term is 0 totals 0. */
  lemma DirectionSumZero(term: (int, int) -> int, d: Direction, w: int, h: int)
    requires forall i, j :: InPairRange(d, w, h, i, j) ==> term(i, j) == 0
    ensures DirectionSum(term, d, w, h) == 0
  {
    var (iLo, iHi) := RowRange(d, w);
    var (jLo, jHi) := ColumnRange(d, h);
    if ColumnMajor(d) {
      forall j | jLo <= j < jHi
        ensures ColumnTotals(term, iLo, iHi)(j) == 0
      {
        SumZero(ColumnSlice(term, j), iLo, iHi);
      }
      SumZero(ColumnTotals(term, iLo, iHi), jLo, jHi);
    } else {
      forall i | iLo <= i < iHi
        ensures RowTotals(term, jLo, jHi)(i) == 0
      {
        SumZero(RowSlice(term, i), jLo, jHi);
      }
      SumZero(RowTotals(term, jLo, jHi), iLo, iHi);
    }
  }

  /** One inner loop: adds g(k) for k in range(lo, hi). */
  method LineSum(g: int -> int, lo: int, hi: int) returns (total: int)
    ensures total == Sum(g, lo, hi)
  {
    total := 0;
    var k := lo;
    while k < hi
      invariant lo <= k <= MaxInt(lo, hi)
      invariant total == Sum(g, lo, k)
      decreases hi - k
    {
      total := total + g(k);
      k := k + 1;
    }
    EmptySum(g, lo, hi);
  }

  /** The double loop of one direction, in that direction's loop order,
      adding `term(i, j)` for every visited pair. */
  method Accumulate(term: (int, int) -> int, d: Direction, w: int, h: int) returns (total: int)
    ensures total == DirectionSum(term, d, w, h)
  {
    var (iLo, iHi) := RowRange(d, w);
    var (jLo, jHi) := ColumnRange(d, h);
    total := 0;
    if ColumnMajor(d) {
      var j := jLo;
      while j < jHi
        invariant jLo <= j <= MaxInt(jLo, jHi)
        invariant total == Sum(ColumnTotals(term, iLo, iHi), jLo, j)
        decreases jHi - j
      {
        var line := LineSum(ColumnSlice(term, j), iLo, iHi);
        total := total + line;
        j := j + 1;
      }
      EmptySum(ColumnTotals(term, iLo, iHi), jLo, jHi);
    } else {
      var i := iLo;
      while i < iHi
        invariant iLo <= i <= MaxInt(iLo, iHi)
        invariant total == Sum(RowTotals(term, jLo, jHi), iLo, i)
        decreases iHi - i
      {
        var line := LineSum(RowSlice(term, i), jLo, jHi);
        total := total + line;
        i := i + 1;
      }
      EmptySum(RowTotals(term, jLo, jHi), iLo, iHi);
    }
  }

  /** A loop over `range(lo, hi)` that stops at max(lo, hi) has added the
      whole range, also when the range is empty. */
  lemma EmptySum(g: int -> int, lo: int, hi: int)
    ensures Sum(g, lo, MaxInt(lo, hi)) == Sum(g, lo, hi)
  {
  }

  /** The term `spatial` adds for a pair: its squared difference. */
  function GapTerm(img: Image, d: Direction): (int, int) -> int
  {
    (i, j) => Gap(img, d, i, j)
  }

  /** The term `spatial_reference` adds for a pair: the larger of the two
      images' squared differences. */
  function RefGapTerm(x: Image, y: Image, d: Direction): (int, int) -> int
  {
    (i, j) => MaxInt(Gap(x, d, i, j), Gap(y, d, i, j))
  }

  /** A direction's accumulated total divided by the pixel count, and the
      diagonal ones further by sqrt(2). */
  function Frequency(total: int, d: Direction, w: nat, h: nat, m: Maths): real
    requires Lawful(m) && 0 < w && 0 < h
  {
    var f := total as real / (w * h) as real;
    if d == MainDiagonal || d == SecondaryDiagonal then
      SqrtTwoPositive(m);
      f / m.sqrt(2.0)
    else f
  }

  function DirectionFrequency(img: Image, d: Direction, w: nat, h: nat, m: Maths): real
    requires Lawful(m) && 0 < w && 0 < h
  {
    Frequency(DirectionSum(GapTerm(img, d), d, w, h), d, w, h, m)
  }

  function RefDirectionFrequency(x: Image, y: Image, d: Direction, w: nat, h: nat, m: Maths): real
    requires Lawful(m) && 0 < w && 0 < h
  {
    Frequency(DirectionSum(RefGapTerm(x, y, d), d, w, h), d, w, h, m)
  }

  /** The square root of the product of four directional terms. */
  function RootOfProduct(a: real, b: real, c: real, d: real, m: Maths): real
  {
    m.sqrt(a * b * c * d)
  }

  /** What `spatial` returns: the square root of the product of the four
      directional terms. Python's integer division by w * h = 0 raises. */
  function SpatialFrequency(img: Image, w: nat, h: nat, m: Maths): (r: Result<real>)
    requires Lawful(m)
    ensures r.Err? <==> w == 0 || h == 0
    ensures r.Ok? ==> 0.0 <= r.value
  {
    if w == 0 || h == 0 then Err(ZeroDivision)
    else
      DirectionFrequencyNonNegative(img, Row, w, h, m);
      DirectionFrequencyNonNegative(img, Column, w, h, m);
      DirectionFrequencyNonNegative(img, MainDiagonal, w, h, m);
      DirectionFrequencyNonNegative(img, SecondaryDiagonal, w, h, m);
      RootOfProductNonNegative(DirectionFrequency(img, Row, w, h, m), DirectionFrequency(img, Column, w, h, m),
        DirectionFrequency(img, MainDiagonal, w, h, m), DirectionFrequency(img, SecondaryDiagonal, w, h, m), m);
      Ok(RootOfProduct(DirectionFrequency(img, Row, w, h, m), DirectionFrequency(img, Column, w, h, m),
        DirectionFrequency(img, MainDiagonal, w, h, m), DirectionFrequency(img, SecondaryDiagonal, w, h, m), m))
  }

  /** What `spatial_reference` returns: the same product over the larger of
      the two images' differences, its diagonal factors taken in the other
      order. */
  function SpatialReferenceFrequency(x: Image, y: Image, w: nat, h: nat, m: Maths): (r: Result<real>)
    requires Lawful(m)
    ensures r.Err? <==> w == 0 || h == 0
    ensures r.Ok? ==> 0.0 <= r.value
  {
    if w == 0 || h == 0 then Err(ZeroDivision)
    else
      RefDirectionDominates(x, y, Row, w, h, m);
      RefDirectionDominates(x, y, Column, w, h, m);
      RefDirectionDominates(x, y, MainDiagonal, w, h, m);
      RefDirectionDominates(x, y, SecondaryDiagonal, w, h, m);
      RootOfProductNonNegative(RefDirectionFrequency(x, y, Row, w, h, m), RefDirectionFrequency(x, y, Column, w, h, m),
        RefDirectionFrequency(x, y, SecondaryDiagonal, w, h, m), RefDirectionFrequency(x, y, MainDiagonal, w, h, m), m);
      Ok(RootOfProduct(RefDirectionFrequency(x, y, Row, w, h, m), RefDirectionFrequency(x, y, Column, w, h, m),
        RefDirectionFrequency(x, y, SecondaryDiagonal, w, h, m), RefDirectionFrequency(x, y, MainDiagonal, w, h, m), m))
  }

  /** Divides an accumulated total as `spatial` does: by the pixel count,
      and a diagonal total further by sqrt(2). */
  method Scale(total: int, d: Direction, w: nat, h: nat, m: Maths) returns (f: real)
    requires Lawful(m) && 0 < w && 0 < h
    ensures 0 <= total ==> 0.0 <= f
    ensures (d == Row || d == Column) ==> f * (w * h) as real == total as real
    ensures (d == MainDiagonal || d == SecondaryDiagonal) ==>
      f * m.sqrt(2.0) * (w * h) as real == total as real
    ensures f == Frequency(total, d, w, h, m)
  {
    var n := (w * h) as real;
    assert 0.0 < n;
    var q := total as real / n;
    assert q * n == total as real;
    f := q;
    if d == MainDiagonal || d == SecondaryDiagonal {
      SqrtTwoPositive(m);
      var r := m.sqrt(2.0);
      f := q / r;
      assert f * r == q;
    }
  }

  /** `spatial`: four direction loops, each in its own order. */
  method Spatial(img: Image, w: nat, h: nat, m: Maths) returns (r: Result<real>)
    requires IsImage(img, w, h) && Lawful(m)
    ensures r == SpatialFrequency(img, w, h, m)
  {
    var row := Accumulate(GapTerm(img, Row), Row, w, h);
    if w == 0 || h == 0 {
      return Err(ZeroDivision);
    }
    var fRow := Scale(row, Row, w, h, m);
    var column := Accumulate(GapTerm(img, Column), Column, w, h);
    var fColumn := Scale(column, Column, w, h, m);
    var dm := Accumulate(GapTerm(img, MainDiagonal), MainDiagonal, w, h);
    var fDm := Scale(dm, MainDiagonal, w, h, m);
    var ds := Accumulate(GapTerm(img, SecondaryDiagonal), SecondaryDiagonal, w, h);
    var fDs := Scale(ds, SecondaryDiagonal, w, h, m);
    r := Ok(RootOfProduct(fRow, fColumn, fDm, fDs, m));
  }

  /** `spatial_reference`: the same loops over a pair of same-shape images. */
  method SpatialReference(x: Image, y: Image, w: nat, h: nat, m: Maths) returns (r: Result<real>)
    requires IsImage(x, w, h) && IsImage(y, w, h) && Lawful(m)
    ensures r == SpatialReferenceFrequency(x, y, w, h, m)
  {
    var row := Accumulate(RefGapTerm(x, y, Row), Row, w, h);
    if w == 0 || h == 0 {
      return Err(ZeroDivision);
    }
    var fRow := Scale(row, Row, w, h, m);
    var column := Accumulate(RefGapTerm(x, y, Column), Column, w, h);
    var fColumn := Scale(column, Column, w, h, m);
    var dm := Accumulate(RefGapTerm(x, y, MainDiagonal), MainDiagonal, w, h);
    var fDm := Scale(dm, MainDiagonal, w, h, m);
    var ds := Accumulate(RefGapTerm(x, y, SecondaryDiagonal), SecondaryDiagonal, w, h);
    var fDs := Scale(ds, SecondaryDiagonal, w, h, m);
    r := Ok(RootOfProduct(fRow, fColumn, fDs, fDm, m));
  }

  /** Dividing a larger non-negative total gives a larger non-negative
      frequency. */
  lemma FrequencyMono(t1: int, t2: int, d: Direction, w: nat, h: nat, m: Maths)
    requires Lawful(m) && 0 < w && 0 < h && 0 <= t1 <= t2
    ensures 0.0 <= Frequency(t1, d, w, h, m) <= Frequency(t2, d, w, h, m)
  {
    var n := (w * h) as real;
    assert 0.0 < n;
    assert t1 as real / n <= t2 as real / n by { MulMonoLeft(1.0 / n, t1 as real, t2 as real); }
    assert 0.0 <= t1 as real / n;
    if d == MainDiagonal || d == SecondaryDiagonal {
      SqrtTwoPositive(m);
      var r := m.sqrt(2.0);
      MulMonoLeft(1.0 / r, t1 as real / n, t2 as real / n);
    }
  }

  /** A product of four non-negative factors grows with each factor. */
  lemma ProductMono(a: real, b: real, c: real, d: real, a': real, b': real, c': real, d': real)
    requires 0.0 <= a <= a' && 0.0 <= b <= b' && 0.0 <= c <= c' && 0.0 <= d <= d'
    ensures 0.0 <= a * b * c * d <= a' * b' * c' * d'
  {
    MulMonoLeft(a, b, b');
    MulMonoLeft(b', a, a');
    var ab, ab' := a * b, a' * b';
    assert 0.0 <= ab <= ab';
    MulMonoLeft(ab, c, c');
    MulMonoLeft(c', ab, ab');
    var abc, abc' := ab * c, ab' * c';
    assert 0.0 <= abc <= abc';
    MulMonoLeft(abc, d, d');
    MulMonoLeft(d', abc, abc');
  }

  lemma RootOfProductMono(a: real, b: real, c: real, d: real, a': real, b': real, c': real, d': real, m: Maths)
    requires Lawful(m)
    requires 0.0 <= a <= a' && 0.0 <= b <= b' && 0.0 <= c <= c' && 0.0 <= d <= d'
    ensures RootOfProduct(a, b, c, d, m) <= RootOfProduct(a', b', c', d', m)
  {
    ProductMono(a, b, c, d, a', b', c', d');
    SqrtMonotone(m, a * b * c * d, a' * b' * c' * d');
  }

  lemma RootOfProductNonNegative(a: real, b: real, c: real, d: real, m: Maths)
    requires Lawful(m) && 0.0 <= a && 0.0 <= b && 0.0 <= c && 0.0 <= d
    ensures 0.0 <= RootOfProduct(a, b, c, d, m)
  {
    ProductMono(0.0, 0.0, 0.0, 0.0, a, b, c, d);
  }

  lemma RootOfProductSwap(a: real, b: real, c: real, d: real, m: Maths)
    ensures RootOfProduct(a, b, c, d, m) == RootOfProduct(a, b, d, c, m)
  {
    assert a * b * c * d == a * b * d * c;
  }

  lemma RootOfProductZero(a: real, b: real, c: real, d: real, m: Maths)
    requires Lawful(m) && (a == 0.0 || b == 0.0 || c == 0.0 || d == 0.0)
    ensures RootOfProduct(a, b, c, d, m) == 0.0
  {
    assert a * b * c * d == 0.0;
    SqrtZero(m, 0.0);
  }

  /** Each directional total of `spatial_reference(X, Y)` is at least the
      matching total of `spatial(X)` and is not negative. */
  lemma RefDirectionDominates(x: Image, y: Image, d: Direction, w: nat, h: nat, m: Maths)
    requires Lawful(m) && 0 < w && 0 < h
    ensures 0.0 <= DirectionFrequency(x, d, w, h, m) <= RefDirectionFrequency(x, y, d, w, h, m)
    ensures 0.0 <= DirectionFrequency(y, d, w, h, m) <= RefDirectionFrequency(x, y, d, w, h, m)
  {
    var zero: (int, int) -> int := (i, j) => 0;
    DirectionSumMono(zero, GapTerm(x, d), d, w, h);
    DirectionSumMono(zero, GapTerm(y, d), d, w, h);
    DirectionSumZero(zero, d, w, h);
    DirectionSumMono(GapTerm(x, d), RefGapTerm(x, y, d), d, w, h);
    DirectionSumMono(GapTerm(y, d), RefGapTerm(x, y, d), d, w, h);
    FrequencyMono(DirectionSum(GapTerm(x, d), d, w, h), DirectionSum(RefGapTerm(x, y, d), d, w, h), d, w, h, m);
    FrequencyMono(DirectionSum(GapTerm(y, d), d, w, h), DirectionSum(RefGapTerm(x, y, d), d, w, h), d, w, h, m);
  }

  /** `spatial_reference(X, Y)` is at least `spatial(X)` and `spatial(Y)`. */
  lemma SpatialReferenceDominates(x: Image, y: Image, w: nat, h: nat, m: Maths)
    requires Lawful(m) && 0 < w && 0 < h
    ensures SpatialFrequency(x, w, h, m).Ok? && SpatialReferenceFrequency(x, y, w, h, m).Ok?
    ensures SpatialFrequency(x, w, h, m).value <= SpatialReferenceFrequency(x, y, w, h, m).value
    ensures SpatialFrequency(y, w, h, m).value <= SpatialReferenceFrequency(x, y, w, h, m).value
  {
    OneDominates(x, y, x, w, h, m);
    OneDominates(x, y, y, w, h, m);
  }

  lemma OneDominates(x: Image, y: Image, z: Image, w: nat, h: nat, m: Maths)
    requires Lawful(m) && 0 < w && 0 < h && (z == x || z == y)
    ensures SpatialFrequency(z, w, h, m).value <= SpatialReferenceFrequency(x, y, w, h, m).value
  {
    RefDirectionDominates(x, y, Row, w, h, m);
    RefDirectionDominates(x, y, Column, w, h, m);
    RefDirectionDominates(x, y, MainDiagonal, w, h, m);
    RefDirectionDominates(x, y, SecondaryDiagonal, w, h, m);
    var a, b, c, d := DirectionFrequency(z, Row, w, h, m), DirectionFrequency(z, Column, w, h, m),
      DirectionFrequency(z, MainDiagonal, w, h, m), DirectionFrequency(z, SecondaryDiagonal, w, h, m);
    var a', b', c', d' := RefDirectionFrequency(x, y, Row, w, h, m), RefDirectionFrequency(x, y, Column, w, h, m),
      RefDirectionFrequency(x, y, MainDiagonal, w, h, m), RefDirectionFrequency(x, y, SecondaryDiagonal, w, h, m);
    RootOfProductMono(a, b, c, d, a', b', c', d', m);
    RootOfProductSwap(a', b', c', d', m);
  }

  /** `spatial_reference(X, X)` equals `spatial(X)`: max(first, first) is
      first, and the product only swaps the diagonal factors. */
  lemma SpatialReferenceSelf(x: Image, w: nat, h: nat, m: Maths)
    requires Lawful(m)
    ensures SpatialReferenceFrequency(x, x, w, h, m) == SpatialFrequency(x, w, h, m)
  {
    if 0 < w && 0 < h {
      RefDirectionSelf(x, Row, w, h, m);
      RefDirectionSelf(x, Column, w, h, m);
      RefDirectionSelf(x, MainDiagonal, w, h, m);
      RefDirectionSelf(x, SecondaryDiagonal, w, h, m);
      var a, b, c, d := DirectionFrequency(x, Row, w, h, m), DirectionFrequency(x, Column, w, h, m),
        DirectionFrequency(x, MainDiagonal, w, h, m), DirectionFrequency(x, SecondaryDiagonal, w, h, m);
      RootOfProductSwap(a, b, c, d, m);
    }
  }

  lemma RefDirectionSelf(x: Image, d: Direction, w: nat, h: nat, m: Maths)
    requires Lawful(m) && 0 < w && 0 < h
    ensures RefDirectionFrequency(x, x, d, w, h, m) == DirectionFrequency(x, d, w, h, m)
  {
    DirectionSumMono(GapTerm(x, d), RefGapTerm(x, x, d), d, w, h);
    DirectionSumMono(RefGapTerm(x, x, d), GapTerm(x, d), d, w, h);
  }

  /** A constant image has spatial frequency 0. */
  lemma ConstantImageScoresZero(img: Image, w: nat, h: nat, m: Maths, v: int)
    requires Lawful(m) && IsImage(img, w, h) && 0 < w && 0 < h
    requires forall i, j :: 0 <= i < w && 0 <= j < h ==> img[i][j] == v
    ensures SpatialFrequency(img, w, h, m) == Ok(0.0)
  {
    forall i, j | InPairRange(Row, w, h, i, j) ensures GapTerm(img, Row)(i, j) == 0 {
      PairInside(Row, w, h, i, j);
    }
    DirectionSumZero(GapTerm(img, Row), Row, w, h);
    var a, b, c, d := DirectionFrequency(img, Row, w, h, m), DirectionFrequency(img, Column, w, h, m),
      DirectionFrequency(img, MainDiagonal, w, h, m), DirectionFrequency(img, SecondaryDiagonal, w, h, m);
    assert a == 0.0;
    RootOfProductZero(a, b, c, d, m);
  }

  /** Pixel (i, j) equals the one above it. */
  predicate SameAsAbove(img: Image, i: int, j: int)
  {
    Pixel(img, i, j) == Pixel(img, i - 1, j)
  }

  /** An image whose every vertically adjacent pair is equal scores 0, however
      much its rows vary: the product has a zero factor. */
  lemma FlatColumnsScoreZero(img: Image, w: nat, h: nat, m: Maths)
    requires Lawful(m) && IsImage(img, w, h) && 0 < w && 0 < h
    requires forall i, j :: 1 <= i < w && 0 <= j < h ==> SameAsAbove(img, i, j)
    ensures SpatialFrequency(img, w, h, m) == Ok(0.0)
  {
    FlatColumnsTotalZero(img, w, h);
    var a, b, c, d := DirectionFrequency(img, Row, w, h, m), DirectionFrequency(img, Column, w, h, m),
      DirectionFrequency(img, MainDiagonal, w, h, m), DirectionFrequency(img, SecondaryDiagonal, w, h, m);
    assert b == 0.0;
    RootOfProductZero(a, b, c, d, m);
  }

  lemma FlatColumnsTotalZero(img: Image, w: nat, h: nat)
    requires forall i, j :: 1 <= i < w && 0 <= j < h ==> SameAsAbove(img, i, j)
    ensures DirectionSum(GapTerm(img, Column), Column, w, h) == 0
  {
    forall i, j | InPairRange(Column, w, h, i, j) ensures GapTerm(img, Column)(i, j) == 0 {
      assert SameAsAbove(img, i, j);
    }
    DirectionSumZero(GapTerm(img, Column), Column, w, h);
  }

  /** Two rows of vertical stripes: every row has an edge, every column is
      flat. */
  const Stripes: Image := [[0, 255], [0, 255]]

  /** As written, `spatial` gives the striped image the score of a blank one. */
  lemma StripesScoreZero(m: Maths)
    requires Lawful(m)
    ensures IsImage(Stripes, 2, 2) && Stripes[0][0] != Stripes[0][1]
    ensures SpatialFrequency(Stripes, 2, 2, m) == Ok(0.0)
  {
    FlatColumnsScoreZero(Stripes, 2, 2, m);
  }

  /** The spatial frequency as the comment above the return of `spatial`
      defines it, sqrt(RF^2 + CF^2 + MDF^2 + SDF^2): the square root of the
      sum of the four directional terms rather than of their product. */
  function SpatialFrequencyOfSum(img: Image, w: nat, h: nat, m: Maths): Result<real>
    requires Lawful(m)
  {
    if w == 0 || h == 0 then Err(ZeroDivision)
    else
      Ok(m.sqrt(DirectionFrequency(img, Row, w, h, m) + DirectionFrequency(img, Column, w, h, m)
        + DirectionFrequency(img, MainDiagonal, w, h, m) + DirectionFrequency(img, SecondaryDiagonal, w, h, m)))
  }

  /** One term of a sum of non-negative terms is at most the sum. */
  lemma {:induction false} SumAtLeastTerm(g: int -> int, lo: int, hi: int, k: int)
    requires forall n :: lo <= n < hi ==> 0 <= g(n)
    requires lo <= k < hi
    ensures g(k) <= Sum(g, lo, hi)
    decreases hi - lo
  {
    if k < hi - 1 {
      SumAtLeastTerm(g, lo, hi - 1, k);
    } else {
      SumNonNegative(g, lo, hi - 1);
    }
  }

  lemma {:induction false} SumNonNegative(g: int -> int, lo: int, hi: int)
    requires forall n :: lo <= n < hi ==> 0 <= g(n)
    ensures 0 <= Sum(g, lo, hi)
    decreases hi - lo
  {
    if lo < hi {
      SumNonNegative(g, lo, hi - 1);
    }
  }

  /** A row edge (two horizontally adjacent pixels that differ) makes the
      row total positive. */
  lemma RowEdgePositive(img: Image, w: nat, h: nat, i: int, j: int)
    requires 0 <= i < w && 1 <= j < h && Gap(img, Row, i, j) > 0
    ensures DirectionSum(GapTerm(img, Row), Row, w, h) > 0
  {
    var term := GapTerm(img, Row);
    forall n | 0 <= n < w ensures 0 <= RowTotals(term, 1, h)(n) {
      SumNonNegative(RowSlice(term, n), 1, h);
    }
    SumAtLeastTerm(RowSlice(term, i), 1, h, j);
    SumAtLeastTerm(RowTotals(term, 1, h), 0, w, i);
  }

  /** Every direction total is at least 0. */
  lemma DirectionFrequencyNonNegative(img: Image, d: Direction, w: nat, h: nat, m: Maths)
    requires Lawful(m) && 0 < w && 0 < h
    ensures 0.0 <= DirectionFrequency(img, d, w, h, m)
  {
    RefDirectionDominates(img, img, d, w, h, m);
  }

  lemma SqIntPositive(x: int)
    requires x != 0
    ensures SqInt(x) > 0
  {
    if x < 0 {
      assert SqInt(x) == (-x) * (-x);
    }
  }

  /** With the sum, any row edge gives a positive spatial frequency. */
  lemma SumScoresRowEdges(img: Image, w: nat, h: nat, m: Maths, i: int, j: int)
    requires Lawful(m) && IsImage(img, w, h)
    requires 0 <= i < w && 1 <= j < h && img[i][j] != img[i][j - 1]
    ensures SpatialFrequencyOfSum(img, w, h, m).Ok?
    ensures SpatialFrequencyOfSum(img, w, h, m).value > 0.0
  {
    SqIntPositive(img[i][j] - img[i][j - 1]);
    RowEdgePositive(img, w, h, i, j);
    var a, b, c, d := DirectionFrequency(img, Row, w, h, m), DirectionFrequency(img, Column, w, h, m),
      DirectionFrequency(img, MainDiagonal, w, h, m), DirectionFrequency(img, SecondaryDiagonal, w, h, m);
    assert 0.0 < a by {
      var n := (w * h) as real;
      assert 0.0 < n;
      assert a == DirectionSum(GapTerm(img, Row), Row, w, h) as real / n;
    }
    DirectionFrequencyNonNegative(img, Column, w, h, m);
    DirectionFrequencyNonNegative(img, MainDiagonal, w, h, m);
    DirectionFrequencyNonNegative(img, SecondaryDiagonal, w, h, m);
    SqrtZero(m, a + b + c + d);
  }

  /** With the sum, the striped image scores above 0. */
  lemma StripesScorePositiveOfSum(m: Maths)
    requires Lawful(m)
    ensures SpatialFrequencyOfSum(Stripes, 2, 2, m).Ok?
    ensures SpatialFrequencyOfSum(Stripes, 2, 2, m).value > 0.0
  {
    SumScoresRowEdges(Stripes, 2, 2, m, 0, 1);
  }

  // ------------------------------------------------------------------ rSFe

  /** `rSFe`: the relative error of a spatial frequency against the
      reference one. Python's float division by 0.0 raises. A positive
      value means the fused image has more detail than the references
      (over-fused), a negative one less (under-fused). */
  function RSFe(input: real, reference: real): (r: Result<real>)
    ensures r.Err? <==> reference == 0.0
    ensures 0.0 < reference && r.Ok? ==> (0.0 < r.value <==> reference < input)
    ensures 0.0 < reference && r.Ok? ==> (r.value == 0.0 <==> input == reference)
    ensures 0.0 < reference && r.Ok? ==> (r.value < 0.0 <==> input < reference)
  {
    if reference == 0.0 then Err(ZeroDivision)
    else
      var e := (input - reference) / reference;
      assert 0.0 < reference ==> (0.0 < e <==> reference < input) by {
        if 0.0 < reference {
          DivSign(input - reference, reference);
        }
      }
      Ok(e)
  }

  /** Dividing by a positive number keeps the sign. */
  lemma DivSign(x: real, y: real)
    requires 0.0 < y
    ensures 0.0 < x / y <==> 0.0 < x
    ensures x / y == 0.0 <==> x == 0.0
    ensures x / y < 0.0 <==> x < 0.0
  {
    assert x == (x / y) * y;
    if 0.0 < x / y {
      MulStrictLeft(y, 0.0, x / y);
    } else if x / y < 0.0 {
      MulStrictLeft(y, x / y, 0.0);
    }
  }

  // ------------------------------------------------------------------- IQI

  /** Cells (X[i, j] - xMean) * (Y[i, j] - yMean). */
  function CrossDeviations(x: Matrix, y: Matrix, xMean: real, yMean: real): (r: Matrix)
    requires SameShape(x, y)
    ensures SameShape(r, x)
  {
    Zip(x, y, (a, b) => (a - xMean) * (b - yMean))
  }

  /** The correlation factor: 0 when either standard deviation is 0. */
  function Correlation(cov: real, sx: real, sy: real): real
  {
    if sx * sy == 0.0 then 0.0 else cov / (sx * sy)
  }

  /** The three factors of the index from the means, the three accumulated
      sums and the divisor they are taken over. numpy's 0/0 and x/0 give NaN
      and infinity. */
  function QualityIndex(xMean: real, yMean: real, sxx: real, syy: real, sxy: real, n: real, m: Maths): (r: Result<real>)
    requires n != 0.0
    ensures r.Ok? <==> (xMean != 0.0 || yMean != 0.0) && sxx + syy != 0.0
    ensures r.Err? ==> r.error == ZeroDivision
  {
    var vx, vy, cov := sxx / n, syy / n, sxy / n;
    var sx, sy := m.sqrt(vx), m.sqrt(vy);
    SumOfSquaresZero(xMean, yMean);
    assert vx + vy == (sxx + syy) / n;
    if xMean * xMean + yMean * yMean == 0.0 || vx + vy == 0.0 then Err(ZeroDivision)
    else Ok(Correlation(cov, sx, sy) * Luminance(xMean, yMean) * Contrast(sx, sy, vx, vy))
  }

  /** Two squares add up to 0 only when both roots are 0. */
  lemma SumOfSquaresZero(a: real, b: real)
    ensures a * a + b * b == 0.0 <==> a == 0.0 && b == 0.0
  {
    if a != 0.0 || b != 0.0 {
      SqPositive(if a != 0.0 then a else b);
      assert Sq(a) + Sq(b) > 0.0;
    }
  }

  /** The mean-luminance factor. */
  function Luminance(xMean: real, yMean: real): real
    requires xMean * xMean + yMean * yMean != 0.0
  {
    (2.0 * xMean * yMean) / (xMean * xMean + yMean * yMean)
  }

  /** The contrast factor. */
  function Contrast(sx: real, sy: real, vx: real, vy: real): real
    requires vx + vy != 0.0
  {
    (2.0 * sx * sy) / (vx + vy)
  }

  /** What `IQI(X, Y)` returns: the sums of squared deviations and of
      cross-deviations from the means, each divided by w + h - 1, combined
      into correlation, mean luminance and contrast. An empty image makes
      the mean NaN (or the divisor 0). */
  function Iqi(x: Matrix, y: Matrix, m: Maths): (r: Result<real>)
    requires SameShape(x, y)
    ensures r.Ok? <==> (
      0 < Width(x) && 0 < Height(x) && (Mean(x) != 0.0 || Mean(y) != 0.0) &&
      BoxSum(SquaredDeviations(x, Mean(x)), 0, Width(x), 0, Height(x)) +
      BoxSum(SquaredDeviations(y, Mean(y)), 0, Width(x), 0, Height(x)) != 0.0)
    ensures r.Err? ==> r.error == ZeroDivision
  {
    var w, h := Width(x), Height(x);
    if w == 0 || h == 0 then Err(ZeroDivision)
    else
      var xMean, yMean := Mean(x), Mean(y);
      QualityIndex(xMean, yMean,
        BoxSum(SquaredDeviations(x, xMean), 0, w, 0, h),
        BoxSum(SquaredDeviations(y, yMean), 0, w, 0, h),
        BoxSum(CrossDeviations(x, y, xMean, yMean), 0, w, 0, h),
        (w + h - 1) as real, m)
  }

  /** `IQI`: one row-major double loop accumulating the three sums, then
      the three factors. */
  method ImageQualityIndex(x: Matrix, y: Matrix, m: Maths) returns (r: Result<real>)
    requires SameShape(x, y)
    ensures r == Iqi(x, y, m)
  {
    var xMean, yMean := Mean(x), Mean(y);
    var w, h := Width(x), Height(x);
    if w == 0 || h == 0 {
      return Err(ZeroDivision);
    }
    var sxx, syy, sxy := 0.0, 0.0, 0.0;
    var i := 0;
    while i < w
      invariant 0 <= i <= w
      invariant sxx == BoxSum(SquaredDeviations(x, xMean), 0, i, 0, h)
      invariant syy == BoxSum(SquaredDeviations(y, yMean), 0, i, 0, h)
      invariant sxy == BoxSum(CrossDeviations(x, y, xMean, yMean), 0, i, 0, h)
    {
      sxx, syy, sxy := AddRow(x, y, xMean, yMean, i, sxx, syy, sxy);
      i := i + 1;
    }
    r := QualityIndex(xMean, yMean, sxx, syy, sxy, (w + h - 1) as real, m);
  }

  /** The inner loop of `IQI` over row i. */
  method AddRow(x: Matrix, y: Matrix, xMean: real, yMean: real, i: nat, sxx0: real, syy0: real, sxy0: real)
    returns (sxx: real, syy: real, sxy: real)
    requires SameShape(x, y) && i < Width(x)
    ensures sxx == sxx0 + RowBox(SquaredDeviations(x, xMean), i, 0, Height(x))
    ensures syy == syy0 + RowBox(SquaredDeviations(y, yMean), i, 0, Height(x))
    ensures sxy == sxy0 + RowBox(CrossDeviations(x, y, xMean, yMean), i, 0, Height(x))
  {
    sxx, syy, sxy := sxx0, syy0, sxy0;
    var j := 0;
    while j < Height(x)
      invariant 0 <= j <= Height(x)
      invariant sxx == sxx0 + RowBox(SquaredDeviations(x, xMean), i, 0, j)
      invariant syy == syy0 + RowBox(SquaredDeviations(y, yMean), i, 0, j)
      invariant sxy == sxy0 + RowBox(CrossDeviations(x, y, xMean, yMean), i, 0, j)
    {
      sxx := sxx + Sq(x[i][j] - xMean);
      syy := syy + Sq(y[i][j] - yMean);
      sxy := sxy + (x[i][j] - xMean) * (y[i][j] - yMean);
      j := j + 1;
    }
  }

  /** The cross-deviations of an image with itself are its squared
      deviations. */
  lemma CrossOfSelf(x: Matrix, mean: real)
    requires Rectangular(x)
    ensures CrossDeviations(x, x, mean, mean) == SquaredDeviations(x, mean)
  {
    var c, d := CrossDeviations(x, x, mean, mean), SquaredDeviations(x, mean);
    forall i | 0 <= i < |x| ensures c[i] == d[i] {
      assert |c[i]| == |d[i]| == Height(x);
      forall j | 0 <= j < Height(x) ensures c[i][j] == d[i][j] {
        var v := x[i][j] - mean;
        assert c[i][j] == v * v;
        assert d[i][j] == Sq(v);
      }
    }
  }

  lemma CrossSwap(x: Matrix, y: Matrix, xMean: real, yMean: real)
    requires SameShape(x, y)
    ensures CrossDeviations(x, y, xMean, yMean) == CrossDeviations(y, x, yMean, xMean)
  {
    var c, d := CrossDeviations(x, y, xMean, yMean), CrossDeviations(y, x, yMean, xMean);
    forall i | 0 <= i < |x| ensures c[i] == d[i] {
      forall j | 0 <= j < Height(x) ensures c[i][j] == d[i][j] {
      }
    }
  }

  /** The index of an image against itself, when its mean and its variance
      are not 0, is 1: each of the three factors is 1. */
  lemma QualityIndexSelf(mean: real, s: real, n: real, m: Maths)
    requires Lawful(m) && mean != 0.0 && 0.0 < s && 0.0 < n
    ensures QualityIndex(mean, mean, s, s, s, n, m) == Ok(1.0)
  {
    var v := s / n;
    assert 0.0 < v;
    var sd := m.sqrt(v);
    SqrtZero(m, v);
    assert sd * sd == v;
    assert Correlation(v, sd, sd) == v / v == 1.0;
    SqPositive(mean);
    var q := mean * mean;
    assert q + q != 0.0;
    assert 2.0 * mean * mean == q + q;
    assert Luminance(mean, mean) == (q + q) / (q + q) == 1.0;
    assert Contrast(sd, sd, v, v) == 1.0;
  }

  /** `IQI(X, X)` is 1 when X's mean is not 0 and X is not constant. */
  lemma IqiSelf(x: Matrix, m: Maths)
    requires Lawful(m) && Rectangular(x) && 0 < Width(x) && 0 < Height(x)
    requires Mean(x) != 0.0
    requires BoxSum(SquaredDeviations(x, Mean(x)), 0, Width(x), 0, Height(x)) != 0.0
    ensures Iqi(x, x, m) == Ok(1.0)
  {
    var dx := SquaredDeviations(x, Mean(x));
    SquaredDeviationsNonNegative(x, Mean(x));
    BoxSumNonNegative(dx, 0, Width(x), 0, Height(x));
    CrossOfSelf(x, Mean(x));
    QualityIndexSelf(Mean(x), BoxSum(dx, 0, Width(x), 0, Height(x)), (Width(x) + Height(x) - 1) as real, m);
  }

  /** A zero standard deviation on either side makes the correlation, and
      so the index, 0. */
  lemma QualityIndexFlat(xMean: real, yMean: real, sxx: real, syy: real, sxy: real, n: real, m: Maths)
    requires Lawful(m) && n != 0.0 && (sxx == 0.0 || syy == 0.0)
    ensures QualityIndex(xMean, yMean, sxx, syy, sxy, n, m).Ok? ==>
      QualityIndex(xMean, yMean, sxx, syy, sxy, n, m).value == 0.0
  {
    var sx, sy := m.sqrt(sxx / n), m.sqrt(syy / n);
    if sxx == 0.0 {
      SqrtZero(m, sxx / n);
      assert sx * sy == 0.0;
    } else {
      SqrtZero(m, syy / n);
      assert sx * sy == 0.0;
    }
  }

  /** `IQI(X, Y)` is 0 whenever it is defined and X or Y is constant. */
  lemma IqiFlat(x: Matrix, y: Matrix, m: Maths)
    requires Lawful(m) && SameShape(x, y)
    requires BoxSum(SquaredDeviations(x, Mean(x)), 0, Width(x), 0, Height(x)) == 0.0 ||
      BoxSum(SquaredDeviations(y, Mean(y)), 0, Width(x), 0, Height(x)) == 0.0
    ensures Iqi(x, y, m).Ok? ==> Iqi(x, y, m).value == 0.0
  {
    var w, h := Width(x), Height(x);
    if 0 < w && 0 < h {
      QualityIndexFlat(Mean(x), Mean(y),
        BoxSum(SquaredDeviations(x, Mean(x)), 0, w, 0, h), BoxSum(SquaredDeviations(y, Mean(y)), 0, w, 0, h),
        BoxSum(CrossDeviations(x, y, Mean(x), Mean(y)), 0, w, 0, h), (w + h - 1) as real, m);
    }
  }

  lemma QualityIndexSymmetric(xMean: real, yMean: real, sxx: real, syy: real, sxy: real, n: real, m: Maths)
    requires n != 0.0
    ensures QualityIndex(xMean, yMean, sxx, syy, sxy, n, m) == QualityIndex(yMean, xMean, syy, sxx, sxy, n, m)
  {
    var sx, sy := m.sqrt(sxx / n), m.sqrt(syy / n);
    assert sx * sy == sy * sx;
    assert Correlation(sxy / n, sx, sy) == Correlation(sxy / n, sy, sx);
    var lx, ly := xMean * xMean, yMean * yMean;
    assert lx + ly == ly + lx;
    if lx + ly != 0.0 && sxx / n + syy / n != 0.0 {
      var c := Correlation(sxy / n, sx, sy);
      var l, k := Luminance(xMean, yMean), Contrast(sx, sy, sxx / n, syy / n);
      assert l == Luminance(yMean, xMean) by {
        assert 2.0 * xMean * yMean == 2.0 * yMean * xMean;
      }
      assert k == Contrast(sy, sx, syy / n, sxx / n) by {
        assert 2.0 * sx * sy == 2.0 * sy * sx;
      }
      assert QualityIndex(xMean, yMean, sxx, syy, sxy, n, m).Ok?;
      assert QualityIndex(xMean, yMean, sxx, syy, sxy, n, m).value == c * l * k;
      assert QualityIndex(yMean, xMean, syy, sxx, sxy, n, m).Ok?;
      assert QualityIndex(yMean, xMean, syy, sxx, sxy, n, m).value
        == Correlation(sxy / n, sy, sx) * Luminance(yMean, xMean) * Contrast(sy, sx, syy / n, sxx / n)
        == c * l * k;
    }
  }

  /** `IQI` is symmetric in its two images. */
  lemma IqiSymmetric(x: Matrix, y: Matrix, m: Maths)
    requires SameShape(x, y)
    ensures Iqi(x, y, m) == Iqi(y, x, m)
  {
    var w, h := Width(x), Height(x);
    if 0 < w && 0 < h {
      CrossSwap(x, y, Mean(x), Mean(y));
      QualityIndexSymmetric(Mean(x), Mean(y),
        BoxSum(SquaredDeviations(x, Mean(x)), 0, w, 0, h), BoxSum(SquaredDeviations(y, Mean(y)), 0, w, 0, h),
        BoxSum(CrossDeviations(x, y, Mean(x), Mean(y)), 0, w, 0, h), (w + h - 1) as real, m);
    }
  }
}

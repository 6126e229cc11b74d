/** The loop-based fusion strategies for single-band coefficient arrays
    (fusionStrategysGray.py): the weighted minimum and maximum, the
    entropy-weighted blend, the MACD scheme (activity, match, decision),
    the edge-entropy blend and the tile-wise standard-deviation blend.

    Input bands are values; every strategy whose source fills a fresh
    `np.zeros` / `np.empty` array cell by cell writes an `array2` here and
    returns a ghost record showing that each cell was assigned once. */
module GrayStrategies {
  import opened Numerics
  import opened Matrices
  import opened CellRules
  import opened Tiles
  import opened Metrics

  // ------------------------------------------------------------ Min, Max

  /** `minimGray`: every cell of a fresh array shaped like `c1` gets the
      weighted minimum of the two coefficients, which lies between them. */
  method MinimGray(c1: Matrix, c2: Matrix) returns (out: array2<real>, ghost log: WriteLog)
    requires SameShape(c1, c2)
    ensures fresh(out)
    ensures out.Length0 == Width(c1) && out.Length1 == Height(c1)
    ensures forall i, j :: 0 <= i < Width(c1) && 0 <= j < Height(c1) ==>
      out[i, j] == MinimCell(c1[i][j], c2[i][j]) && Min(c1[i][j], c2[i][j]) <= out[i, j] <= Max(c1[i][j], c2[i][j])
    ensures WrittenOnce(log, Width(c1), Height(c1))
  {
    out, log := FillCells(Width(c1), Height(c1), (i, j) => MinimCell(At(c1, i, j), At(c2, i, j)));
    forall i, j | 0 <= i < Width(c1) && 0 <= j < Height(c1)
      ensures Min(c1[i][j], c2[i][j]) <= out[i, j] <= Max(c1[i][j], c2[i][j])
    {
      MinimCellBetween(c1[i][j], c2[i][j]);
    }
  }

  /** `maximGray`: the same loop with the weighted maximum. */
  method MaximGray(c1: Matrix, c2: Matrix) returns (out: array2<real>, ghost log: WriteLog)
    requires SameShape(c1, c2)
    ensures fresh(out)
    ensures out.Length0 == Width(c1) && out.Length1 == Height(c1)
    ensures forall i, j :: 0 <= i < Width(c1) && 0 <= j < Height(c1) ==>
      out[i, j] == MaximCell(c1[i][j], c2[i][j]) && Min(c1[i][j], c2[i][j]) <= out[i, j] <= Max(c1[i][j], c2[i][j])
    ensures WrittenOnce(log, Width(c1), Height(c1))
  {
    out, log := FillCells(Width(c1), Height(c1), (i, j) => MaximCell(At(c1, i, j), At(c2, i, j)));
    forall i, j | 0 <= i < Width(c1) && 0 <= j < Height(c1)
      ensures Min(c1[i][j], c2[i][j]) <= out[i, j] <= Max(c1[i][j], c2[i][j])
    {
      MaximCellBetween(c1[i][j], c2[i][j]);
    }
  }

  // ------------------------------------------------------- entropy blends

  /** Both bands blended by two weights: by their shares when the weights
      add up to something other than 0, as the midpoint otherwise. */
  function WeightedOrAverage(c1: Matrix, c2: Matrix, e1: real, e2: real): (r: Matrix)
    requires SameShape(c1, c2)
    ensures SameShape(r, c1)
  {
    if e1 + e2 == 0.0 then Zip(c1, c2, Average)
    else Zip(c1, c2, (a, b) => ShareBlend(a, b, e1, e2))
  }

  /** With non-negative weights every cell lies between the two inputs;
      with weights adding up to 0 it is their midpoint. */
  lemma WeightedOrAverageBetween(c1: Matrix, c2: Matrix, e1: real, e2: real)
    requires SameShape(c1, c2) && 0.0 <= e1 && 0.0 <= e2
    ensures forall i, j :: 0 <= i < Width(c1) && 0 <= j < Height(c1) ==>
      Min(c1[i][j], c2[i][j]) <= WeightedOrAverage(c1, c2, e1, e2)[i][j] <= Max(c1[i][j], c2[i][j])
    ensures e1 + e2 == 0.0 ==> forall i, j :: 0 <= i < Width(c1) && 0 <= j < Height(c1) ==>
      WeightedOrAverage(c1, c2, e1, e2)[i][j] == (c1[i][j] + c2[i][j]) / 2.0
  {
    var r := WeightedOrAverage(c1, c2, e1, e2);
    forall i, j | 0 <= i < Width(c1) && 0 <= j < Height(c1)
      ensures Min(c1[i][j], c2[i][j]) <= r[i][j] <= Max(c1[i][j], c2[i][j])
    {
      if e1 + e2 != 0.0 {
        ShareBlendBetween(c1[i][j], c2[i][j], e1, e2);
      }
    }
  }

  /** `coeffsEntropyGray`: each band weighted by the entropy of its
      coefficients (the same computation as `entr`), the midpoint when both
      entropies are 0. */
  function CoeffsEntropyGray(c1: Matrix, c2: Matrix, m: Maths): (r: Matrix)
    requires SameShape(c1, c2)
    ensures SameShape(r, c1)
  {
    WeightedOrAverage(c1, c2, Entr(Flatten(c1), m), Entr(Flatten(c2), m))
  }

  /** Entropies are never negative, so the entropy blend is convex: each
      cell lies between the two input cells. */
  lemma CoeffsEntropyGrayBetween(c1: Matrix, c2: Matrix, m: Maths)
    requires SameShape(c1, c2) && Lawful(m)
    ensures forall i, j :: 0 <= i < Width(c1) && 0 <= j < Height(c1) ==>
      Min(c1[i][j], c2[i][j]) <= CoeffsEntropyGray(c1, c2, m)[i][j] <= Max(c1[i][j], c2[i][j])
  {
    EntrNonNegative(Flatten(c1), m);
    EntrNonNegative(Flatten(c2), m);
    WeightedOrAverageBetween(c1, c2, Entr(Flatten(c1), m), Entr(Flatten(c2), m));
  }

  /** When neither band has a positive coefficient both entropies are 0 and
      the result is the midpoint of the bands. */
  lemma CoeffsEntropyGrayFallback(c1: Matrix, c2: Matrix, m: Maths)
    requires SameShape(c1, c2)
    requires forall i, j :: 0 <= i < Width(c1) && 0 <= j < Height(c1) ==> c1[i][j] <= 0.0 && c2[i][j] <= 0.0
    ensures forall i, j :: 0 <= i < Width(c1) && 0 <= j < Height(c1) ==>
      CoeffsEntropyGray(c1, c2, m)[i][j] == (c1[i][j] + c2[i][j]) / 2.0
  {
    NonPositiveCells(c1);
    NonPositiveCells(c2);
  }

  /** A matrix with no positive cell flattens to a sequence with no
      positive element. */
  lemma {:induction false} NonPositiveCells(c: Matrix)
    requires Rectangular(c)
    requires forall i, j :: 0 <= i < Width(c) && 0 <= j < Height(c) ==> c[i][j] <= 0.0
    ensures forall k :: 0 <= k < |Flatten(c)| ==> Flatten(c)[k] <= 0.0
    decreases |c|
  {
    if c != [] {
      var w := |c|;
      var init := c[..w - 1];
      assert Rectangular(init) by {
        assert forall i :: 0 <= i < |init| ==> init[i] == c[i];
      }
      if init != [] {
        assert Height(init) == Height(c);
      }
      NonPositiveCells(init);
      var f := Flatten(init);
      assert Flatten(c) == f + c[w - 1];
      forall k | 0 <= k < |Flatten(c)|
        ensures Flatten(c)[k] <= 0.0
      {
        if |f| <= k {
          assert Flatten(c)[k] == c[w - 1][k - |f|];
        }
      }
    }
  }

  /** `edgeDetection`: each band weighted by the entropy of its Sobel
      edges, the midpoint unless the entropy sum is positive. */
  function EdgeDetectionGray(c1: Matrix, c2: Matrix, im: Imaging, m: Maths): (r: Matrix)
    requires SameShape(c1, c2)
    ensures SameShape(r, c1)
  {
    var e1, e2 := Entr(Flatten(im.sobel(c1)), m), Entr(Flatten(im.sobel(c2)), m);
    if e1 + e2 > 0.0 then Zip(c1, c2, (a, b) => ShareBlend(a, b, e1, e2))
    else Zip(c1, c2, Average)
  }

  /** The edge blend is convex as well. */
  lemma EdgeDetectionGrayBetween(c1: Matrix, c2: Matrix, im: Imaging, m: Maths)
    requires SameShape(c1, c2) && Lawful(m)
    ensures forall i, j :: 0 <= i < Width(c1) && 0 <= j < Height(c1) ==>
      Min(c1[i][j], c2[i][j]) <= EdgeDetectionGray(c1, c2, im, m)[i][j] <= Max(c1[i][j], c2[i][j])
  {
    var e1, e2 := Entr(Flatten(im.sobel(c1)), m), Entr(Flatten(im.sobel(c2)), m);
    EntrNonNegative(Flatten(im.sobel(c1)), m);
    EntrNonNegative(Flatten(im.sobel(c2)), m);
    WeightedOrAverageBetween(c1, c2, e1, e2);
    assert EdgeDetectionGray(c1, c2, im, m) == WeightedOrAverage(c1, c2, e1, e2);
  }

  // ------------------------------------------------------------------ MACD

  /** The normalised product of the match step: a * b / (|a|^2 + |b|^2),
      or a * b (which is then 0) when both are 0. */
  function NormalisedProductGray(a: real, b: real): (r: real)
    ensures Abs(r) <= 0.5
  {
    var d := Sq(Abs(a)) + Sq(Abs(b));
    if d == 0.0 then
      assert a == 0.0 by { if a != 0.0 { SqPositive(Abs(a)); } }
      a * b
    else
      NormalisedProductBound(a, b, 0.0);
      a * b / d
  }

  /** `mult` of `Match`: the normalised products of corresponding cells. */
  function MultGray(c1: Matrix, c2: Matrix): (r: Matrix)
    requires SameShape(c1, c2)
    ensures SameShape(r, c1)
  {
    Zip(c1, c2, NormalisedProductGray)
  }

  /** `window`: the sum of `mult` over rows a - size .. a + size - 1 and
      columns b - size .. b + size - 1, skipping indices outside `c1`'s
      shape. */
  method Window(c1: Matrix, c2: Matrix, a: int, b: int, mult: Matrix, size: int) returns (res: real)
    requires SameShape(c1, mult)
    ensures res == BoxSum(mult, a - size, a + size, b - size, b + size)
  {
    var w, h := Width(c1), Height(c1);
    res := 0.0;
    var i := a - size;
    while i < a + size
      invariant a - size <= i <= MaxInt(a - size, a + size)
      invariant res == BoxSum(mult, a - size, i, b - size, b + size)
    {
      var j := b - size;
      while j < b + size
        invariant b - size <= j <= b + size
        invariant res == BoxSum(mult, a - size, i, b - size, b + size) + RowBox(mult, i, b - size, j)
      {
        if 0 <= i < w && 0 <= j < h {
          res := res + mult[i][j];
        }
        j := j + 1;
      }
      i := i + 1;
    }
  }

  /** A window over an all-zero `mult` sums to 0. */
  lemma WindowOfZeros(mult: Matrix, a: int, b: int, size: int)
    requires forall p, q :: 0 <= p < |mult| && 0 <= q < |mult[p]| ==> mult[p][q] == 0.0
    ensures BoxSum(mult, a - size, a + size, b - size, b + size) == 0.0
  {
    BoxSumZero(mult, a - size, a + size, b - size, b + size);
  }

  /** What `Match` computes: the window sum of size 5 at every cell. */
  function MatchGrid(c1: Matrix, c2: Matrix): Matrix
    requires SameShape(c1, c2)
  {
    var mult := MultGray(c1, c2);
    Grid(Width(c1), Height(c1), (i, j) => BoxSum(mult, i - 5, i + 5, j - 5, j + 5))
  }

  /** `Match`: a double loop calling `window` for every cell. */
  method MatchGray(c1: Matrix, c2: Matrix) returns (out: array2<real>, ghost log: WriteLog)
    requires SameShape(c1, c2)
    ensures fresh(out)
    ensures out.Length0 == Width(c1) && out.Length1 == Height(c1)
    ensures ToMatrix(out) == MatchGrid(c1, c2)
    ensures WrittenOnce(log, Width(c1), Height(c1))
  {
    var w, h := Width(c1), Height(c1);
    out := new real[w, h]((i, j) => 0.0);
    log := map[];
    var mult := MultGray(c1, c2);
    var i := 0;
    while i < w
      invariant 0 <= i <= w
      invariant forall p, q :: 0 <= p < i && 0 <= q < h ==> out[p, q] == BoxSum(mult, p - 5, p + 5, q - 5, q + 5)
      invariant forall p, q :: Writes(log, p, q) == if RowMajorBefore(p, q, i, 0, h) then 1 else 0
    {
      log := MatchRow(c1, c2, mult, out, i, log);
      i := i + 1;
    }
    MatchGridCells(c1, c2, mult, ToMatrix(out));
  }

  /** A w-by-h matrix holding the window sums of `Match` is its grid. */
  lemma MatchGridCells(c1: Matrix, c2: Matrix, mult: Matrix, got: Matrix)
    requires SameShape(c1, c2) && mult == MultGray(c1, c2) && IsMatrix(got, Width(c1), Height(c1))
    requires forall p, q :: 0 <= p < Width(c1) && 0 <= q < Height(c1) ==>
      got[p][q] == BoxSum(mult, p - 5, p + 5, q - 5, q + 5)
    ensures got == MatchGrid(c1, c2)
  {
    SameCells(got, MatchGrid(c1, c2), Width(c1), Height(c1));
  }

  /** The inner loop of `Match` over row i. */
  method MatchRow(c1: Matrix, c2: Matrix, mult: Matrix, out: array2<real>, i: int, ghost log0: WriteLog)
    returns (ghost log: WriteLog)
    requires SameShape(c1, mult) && out.Length0 == Width(c1) && out.Length1 == Height(c1) && 0 <= i < Width(c1)
    modifies out
    ensures forall p, q :: 0 <= p < out.Length0 && 0 <= q < out.Length1 ==>
      out[p, q] == if p == i then BoxSum(mult, p - 5, p + 5, q - 5, q + 5) else old(out[p, q])
    ensures forall p, q :: Writes(log, p, q) == Writes(log0, p, q) + if p == i && 0 <= q < Height(c1) then 1 else 0
  {
    log := log0;
    var j := 0;
    while j < Height(c1)
      invariant 0 <= j <= Height(c1)
      invariant forall p, q :: 0 <= p < out.Length0 && 0 <= q < out.Length1 ==>
        out[p, q] == if p == i && q < j then BoxSum(mult, p - 5, p + 5, q - 5, q + 5) else old(out[p, q])
      invariant forall p, q :: Writes(log, p, q) == Writes(log0, p, q) + if p == i && 0 <= q < j then 1 else 0
    {
      out[i, j] := Window(c1, c2, i, j, mult, 5);
      log := Record(log, i, j);
      j := j + 1;
    }
  }

  /** The match value below which the decision is 0. */
  const MatchFloor: real := 0.00001

  /** One cell of `Decision`: 0 when the activities add up to 0 or the
      match is at most 1e-5, 1/2 when the match is above `fract` times the
      mean match, and otherwise the first activity's share. */
  function DecisionCellGray(a1: real, a2: real, matchValue: real, mean: real, fract: real): (r: real)
    ensures 0.0 <= a1 && 0.0 <= a2 ==> 0.0 <= r <= 1.0
  {
    var delta := a1 + a2;
    if delta == 0.0 || matchValue <= MatchFloor then 0.0
    else if matchValue > fract * mean then 0.5
    else a1 / delta
  }

  /** What `Decision` computes over whole bands. */
  function DecisionGrid(a1: Matrix, a2: Matrix, m: Matrix, fract: real): Matrix
  {
    Grid(Width(a1), Height(a1), (i, j) => DecisionCellGray(At(a1, i, j), At(a2, i, j), At(m, i, j), Mean(m), fract))
  }

  /** `Decision`: the mean match once, then a double loop over the cells. */
  method DecisionGray(a1: Matrix, a2: Matrix, m: Matrix, fract: real) returns (out: array2<real>, ghost log: WriteLog)
    requires SameShape(a1, a2) && SameShape(a1, m)
    ensures fresh(out)
    ensures out.Length0 == Width(a1) && out.Length1 == Height(a1)
    ensures ToMatrix(out) == DecisionGrid(a1, a2, m, fract)
    ensures WrittenOnce(log, Width(a1), Height(a1))
  {
    var mean := Mean(m);
    out, log := FillCells(Width(a1), Height(a1), (i, j) => DecisionCellGray(At(a1, i, j), At(a2, i, j), At(m, i, j), mean, fract));
    SameCells(ToMatrix(out), DecisionGrid(a1, a2, m, fract), Width(a1), Height(a1));
  }

  /** One cell of `MACD`: where the decision is 0 the coefficient of larger
      activity (the second on a tie), elsewhere the decision-weighted
      blend. */
  function MacdCellGray(c1: real, c2: real, a1: real, a2: real, d: real): (r: real)
    ensures c1 == c2 ==> r == c1
    ensures d == 1.0 ==> r == c1
    ensures d == 0.0 ==> r == (if a1 > a2 then c1 else c2)
  {
    if d == 0.0 then (if a1 > a2 then c1 else c2)
    else d * c1 + (1.0 - d) * c2
  }

  /** What `MACD` computes over whole bands. */
  function MacdGrid(c1: Matrix, c2: Matrix): Matrix
    requires SameShape(c1, c2)
  {
    var a1, a2 := Activity(c1), Activity(c2);
    var d := DecisionGrid(a1, a2, MatchGrid(c1, c2), 0.5);
    Grid(Width(c1), Height(c1), (i, j) => MacdCellGray(At(c1, i, j), At(c2, i, j), At(a1, i, j), At(a2, i, j), At(d, i, j)))
  }

  /** `MACD`: activities, match and decision, then a double loop over a
      fresh array. */
  method MacdGray(c1: Matrix, c2: Matrix) returns (out: array2<real>, ghost log: WriteLog)
    requires SameShape(c1, c2)
    ensures fresh(out)
    ensures out.Length0 == Width(c1) && out.Length1 == Height(c1)
    ensures ToMatrix(out) == MacdGrid(c1, c2)
    ensures WrittenOnce(log, Width(c1), Height(c1))
  {
    var w, h := Width(c1), Height(c1);
    var a1, a2 := Activity(c1), Activity(c2);
    ghost var matchLog, decisionLog;
    var matches;
    matches, matchLog := MatchGray(c1, c2);
    var d;
    d, decisionLog := DecisionGray(a1, a2, ToMatrix(matches), 0.5);
    var dm := ToMatrix(d);
    out, log := FillCells(w, h, (i, j) => MacdCellGray(At(c1, i, j), At(c2, i, j), At(a1, i, j), At(a2, i, j), At(dm, i, j)));
    SameCells(ToMatrix(out), MacdGrid(c1, c2), w, h);
  }

  /** With a decision in [0, 1] a MACD cell lies between the two inputs. */
  lemma MacdCellGrayBetween(c1: real, c2: real, a1: real, a2: real, d: real)
    requires 0.0 <= d <= 1.0
    ensures Min(c1, c2) <= MacdCellGray(c1, c2, a1, a2, d) <= Max(c1, c2)
  {
    if d != 0.0 {
      ConvexBetween(c1, c2, d, 1.0 - d);
    }
  }

  /** Every cell of the MACD result lies between the two input cells. */
  lemma MacdGridBetween(c1: Matrix, c2: Matrix)
    requires SameShape(c1, c2)
    ensures forall i, j :: 0 <= i < Width(c1) && 0 <= j < Height(c1) ==>
      Min(c1[i][j], c2[i][j]) <= MacdGrid(c1, c2)[i][j] <= Max(c1[i][j], c2[i][j])
  {
    var a1, a2 := Activity(c1), Activity(c2);
    var mg := MatchGrid(c1, c2);
    var d := DecisionGrid(a1, a2, mg, 0.5);
    forall i, j | 0 <= i < Width(c1) && 0 <= j < Height(c1)
      ensures Min(c1[i][j], c2[i][j]) <= MacdGrid(c1, c2)[i][j] <= Max(c1[i][j], c2[i][j])
    {
      assert d[i][j] == DecisionCellGray(a1[i][j], a2[i][j], At(mg, i, j), Mean(mg), 0.5);
      MacdCellGrayBetween(c1[i][j], c2[i][j], a1[i][j], a2[i][j], d[i][j]);
    }
  }

  /** Where the decision is 0 the cell is the input of larger magnitude,
      the second one on a tie. */
  lemma MacdCellGrayPicksActive(c1: real, c2: real)
    ensures var r := MacdCellGray(c1, c2, Abs(c1), Abs(c2), 0.0);
      (r == c1 || r == c2) && Abs(r) == Max(Abs(c1), Abs(c2)) && (Abs(c1) == Abs(c2) ==> r == c2)
  {
  }

  /** For non-negative activities the decision is 0 exactly when the
      activities add up to 0, the match is at most the floor, or the first
      activity is 0 and the match is not above the threshold. */
  lemma DecisionCellGrayZero(a1: real, a2: real, matchValue: real, mean: real, fract: real)
    requires 0.0 <= a1 && 0.0 <= a2
    ensures DecisionCellGray(a1, a2, matchValue, mean, fract) == 0.0 <==>
      a1 + a2 == 0.0 || matchValue <= MatchFloor || (a1 == 0.0 && !(matchValue > fract * mean))
  {
  }

  // ------------------------------------------------------------- deviation

  /** One cell of `deviation`: the midpoint of the two inputs when both
      tile standard deviations are 0, otherwise their std-weighted blend. */
  function DeviationCellGray(c1: Matrix, c2: Matrix, m: Maths, t: Tile, p: int, q: int): (r: real)
    requires Rectangular(c1) && Rectangular(c2)
    ensures At(c1, p, q) == At(c2, p, q) ==> r == At(c1, p, q)
  {
    var sr, si := TileStd(c1, t, m), TileStd(c2, t, m);
    if sr + si == 0.0 then Average(At(c1, p, q), At(c2, p, q))
    else
      ShareBlendSame(At(c1, p, q), sr, si);
      ShareBlend(At(c1, p, q), At(c2, p, q), sr, si)
  }

  /** The tile size of `deviation`. */
  const GrayTileSize: int := 8

  /** `deviation`: tiles of 8 by 8 (clipped at the edges), each written once
      from the matching input tiles. */
  method DeviationGray(c1: Matrix, c2: Matrix, m: Maths) returns (out: array2<real>, ghost log: WriteLog)
    requires SameShape(c1, c2)
    ensures fresh(out)
    ensures out.Length0 == Width(c1) && out.Length1 == Height(c1)
    ensures forall p, q :: 0 <= p < Width(c1) && 0 <= q < Height(c1) ==>
      out[p, q] == DeviationCellGray(c1, c2, m, TileOf(Width(c1), Height(c1), GrayTileSize, p, q), p, q)
    ensures Lawful(m) ==> forall p, q :: 0 <= p < Width(c1) && 0 <= q < Height(c1) ==>
      Min(c1[p][q], c2[p][q]) <= out[p, q] <= Max(c1[p][q], c2[p][q])
    ensures WrittenOnce(log, Width(c1), Height(c1))
  {
    out, log := FuseByTiles(Width(c1), Height(c1), GrayTileSize, (t, p, q) => DeviationCellGray(c1, c2, m, t, p, q));
    if Lawful(m) {
      forall p, q | 0 <= p < Width(c1) && 0 <= q < Height(c1)
        ensures Min(c1[p][q], c2[p][q]) <= out[p, q] <= Max(c1[p][q], c2[p][q])
      {
        DeviationCellGrayBetween(c1, c2, m, TileOf(Width(c1), Height(c1), GrayTileSize, p, q), p, q);
      }
    }
  }

  /** Standard deviations are never negative, so every cell of `deviation`
      lies between the two input cells, whatever its tile; in a tile where
      both deviations are 0 it is their midpoint. */
  lemma DeviationCellGrayBetween(c1: Matrix, c2: Matrix, m: Maths, t: Tile, p: int, q: int)
    requires Rectangular(c1) && Rectangular(c2) && Lawful(m)
    ensures Min(At(c1, p, q), At(c2, p, q)) <= DeviationCellGray(c1, c2, m, t, p, q) <= Max(At(c1, p, q), At(c2, p, q))
    ensures TileStd(c1, t, m) == 0.0 && TileStd(c2, t, m) == 0.0 ==>
      DeviationCellGray(c1, c2, m, t, p, q) - At(c1, p, q) == At(c2, p, q) - DeviationCellGray(c1, c2, m, t, p, q)
  {
    var sr, si := TileStd(c1, t, m), TileStd(c2, t, m);
    if sr + si != 0.0 {
      ShareBlendBetween(At(c1, p, q), At(c2, p, q), sr, si);
    }
  }
}

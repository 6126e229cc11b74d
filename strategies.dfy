/** The vectorised fusion strategies the pipeline calls
    (fusionStrategies.py), modelled on single-band (two-dimensional)
    coefficient arrays: MACD built from activity, match and decision arrays,
    the entropy blends and the tile-wise standard-deviation blend. Unlike
    their loop-based counterparts these guard their denominators with the
    float32 machine epsilon `Eps`, or not at all. */
module Strategies {
  import opened Numerics
  import opened Matrices
  import opened CellRules
  import opened Tiles

  // ---------------------------------------------------------------- Match

  /** One cell of `mult` in `Match`: the product of the coefficients over
      the sum of their squared magnitudes plus `Eps`. */
  function NormalisedProduct(a: real, b: real): (r: real)
    ensures Abs(r) <= 0.5
    ensures a == 0.0 || b == 0.0 ==> r == 0.0
  {
    NormalisedProductBound(a, b, Eps);
    a * b / (Sq(Abs(a)) + Sq(Abs(b)) + Eps)
  }

  lemma NormalisedProductSymmetric(a: real, b: real)
    ensures NormalisedProduct(a, b) == NormalisedProduct(b, a)
  {
    assert a * b == b * a;
    assert Sq(Abs(a)) + Sq(Abs(b)) + Eps == Sq(Abs(b)) + Sq(Abs(a)) + Eps;
  }

  /** `mult` of `Match`. */
  function Mult(c1: Matrix, c2: Matrix): (r: Matrix)
    requires SameShape(c1, c2)
    ensures SameShape(r, c1)
    ensures forall i, j :: 0 <= i < Width(c1) && 0 <= j < Height(c1) ==> Abs(r[i][j]) <= 0.5
  {
    Zip(c1, c2, NormalisedProduct)
  }

  /** `Match`: `mult` convolved with the all-ones 5-by-5 kernel under zero
      padding, i.e. summed over rows i - 2 .. i + 2 and columns j - 2 .. j + 2
      of every cell, skipping cells outside the band. Each of the at most 25
      summed products is at most 1/2 in magnitude. */
  function Match(c1: Matrix, c2: Matrix): (r: Matrix)
    requires SameShape(c1, c2)
    ensures SameShape(r, c1)
    ensures forall i, j :: 0 <= i < Width(c1) && 0 <= j < Height(c1) ==> Abs(r[i][j]) <= 12.5
  {
    var mult := Mult(c1, c2);
    var r := Grid(Width(c1), Height(c1), (i, j) => BoxSum(mult, i - 2, i + 3, j - 2, j + 3));
    forall i, j | 0 <= i < Width(c1) && 0 <= j < Height(c1)
      ensures Abs(r[i][j]) <= 12.5
    {
      MatchCellBound(mult, i, j);
    }
    r
  }

  lemma MatchCellBound(mult: Matrix, i: int, j: int)
    requires Rectangular(mult)
    requires forall p, q :: 0 <= p < Width(mult) && 0 <= q < Height(mult) ==> Abs(mult[p][q]) <= 0.5
    ensures Abs(BoxSum(mult, i - 2, i + 3, j - 2, j + 3)) <= 12.5
  {
    var left, right := j - 2, j + 3;
    forall p | i - 2 <= p < i + 3
      ensures Abs(RowBox(mult, p, left, right)) <= 2.5
    {
      RowBoxBound(mult, p, left, right, 0.5);
      assert Scaled(5, 0.5) == 2.5;
    }
    BoxSumBound(mult, i - 2, i + 3, left, right, 2.5);
    assert Scaled(5, 2.5) == 12.5;
  }

  /** The match of two bands does not depend on their order. */
  lemma MatchSymmetric(c1: Matrix, c2: Matrix)
    requires SameShape(c1, c2)
    ensures Match(c1, c2) == Match(c2, c1)
  {
    forall i, j | 0 <= i < Width(c1) && 0 <= j < Height(c1)
      ensures Mult(c1, c2)[i][j] == Mult(c2, c1)[i][j]
    {
      NormalisedProductSymmetric(c1[i][j], c2[i][j]);
    }
    SameCells(Mult(c1, c2), Mult(c2, c1), Width(c1), Height(c1));
  }

  // ------------------------------------------------------------- Decision

  /** One cell of `Decision`: 1/2 where the activities add up to 0 or the
      match is above `fract` times the mean match, elsewhere the first
      activity over the activity sum plus `Eps`. */
  function DecisionCell(a1: real, a2: real, matchValue: real, mean: real, fract: real): (r: real)
    requires 0.0 <= a1 && 0.0 <= a2
    ensures 0.0 <= r < 1.0
  {
    var delta := a1 + a2;
    if delta == 0.0 || matchValue > fract * mean then 0.5
    else a1 / (delta + Eps)
  }

  /** For non-negative activities the decision is 0 exactly where the first
      activity is 0, the second is not, and the match is not above the
      threshold. */
  lemma DecisionCellZero(a1: real, a2: real, matchValue: real, mean: real, fract: real)
    requires 0.0 <= a1 && 0.0 <= a2
    ensures DecisionCell(a1, a2, matchValue, mean, fract) == 0.0 <==>
      a1 == 0.0 && a2 != 0.0 && !(matchValue > fract * mean)
  {
  }

  /** The activity arrays `Decision` is given: non-negative everywhere. */
  predicate NonNegative(a: Matrix)
  {
    forall i, j :: 0 <= i < |a| && 0 <= j < |a[i]| ==> 0.0 <= a[i][j]
  }

  /** `Decision` over whole bands, with the mean taken over the match
      array. */
  function Decision(a1: Matrix, a2: Matrix, m: Matrix, fract: real): (r: Matrix)
    requires SameShape(a1, a2) && SameShape(a1, m) && NonNegative(a1) && NonNegative(a2)
    ensures SameShape(r, a1)
    ensures forall i, j :: 0 <= i < Width(a1) && 0 <= j < Height(a1) ==> 0.0 <= r[i][j] < 1.0
  {
    var mean := Mean(m);
    Grid(Width(a1), Height(a1), (i, j) => DecisionCell(At(a1, i, j), At(a2, i, j), At(m, i, j), mean, fract))
  }

  // ----------------------------------------------------------------- MACD

  /** One cell of `MACD`: the larger coefficient where the decision is 0,
      the decision-weighted blend elsewhere. */
  function MacdCell(c1: real, c2: real, d: real): real
  {
    if d == 0.0 then Max(c1, c2) else d * c1 + (1.0 - d) * c2
  }

  /** `MACD`: activities, match and decision (with `fract` 1/2), then one
      cell rule over the whole band. */
  function Macd(c1: Matrix, c2: Matrix): (r: Matrix)
    requires SameShape(c1, c2)
    ensures SameShape(r, c1)
  {
    var a1, a2 := Activity(c1), Activity(c2);
    var d := Decision(a1, a2, Match(c1, c2), 0.5);
    Grid(Width(c1), Height(c1), (i, j) => MacdCell(At(c1, i, j), At(c2, i, j), At(d, i, j)))
  }

  /** With a decision in [0, 1) a MACD cell lies between its inputs. */
  lemma MacdCellBetween(c1: real, c2: real, d: real)
    requires 0.0 <= d < 1.0
    ensures Min(c1, c2) <= MacdCell(c1, c2, d) <= Max(c1, c2)
  {
    if d != 0.0 {
      ConvexBetween(c1, c2, d, 1.0 - d);
    }
  }

  /** Every MACD cell lies between the two input cells; the decision is 0
      exactly where the first coefficient is 0, the second is not and the
      match is not above half the mean match, and there the cell is the
      larger of 0 and the second coefficient. */
  lemma MacdCells(c1: Matrix, c2: Matrix)
    requires SameShape(c1, c2)
    ensures forall i, j :: 0 <= i < Width(c1) && 0 <= j < Height(c1) ==>
      var a, b, r := c1[i][j], c2[i][j], Macd(c1, c2)[i][j];
      var mt := Match(c1, c2);
      var d := Decision(Activity(c1), Activity(c2), mt, 0.5)[i][j];
      Min(a, b) <= r <= Max(a, b) &&
      (d == 0.0 <==> a == 0.0 && b != 0.0 && !(mt[i][j] > 0.5 * Mean(mt))) &&
      (d == 0.0 ==> r == Max(0.0, b))
  {
    var a1, a2, mt := Activity(c1), Activity(c2), Match(c1, c2);
    var d := Decision(a1, a2, mt, 0.5);
    var fused := Macd(c1, c2);
    forall i, j | 0 <= i < Width(c1) && 0 <= j < Height(c1)
      ensures var a, b, r := c1[i][j], c2[i][j], fused[i][j];
        Min(a, b) <= r <= Max(a, b) &&
        (d[i][j] == 0.0 <==> a == 0.0 && b != 0.0 && !(mt[i][j] > 0.5 * Mean(mt))) &&
        (d[i][j] == 0.0 ==> r == Max(0.0, b))
    {
      var a, b := c1[i][j], c2[i][j];
      assert d[i][j] == DecisionCell(Abs(a), Abs(b), mt[i][j], Mean(mt), 0.5);
      assert fused[i][j] == MacdCell(a, b, d[i][j]);
      MacdCellFacts(a, b, mt[i][j], Mean(mt));
    }
  }

  /** One cell of `MacdCells`, with the activities the absolute values of
      the coefficients. */
  lemma MacdCellFacts(a: real, b: real, matchValue: real, mean: real)
    ensures var d := DecisionCell(Abs(a), Abs(b), matchValue, mean, 0.5);
      var r := MacdCell(a, b, d);
      Min(a, b) <= r <= Max(a, b) &&
      (d == 0.0 <==> a == 0.0 && b != 0.0 && !(matchValue > 0.5 * mean)) &&
      (d == 0.0 ==> r == Max(0.0, b))
  {
    var d := DecisionCell(Abs(a), Abs(b), matchValue, mean, 0.5);
    DecisionCellZero(Abs(a), Abs(b), matchValue, mean, 0.5);
    MacdCellBetween(a, b, d);
  }

  // -------------------------------------------------------- entropy blends

  /** A band that is a non-empty rectangle: `min` of it is defined. */
  predicate NonEmpty(c: Matrix)
  {
    Rectangular(c) && Width(c) > 0 && Height(c) > 0
  }

  /** The cells of a non-empty band shifted so that its minimum is 0
      (`coeff - coeff.min()`), the array whose Shannon entropy is taken. */
  function Shifted(c: Matrix): (r: Matrix)
    requires NonEmpty(c)
    ensures SameShape(r, c)
    ensures forall i, j :: 0 <= i < Width(c) && 0 <= j < Height(c) ==> 0.0 <= r[i][j]
  {
    var lo := MatrixMin(c);
    Apply(c, x => x - lo)
  }

  /** The Shannon entropy of a band shifted to a zero minimum. */
  function ShiftedEntropy(c: Matrix, im: Imaging): (r: real)
    requires NonEmpty(c)
    ensures LawfulImaging(im) ==> 0.0 <= r
  {
    im.shannonEntropy(Shifted(c))
  }

  /** `(wa * a + wb * b) / (wa + wb)`, the share blend written as numpy
      evaluates it. */
  function WeightedMean(a: real, b: real, wa: real, wb: real): (r: real)
    requires wa + wb != 0.0
    ensures r == ShareBlend(a, b, wa, wb)
  {
    var d := wa + wb;
    assert (wa * a + wb * b) / d == (wa / d) * a + (wb / d) * b;
    (wa * a + wb * b) / d
  }

  /** `coeffsEntropy`: both bands weighted by the entropies of their shifted
      coefficients. `min` of an empty band raises, and numpy turns the
      unguarded division by a zero entropy sum into NaN. */
  function CoeffsEntropy(c1: Matrix, c2: Matrix, im: Imaging): (r: Result<Matrix>)
    requires SameShape(c1, c2)
    ensures r == Err(EmptyArray) <==> !NonEmpty(c1)
    ensures r == Err(ZeroDivision) <==> NonEmpty(c1) && ShiftedEntropy(c1, im) + ShiftedEntropy(c2, im) == 0.0
    ensures r.Ok? ==> SameShape(r.value, c1)
  {
    if !NonEmpty(c1) then Err(EmptyArray)
    else
      var e1, e2 := ShiftedEntropy(c1, im), ShiftedEntropy(c2, im);
      if e1 + e2 == 0.0 then Err(ZeroDivision)
      else Ok(Zip(c1, c2, (a, b) => WeightedMean(a, b, e1, e2)))
  }

  /** The entropy strategy does not depend on the order of the bands:
      swapping them swaps their entropies as well. */
  lemma CoeffsEntropySymmetric(c1: Matrix, c2: Matrix, im: Imaging)
    requires SameShape(c1, c2)
    ensures CoeffsEntropy(c1, c2, im) == CoeffsEntropy(c2, c1, im)
  {
    if NonEmpty(c1) {
      var e1, e2 := ShiftedEntropy(c1, im), ShiftedEntropy(c2, im);
      if e1 + e2 != 0.0 {
        var w, h := Width(c1), Height(c1);
        var f12, f21 := Zip(c1, c2, (a, b) => WeightedMean(a, b, e1, e2)), Zip(c2, c1, (a, b) => WeightedMean(a, b, e2, e1));
        forall i, j | 0 <= i < w && 0 <= j < h
          ensures f12[i][j] == f21[i][j]
        {
          ShareBlendSwap(c1[i][j], c2[i][j], e1, e2);
        }
        SameCells(f12, f21, w, h);
      }
    }
  }

  /** With a lawful entropy routine the weights are non-negative shares of
      their positive sum, so every fused cell lies between the inputs. */
  lemma CoeffsEntropyBetween(c1: Matrix, c2: Matrix, im: Imaging)
    requires SameShape(c1, c2) && LawfulImaging(im)
    ensures var r := CoeffsEntropy(c1, c2, im);
      r.Ok? ==> forall i, j :: 0 <= i < Width(c1) && 0 <= j < Height(c1) ==>
        Min(c1[i][j], c2[i][j]) <= r.value[i][j] <= Max(c1[i][j], c2[i][j])
  {
    if NonEmpty(c1) {
      var e1, e2 := ShiftedEntropy(c1, im), ShiftedEntropy(c2, im);
      if e1 + e2 != 0.0 {
        WeightedMeansBetween(c1, c2, e1, e2);
      }
    }
  }

  /** Cell by cell, blends with non-negative weights lie between the
      inputs. */
  lemma WeightedMeansBetween(c1: Matrix, c2: Matrix, e1: real, e2: real)
    requires SameShape(c1, c2) && 0.0 <= e1 && 0.0 <= e2 && e1 + e2 != 0.0
    ensures var z := Zip(c1, c2, (a, b) => WeightedMean(a, b, e1, e2));
      forall i, j :: 0 <= i < Width(c1) && 0 <= j < Height(c1) ==>
        Min(c1[i][j], c2[i][j]) <= z[i][j] <= Max(c1[i][j], c2[i][j])
  {
    var z := Zip(c1, c2, (a, b) => WeightedMean(a, b, e1, e2));
    forall i, j | 0 <= i < Width(c1) && 0 <= j < Height(c1)
      ensures Min(c1[i][j], c2[i][j]) <= z[i][j] <= Max(c1[i][j], c2[i][j])
    {
      ShareBlendBetween(c1[i][j], c2[i][j], e1, e2);
    }
  }

  /** `(wa * a + wb * b) / (wa + wb + Eps)`: a blend whose weights fall
      short of 1 by `Eps / (wa + wb + Eps)`, the share given to 0. */
  function EpsBlend(a: real, b: real, wa: real, wb: real): (r: real)
    requires wa + wb + Eps != 0.0
    ensures wa == 0.0 && wb == 0.0 ==> r == 0.0
  {
    (wa * a + wb * b) / (wa + wb + Eps)
  }

  /** Scaling by a factor in [0, 1] moves a value towards 0. */
  lemma ScaleTowardZero(x: real, k: real)
    requires 0.0 <= k <= 1.0
    ensures Min(x, 0.0) <= k * x <= Max(x, 0.0)
  {
    var kx, rest := k * x, (1.0 - k) * x;
    assert kx + rest == x by { assert kx + rest == (k + (1.0 - k)) * x; }
    if x < 0.0 {
      MulMonoLeft(k, x, 0.0);
      MulMonoLeft(1.0 - k, x, 0.0);
    } else {
      MulMonoLeft(k, 0.0, x);
      MulMonoLeft(1.0 - k, 0.0, x);
    }
  }

  /** With non-negative weights an `Eps` blend lies between the smaller of
      the inputs and 0 and the larger of the inputs and 0: it is a convex
      combination of a, b and 0. */
  lemma EpsBlendBounds(a: real, b: real, wa: real, wb: real)
    requires 0.0 <= wa && 0.0 <= wb
    ensures Min(Min(a, b), 0.0) <= EpsBlend(a, b, wa, wb) <= Max(Max(a, b), 0.0)
  {
    var s := wa + wb;
    if s != 0.0 {
      var d := s + Eps;
      var k := s / d;
      var x := ShareBlend(a, b, wa, wb);
      ShareBlendBetween(a, b, wa, wb);
      EpsBlendScaled(a, b, wa, wb);
      ShareBelowOne(s, Eps);
      ScaleTowardZero(x, k);
      assert EpsBlend(a, b, wa, wb) == k * x;
    }
  }

  lemma ShareBelowOne(s: real, e: real)
    requires 0.0 < s && 0.0 < e
    ensures 0.0 < s / (s + e) < 1.0
  {
  }

  /** A positive-weight `Eps` blend is the share blend scaled by
      (wa + wb) / (wa + wb + Eps). */
  lemma EpsBlendScaled(a: real, b: real, wa: real, wb: real)
    requires 0.0 <= wa && 0.0 <= wb && wa + wb != 0.0
    ensures EpsBlend(a, b, wa, wb) == ((wa + wb) / (wa + wb + Eps)) * ShareBlend(a, b, wa, wb)
  {
    var s, d := wa + wb, wa + wb + Eps;
    calc {
      ((wa + wb) / (wa + wb + Eps)) * ShareBlend(a, b, wa, wb);
    ==
      (s / d) * ((wa / s) * a + (wb / s) * b);
    ==
      ((s / d) * (wa / s)) * a + ((s / d) * (wb / s)) * b;
    == { assert (s / d) * (wa / s) == wa / d; assert (s / d) * (wb / s) == wb / d; }
      (wa / d) * a + (wb / d) * b;
    ==
      (wa * a + wb * b) / d;
    }
  }

  // ------------------------------------------------------- edge detection

  /** `edgeDetection`: both bands weighted by the entropies of their
      shifted Sobel edges, over the entropy sum plus `Eps`. */
  function EdgeDetection(c1: Matrix, c2: Matrix, im: Imaging): (r: Result<Matrix>)
    requires SameShape(c1, c2)
    ensures r.Ok? ==> SameShape(r.value, c1)
    ensures LawfulImaging(im) ==> (r.Ok? <==> NonEmpty(c1))
  {
    var g1, g2 := im.sobel(c1), im.sobel(c2);
    if !NonEmpty(g1) || !NonEmpty(g2) then Err(EmptyArray)
    else
      var e1, e2 := ShiftedEntropy(g1, im), ShiftedEntropy(g2, im);
      if e1 + e2 + Eps == 0.0 then Err(ZeroDivision)
      else Ok(Zip(c1, c2, (a, b) => EpsBlend(a, b, e1, e2)))
  }

  /** Every fused cell is a convex combination of the two inputs and 0;
      when both edge entropies are 0 the result is all zeros, not the
      midpoint of the bands. */
  lemma EdgeDetectionCells(c1: Matrix, c2: Matrix, im: Imaging)
    requires SameShape(c1, c2) && LawfulImaging(im)
    ensures var r := EdgeDetection(c1, c2, im);
      r.Ok? ==> forall i, j :: 0 <= i < Width(c1) && 0 <= j < Height(c1) ==>
        var a, b := c1[i][j], c2[i][j];
        Min(Min(a, b), 0.0) <= r.value[i][j] <= Max(Max(a, b), 0.0) &&
        (ShiftedEntropy(im.sobel(c1), im) == 0.0 && ShiftedEntropy(im.sobel(c2), im) == 0.0 ==> r.value[i][j] == 0.0)
  {
    var r := EdgeDetection(c1, c2, im);
    if r.Ok? {
      var e1, e2 := ShiftedEntropy(im.sobel(c1), im), ShiftedEntropy(im.sobel(c2), im);
      forall i, j | 0 <= i < Width(c1) && 0 <= j < Height(c1)
        ensures Min(Min(c1[i][j], c2[i][j]), 0.0) <= r.value[i][j] <= Max(Max(c1[i][j], c2[i][j]), 0.0)
      {
        EpsBlendBounds(c1[i][j], c2[i][j], e1, e2);
      }
    }
  }

  // ------------------------------------------------------------ deviation

  /** The tile size of `deviation`. */
  const TileSize: int := 4

  /** One cell of `deviation`: the two input cells weighted by their tiles'
      standard deviations over the deviation sum plus `Eps`. The sum is 0
      only for a negative deviation, which `np.std` never returns; 0 stands
      in for that case. */
  function DeviationCell(c1: Matrix, c2: Matrix, m: Maths, t: Tile, p: int, q: int): (r: real)
    requires Rectangular(c1) && Rectangular(c2)
    ensures Lawful(m) ==> r == EpsBlend(At(c1, p, q), At(c2, p, q), TileStd(c1, t, m), TileStd(c2, t, m))
  {
    var sr, si := TileStd(c1, t, m), TileStd(c2, t, m);
    if sr + si + Eps == 0.0 then 0.0 else EpsBlend(At(c1, p, q), At(c2, p, q), sr, si)
  }

  /** Every cell of `deviation` is a convex combination of the two input
      cells and 0, and it is 0 when both tiles have deviation 0. */
  lemma DeviationCellBounds(c1: Matrix, c2: Matrix, m: Maths, t: Tile, p: int, q: int)
    requires Rectangular(c1) && Rectangular(c2) && Lawful(m)
    ensures var a, b, r := At(c1, p, q), At(c2, p, q), DeviationCell(c1, c2, m, t, p, q);
      Min(Min(a, b), 0.0) <= r <= Max(Max(a, b), 0.0) &&
      (TileStd(c1, t, m) == 0.0 && TileStd(c2, t, m) == 0.0 ==> r == 0.0)
  {
    EpsBlendBounds(At(c1, p, q), At(c2, p, q), TileStd(c1, t, m), TileStd(c2, t, m));
  }

  /** `deviation`: tiles of 4 by 4 (clipped at the edges), each written once
      from the matching input tiles. */
  method Deviation(c1: Matrix, c2: Matrix, m: Maths) returns (out: array2<real>, ghost log: WriteLog)
    requires SameShape(c1, c2)
    ensures fresh(out)
    ensures out.Length0 == Width(c1) && out.Length1 == Height(c1)
    ensures forall p, q :: 0 <= p < Width(c1) && 0 <= q < Height(c1) ==>
      out[p, q] == DeviationCell(c1, c2, m, TileOf(Width(c1), Height(c1), TileSize, p, q), p, q)
    ensures Lawful(m) ==> forall p, q :: 0 <= p < Width(c1) && 0 <= q < Height(c1) ==>
      Min(Min(c1[p][q], c2[p][q]), 0.0) <= out[p, q] <= Max(Max(c1[p][q], c2[p][q]), 0.0)
    ensures WrittenOnce(log, Width(c1), Height(c1))
  {
    out, log := FuseByTiles(Width(c1), Height(c1), TileSize, (t, p, q) => DeviationCell(c1, c2, m, t, p, q));
    if Lawful(m) {
      forall p, q | 0 <= p < Width(c1) && 0 <= q < Height(c1)
        ensures Min(Min(c1[p][q], c2[p][q]), 0.0) <= out[p, q] <= Max(Max(c1[p][q], c2[p][q]), 0.0)
      {
        DeviationCellBounds(c1, c2, m, TileOf(Width(c1), Height(c1), TileSize, p, q), p, q);
      }
    }
  }
}

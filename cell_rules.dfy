/** The per-coefficient rules of the "Min" and "Max" fusion strategies,
    shared by the two-dimensional loops (fusionStrategysGray.py) and the
    three-dimensional loops (fusionStrategys.py), which apply the same
    formula cell by cell.

    The source tests `math.isclose(x, 0.0, rel_tol=...)` with the default
    absolute tolerance of 0; that test holds only for `x == 0`, so both rules
    here test for an exact zero. */
module CellRules {
  import opened Numerics
  import opened Matrices

  /** Magnitude-weighted minimum of one pair of coefficients. */
  function MinimCell(a: real, b: real): (r: real)
    ensures a == 0.0 && b == 0.0 ==> r == 0.0
    ensures (a == 0.0) != (b == 0.0) ==> r == Min(a, b)
  {
    var delt := Abs(a) + Abs(b);
    if delt == 0.0 then 0.0
    else if a == 0.0 || b == 0.0 then Min(a, b)
    else if (a < 0.0 && b < 0.0) || (a > 0.0 && b > 0.0) then
      (Abs(b) / delt) * a + (Abs(a) / delt) * b
    else if a < 0.0 && b > 0.0 then
      (Max(Abs(a), Abs(b)) / delt) * a + (Min(Abs(a), Abs(b)) / delt) * b
    else
      (Min(Abs(a), Abs(b)) / delt) * a + (Max(Abs(a), Abs(b)) / delt) * b
  }

  /** Magnitude-weighted maximum of one pair of coefficients. */
  function MaximCell(a: real, b: real): (r: real)
    ensures a == 0.0 && b == 0.0 ==> r == 0.0
    ensures (a == 0.0) != (b == 0.0) ==> r == Max(a, b)
  {
    var delt := Abs(a) + Abs(b);
    if delt == 0.0 then 0.0
    else if a == 0.0 || b == 0.0 then Max(a, b)
    else if (a < 0.0 && b < 0.0) || (a > 0.0 && b > 0.0) then
      (Abs(a) / delt) * a + (Abs(b) / delt) * b
    else if a < 0.0 && b > 0.0 then
      (Min(Abs(a), Abs(b)) / delt) * a + (Max(Abs(a), Abs(b)) / delt) * b
    else
      (Max(Abs(a), Abs(b)) / delt) * a + (Min(Abs(a), Abs(b)) / delt) * b
  }

  /** Two shares of a positive total add up to 1. */
  lemma SharesSumToOne(x: real, y: real, d: real)
    requires 0.0 <= x && 0.0 <= y && x + y == d && 0.0 < d
    ensures 0.0 <= x / d && 0.0 <= y / d && x / d + y / d == 1.0
  {
    calc {
      x / d + y / d;
    ==
      (x + y) / d;
    ==
      1.0;
    }
  }

  /** `(x / d) * y` is not negative when `x`, `y` and `d` are not. */
  lemma ShareProductNonNegative(x: real, y: real, d: real)
    requires 0.0 <= x && 0.0 <= y && 0.0 < d
    ensures 0.0 <= (x / d) * y
  {
    assert 0.0 <= x / d;
    MulMonoLeft(x / d, 0.0, y);
  }

  /** A blend `(x/d)*a + (y/d)*b` with non-negative shares of `d` lies
      between `a` and `b`. */
  lemma BlendBetween(a: real, b: real, x: real, y: real, d: real)
    requires 0.0 <= x && 0.0 <= y && x + y == d && 0.0 < d
    ensures Min(a, b) <= (x / d) * a + (y / d) * b <= Max(a, b)
  {
    SharesSumToOne(x, y, d);
    var wa, wb := x / d, y / d;
    ConvexBetween(a, b, wa, wb);
    assert (x / d) * a + (y / d) * b == wa * a + wb * b;
  }

  /** Every cell of the "Min" rule is a convex combination of its inputs,
      so it lies between them. */
  lemma MinimCellBetween(a: real, b: real)
    ensures Min(a, b) <= MinimCell(a, b) <= Max(a, b)
  {
    if a != 0.0 && b != 0.0 {
      if (a < 0.0 && b < 0.0) || (a > 0.0 && b > 0.0) {
        MinimSameSign(a, b);
      } else {
        MinimOppositeSign(a, b);
      }
    }
  }

  lemma MinimSameSign(a: real, b: real)
    requires (a < 0.0 && b < 0.0) || (a > 0.0 && b > 0.0)
    ensures Min(a, b) <= MinimCell(a, b) <= Max(a, b)
  {
    var x, y := Abs(a), Abs(b);
    var d := x + y;
    assert 0.0 < d;
    assert MinimCell(a, b) == (y / d) * a + (x / d) * b;
    BlendBetween(a, b, y, x, d);
  }

  lemma MinimOppositeSign(a: real, b: real)
    requires (a < 0.0 && b > 0.0) || (a > 0.0 && b < 0.0)
    ensures Min(a, b) <= MinimCell(a, b) <= Max(a, b)
  {
    var d := Abs(a) + Abs(b);
    var hi, lo := Max(Abs(a), Abs(b)), Min(Abs(a), Abs(b));
    if a < 0.0 {
      assert MinimCell(a, b) == (hi / d) * a + (lo / d) * b;
      BlendBetween(a, b, hi, lo, d);
    } else {
      assert MinimCell(a, b) == (lo / d) * a + (hi / d) * b;
      BlendBetween(a, b, lo, hi, d);
    }
  }

  /** Every cell of the "Max" rule is a convex combination of its inputs,
      so it lies between them. */
  lemma MaximCellBetween(a: real, b: real)
    ensures Min(a, b) <= MaximCell(a, b) <= Max(a, b)
  {
    if a != 0.0 && b != 0.0 {
      if (a < 0.0 && b < 0.0) || (a > 0.0 && b > 0.0) {
        MaximSameSign(a, b);
      } else {
        MaximOppositeSign(a, b);
      }
    }
  }

  lemma MaximSameSign(a: real, b: real)
    requires (a < 0.0 && b < 0.0) || (a > 0.0 && b > 0.0)
    ensures Min(a, b) <= MaximCell(a, b) <= Max(a, b)
  {
    var x, y := Abs(a), Abs(b);
    var d := x + y;
    assert 0.0 < d;
    assert MaximCell(a, b) == (x / d) * a + (y / d) * b;
    BlendBetween(a, b, x, y, d);
  }

  lemma MaximOppositeSign(a: real, b: real)
    requires (a < 0.0 && b > 0.0) || (a > 0.0 && b < 0.0)
    ensures Min(a, b) <= MaximCell(a, b) <= Max(a, b)
  {
    var d := Abs(a) + Abs(b);
    var hi, lo := Max(Abs(a), Abs(b)), Min(Abs(a), Abs(b));
    if a < 0.0 {
      assert MaximCell(a, b) == (lo / d) * a + (hi / d) * b;
      BlendBetween(a, b, lo, hi, d);
    } else {
      assert MaximCell(a, b) == (hi / d) * a + (lo / d) * b;
      BlendBetween(a, b, hi, lo, d);
    }
  }

  /** Both rules are symmetric in their two inputs, including the
      opposite-sign branches, which swap roles when the inputs swap. */
  lemma CellRulesCommute(a: real, b: real)
    ensures MinimCell(a, b) == MinimCell(b, a)
    ensures MaximCell(a, b) == MaximCell(b, a)
  {
    assert Abs(a) + Abs(b) == Abs(b) + Abs(a);
    assert Max(Abs(a), Abs(b)) == Max(Abs(b), Abs(a));
    assert Min(Abs(a), Abs(b)) == Min(Abs(b), Abs(a));
  }

  /** The "Max" cell is at least the "Min" cell unless both inputs are
      negative, where the order reverses (a^2 + b^2 >= 2ab in both cases). */
  lemma MinimMaximOrder(a: real, b: real)
    ensures !(a < 0.0 && b < 0.0) ==> MinimCell(a, b) <= MaximCell(a, b)
    ensures a < 0.0 && b < 0.0 ==> MaximCell(a, b) <= MinimCell(a, b)
  {
    if a == 0.0 || b == 0.0 {
    } else if a > 0.0 && b > 0.0 {
      OrderPositive(a, b);
    } else if a < 0.0 && b < 0.0 {
      OrderNegative(a, b);
    } else {
      OrderOpposite(a, b);
    }
  }

  lemma OrderPositive(a: real, b: real)
    requires a > 0.0 && b > 0.0
    ensures MinimCell(a, b) <= MaximCell(a, b)
  {
    var d := a + b;
    assert MinimCell(a, b) == (b / d) * a + (a / d) * b;
    assert MaximCell(a, b) == (a / d) * a + (b / d) * b;
    CrossNotAboveSquares(a, b, d);
  }

  lemma OrderNegative(a: real, b: real)
    requires a < 0.0 && b < 0.0
    ensures MaximCell(a, b) <= MinimCell(a, b)
  {
    var d := -a - b;
    assert MinimCell(a, b) == ((-b) / d) * a + ((-a) / d) * b;
    assert MaximCell(a, b) == ((-a) / d) * a + ((-b) / d) * b;
    calc {
      MinimCell(a, b) - MaximCell(a, b);
    ==
      (a / d) * a + (b / d) * b - ((b / d) * a + (a / d) * b);
    >= { CrossNotAboveSquares(a, b, d); }
      0.0;
    }
  }

  lemma OrderOpposite(a: real, b: real)
    requires (a < 0.0 && b > 0.0) || (a > 0.0 && b < 0.0)
    ensures MinimCell(a, b) <= MaximCell(a, b)
  {
    var d := Abs(a) + Abs(b);
    var hi, lo := Max(Abs(a), Abs(b)), Min(Abs(a), Abs(b));
    if a < 0.0 {
      assert MinimCell(a, b) == (hi / d) * a + (lo / d) * b;
      assert MaximCell(a, b) == (lo / d) * a + (hi / d) * b;
      SwappedSharesOrder(a, b, hi, lo, d);
    } else {
      assert MinimCell(a, b) == (lo / d) * a + (hi / d) * b;
      assert MaximCell(a, b) == (hi / d) * a + (lo / d) * b;
      SwappedSharesOrder(b, a, hi, lo, d);
    }
  }

  /** (b/d)a + (a/d)b <= (a/d)a + (b/d)b for positive `d`: the difference is
      (a - b)^2 / d. */
  lemma CrossNotAboveSquares(a: real, b: real, d: real)
    requires 0.0 < d
    ensures (b / d) * a + (a / d) * b <= (a / d) * a + (b / d) * b
  {
    calc {
      (a / d) * a + (b / d) * b - ((b / d) * a + (a / d) * b);
    ==
      ((a - b) / d) * (a - b);
    >= { SquareShareNonNegative(a - b, d); }
      0.0;
    }
  }

  /** Moving the larger share from the smaller input `a` to the larger
      input `b` does not decrease the blend. */
  lemma SwappedSharesOrder(a: real, b: real, hi: real, lo: real, d: real)
    requires a < b && lo <= hi && 0.0 < d
    ensures (hi / d) * a + (lo / d) * b <= (lo / d) * a + (hi / d) * b
  {
    calc {
      (lo / d) * a + (hi / d) * b - ((hi / d) * a + (lo / d) * b);
    ==
      ((hi - lo) / d) * (b - a);
    >= { ShareProductNonNegative(hi - lo, b - a, d); }
      0.0;
    }
  }

  lemma SquareShareNonNegative(x: real, d: real)
    requires 0.0 < d
    ensures 0.0 <= (x / d) * x
  {
    if 0.0 <= x {
      ShareProductNonNegative(x, x, d);
    } else {
      ShareProductNonNegative(-x, -x, d);
      assert (x / d) * x == ((-x) / d) * (-x);
    }
  }

  /** The midpoint `(a + b) / 2`: the fallback of the entropy, edge and
      deviation rules when both weights are 0. */
  function Average(a: real, b: real): (r: real)
    ensures Min(a, b) <= r <= Max(a, b)
    ensures r - a == b - r
  {
    (a + b) / 2.0
  }

  /** `wa / (wa + wb) * a + wb / (wa + wb) * b`: `a` and `b` weighted by
      their shares of the two weights. */
  function ShareBlend(a: real, b: real, wa: real, wb: real): real
    requires wa + wb != 0.0
  {
    (wa / (wa + wb)) * a + (wb / (wa + wb)) * b
  }

  /** With non-negative weights the shares add up to 1, so the blend lies
      between the inputs; equal inputs come back unchanged. */
  lemma ShareBlendBetween(a: real, b: real, wa: real, wb: real)
    requires 0.0 <= wa && 0.0 <= wb && 0.0 < wa + wb
    ensures Min(a, b) <= ShareBlend(a, b, wa, wb) <= Max(a, b)
  {
    BlendBetween(a, b, wa, wb, wa + wb);
  }

  /** Blending a value with itself gives it back, whatever the weights. */
  lemma ShareBlendSame(a: real, wa: real, wb: real)
    requires wa + wb != 0.0
    ensures ShareBlend(a, a, wa, wb) == a
  {
    var s := wa + wb;
    var pa, pb := (wa / s) * a, (wb / s) * a;
    assert pa + pb == ((wa + wb) / s) * a;
  }

  /** The blend is the same with inputs and weights swapped together. */
  lemma ShareBlendSwap(a: real, b: real, wa: real, wb: real)
    requires wa + wb != 0.0
    ensures ShareBlend(a, b, wa, wb) == ShareBlend(b, a, wb, wa)
  {
    assert wa + wb == wb + wa;
  }

  /** The activity of a band, `np.absolute`: the magnitude of every
      coefficient. */
  function Activity(c: Matrix): (r: Matrix)
    requires Rectangular(c)
    ensures SameShape(r, c)
    ensures forall i, j :: 0 <= i < Width(c) && 0 <= j < Height(c) ==> r[i][j] == Abs(c[i][j]) && 0.0 <= r[i][j]
  {
    Apply(c, Abs)
  }

  /** |a * b| is at most half of |a|^2 + |b|^2, since (|a| - |b|)^2 >= 0. */
  lemma ProductAtMostHalfSquares(a: real, b: real)
    ensures 2.0 * Abs(a * b) <= Sq(Abs(a)) + Sq(Abs(b))
  {
    var x, y := Abs(a), Abs(b);
    assert Abs(a * b) == x * y;
    assert 0.0 <= Sq(x - y);
    assert Sq(x - y) == Sq(x) + Sq(y) - 2.0 * (x * y);
  }

  /** The normalised product a * b / (|a|^2 + |b|^2 + e) of the match step
      has magnitude at most 1/2 for any non-negative guard e. */
  lemma NormalisedProductBound(a: real, b: real, e: real)
    requires 0.0 <= e && 0.0 < Sq(Abs(a)) + Sq(Abs(b)) + e
    ensures Abs(a * b / (Sq(Abs(a)) + Sq(Abs(b)) + e)) <= 0.5
  {
    var d := Sq(Abs(a)) + Sq(Abs(b)) + e;
    ProductAtMostHalfSquares(a, b);
    assert Abs(a * b / d) == Abs(a * b) / d;
    assert Abs(a * b) <= d / 2.0;
    calc {
      Abs(a * b) / d;
    ==
      (1.0 / d) * Abs(a * b);
    <= { MulMonoLeft(1.0 / d, Abs(a * b), d / 2.0); }
      (1.0 / d) * (d / 2.0);
    ==
      0.5;
    }
  }
}

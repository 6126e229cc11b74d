/** Scalar arithmetic shared by every strategy and metric: absolute value,
    minimum, maximum, the float32 machine epsilon used as a denominator guard,
    and the two library routines the program takes from its maths library
    (`log2` and `sqrt`), passed in as values together with the laws the
    model relies on. */
module Numerics {

  /** Why a computation yields no value. numpy's division by zero and
      arithmetic on NaN produce NaN or infinity with a warning instead of
      raising; the model reports those outcomes as `ZeroDivision`. A
      reduction such as `min` over an empty array raises, which is
      `EmptyArray`. */
  datatype Error = ZeroDivision | EmptyArray | UnknownStrategy | InvalidWavelet

  datatype Result<T> = Ok(value: T) | Err(error: Error)

  /** `min` and `max` on 8-bit pixel values, which the metrics compare as
      integers. The coefficient versions `Min` and `Max` below are the same
      rule on `real`: a Dafny function cannot be generic over an ordering. */
  function MinInt(a: int, b: int): (r: int)
    ensures r <= a && r <= b && (r == a || r == b)
  {
    if a <= b then a else b
  }

  function MaxInt(a: int, b: int): (r: int)
    ensures a <= r && b <= r && (r == a || r == b)
  {
    if a <= b then b else a
  }

  function Abs(x: real): (r: real)
    ensures 0.0 <= r && (r == x || r == -x)
  {
    if x < 0.0 then -x else x
  }

  function Min(a: real, b: real): (r: real)
    ensures r <= a && r <= b && (r == a || r == b)
  {
    if a <= b then a else b
  }

  function Max(a: real, b: real): (r: real)
    ensures a <= r && b <= r && (r == a || r == b)
  {
    if a <= b then b else a
  }

  /** `np.finfo(np.float32).eps`, which is 2^-23. */
  const Eps: real := 1.0 / 8388608.0

  /** The square of `x`. Squares are kept behind this function so that the
      solver reasons about them through its contract. */
  function Sq(x: real): (r: real)
    ensures 0.0 <= r
  {
    x * x
  }

  lemma SqPositive(x: real)
    requires x != 0.0
    ensures 0.0 < Sq(x)
  {
    if 0.0 < x {
      calc { Sq(x); == x * x; > 0.0; }
    } else {
      calc { Sq(x); == (-x) * (-x); > 0.0; }
    }
  }

  lemma MulMonoLeft(a: real, b: real, c: real)
    requires 0.0 <= a && b <= c
    ensures a * b <= a * c
  {
  }

  lemma MulStrictLeft(a: real, b: real, c: real)
    requires 0.0 < a && b < c
    ensures a * b < a * c
  {
  }

  lemma SqStrictMono(a: real, b: real)
    requires 0.0 <= a < b
    ensures Sq(a) < Sq(b)
  {
    calc {
      Sq(a);
    ==
      a * a;
    <= { MulMonoLeft(a, a, b); }
      a * b;
    ==
      b * a;
    < { MulStrictLeft(b, a, b); }
      b * b;
    ==
      Sq(b);
    }
  }

  /** The base-2 logarithm and the square root of the maths library. */
  datatype Maths = Maths(log2: real -> real, sqrt: real -> real)

  /** What the model assumes of the library: `log2` is monotone with
      `log2(1) == 0`, and `sqrt` returns the non-negative root. */
  ghost predicate Lawful(m: Maths)
  {
    m.log2(1.0) == 0.0 &&
    (forall x, y :: 0.0 < x <= y ==> m.log2(x) <= m.log2(y)) &&
    (forall x :: 0.0 <= x ==> 0.0 <= m.sqrt(x) && Sq(m.sqrt(x)) == x)
  }

  lemma Log2NonPositive(m: Maths, p: real)
    requires Lawful(m) && 0.0 < p <= 1.0
    ensures m.log2(p) <= 0.0
  {
    assert m.log2(p) <= m.log2(1.0);
  }

  lemma SqrtZero(m: Maths, x: real)
    requires Lawful(m) && 0.0 <= x
    ensures m.sqrt(x) == 0.0 <==> x == 0.0
  {
    var s := m.sqrt(x);
    assert 0.0 <= s && Sq(s) == x;
    if s != 0.0 {
      SqPositive(s);
    }
  }

  lemma SqrtMonotone(m: Maths, x: real, y: real)
    requires Lawful(m) && 0.0 <= x <= y
    ensures m.sqrt(x) <= m.sqrt(y)
  {
    var sx, sy := m.sqrt(x), m.sqrt(y);
    assert 0.0 <= sx && Sq(sx) == x;
    assert 0.0 <= sy && Sq(sy) == y;
    if sy < sx {
      SqStrictMono(sy, sx);
    }
  }

  lemma SqrtTwoPositive(m: Maths)
    requires Lawful(m)
    ensures 0.0 < m.sqrt(2.0)
  {
    SqrtZero(m, 2.0);
  }

  /** A sum of `a` and `b` with non-negative weights adding to 1 lies
      between them. */
  lemma ConvexBetween(a: real, b: real, wa: real, wb: real)
    requires 0.0 <= wa && 0.0 <= wb && wa + wb == 1.0
    ensures Min(a, b) <= wa * a + wb * b <= Max(a, b)
  {
    if a <= b {
      StepWithin(a, b, wa, wb);
    } else {
      StepWithin(b, a, wb, wa);
    }
  }

  /** With `wl + wh == 1`, the weighted sum is `lo` plus the share `wh` of
      the gap `hi - lo`, and that share is at most the whole gap. */
  lemma StepWithin(lo: real, hi: real, wl: real, wh: real)
    requires lo <= hi && 0.0 <= wl && 0.0 <= wh && wl + wh == 1.0
    ensures lo <= wl * lo + wh * hi <= hi
  {
    var g := hi - lo;
    var t := wh * g;
    var rest := wl * g;
    MulMonoLeft(wh, 0.0, g);
    MulMonoLeft(wl, 0.0, g);
    assert 0.0 <= t && 0.0 <= rest;
    assert t + rest == g by { assert t + rest == (wh + wl) * g; }
    var sl, sh := wl * lo, wh * hi;
    assert sh == wh * lo + t;
    assert sl + wh * lo == lo by { assert sl + wh * lo == (wl + wh) * lo; }
    assert sl + sh == lo + t;
  }
}

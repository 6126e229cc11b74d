/** The loop-based fusion strategies for three-dimensional coefficient
    arrays of shape (w, h, c) (fusionStrategys.py): the weighted minimum and
    maximum written cell by cell in a triple loop, and the entropy-weighted
    blend. */
module ColourStrategies {
  import opened Numerics
  import opened Matrices
  import opened CellRules
  import opened Metrics

  /** The three extents of a volume, read from its first row and cell. */
  function Rows(v: Volume): nat
  {
    |v|
  }

  function Cols(v: Volume): nat
  {
    if |v| == 0 then 0 else |v[0]|
  }

  function Channels(v: Volume): nat
  {
    if |v| == 0 || |v[0]| == 0 then 0 else |v[0][0]|
  }

  /** Both volumes are boxes of the same shape (`coeff1.shape`). */
  predicate SameBox(a: Volume, b: Volume)
  {
    IsVolume(a, Rows(a), Cols(a), Channels(a)) && IsVolume(b, Rows(a), Cols(a), Channels(a))
  }

  /** Cell (p, q, r) comes before cell (i, j, k) in the order of the loops
      `for i in range(w): for j in range(h): for k in range(c)`. */
  predicate Before3(p: int, q: int, r: int, i: int, j: int, k: int, h: int, c: int)
  {
    (0 <= p < i && 0 <= q < h && 0 <= r < c) ||
    (p == i && 0 <= q < j && 0 <= r < c) ||
    (p == i && q == j && 0 <= r < k)
  }

  /** The triple loop shared by `minim` and `maxim`: every cell of a fresh
      w-by-h-by-c array is assigned `f(i, j, k)` once. */
  method FillVolume(w: nat, h: nat, c: nat, f: (int, int, int) -> real)
    returns (out: array3<real>, ghost log: WriteLog3)
    ensures fresh(out)
    ensures out.Length0 == w && out.Length1 == h && out.Length2 == c
    ensures forall i, j, k :: 0 <= i < w && 0 <= j < h && 0 <= k < c ==> out[i, j, k] == f(i, j, k)
    ensures WrittenOnce3(log, w, h, c)
  {
    out := new real[w, h, c]((i, j, k) => 0.0);
    log := map[];
    var i := 0;
    while i < w
      invariant 0 <= i <= w
      invariant forall p, q, r :: Before3(p, q, r, i, 0, 0, h, c) ==> out[p, q, r] == f(p, q, r)
      invariant forall p, q, r :: Writes3(log, p, q, r) == if Before3(p, q, r, i, 0, 0, h, c) then 1 else 0
    {
      var j := 0;
      while j < h
        invariant 0 <= j <= h
        invariant forall p, q, r :: Before3(p, q, r, i, j, 0, h, c) ==> out[p, q, r] == f(p, q, r)
        invariant forall p, q, r :: Writes3(log, p, q, r) == if Before3(p, q, r, i, j, 0, h, c) then 1 else 0
      {
        var k := 0;
        while k < c
          invariant 0 <= k <= c
          invariant forall p, q, r :: Before3(p, q, r, i, j, k, h, c) ==> out[p, q, r] == f(p, q, r)
          invariant forall p, q, r :: Writes3(log, p, q, r) == if Before3(p, q, r, i, j, k, h, c) then 1 else 0
        {
          out[i, j, k] := f(i, j, k);
          log := Record3(log, i, j, k);
          k := k + 1;
        }
        j := j + 1;
      }
      i := i + 1;
    }
  }

  /** Cell (i, j, k) of a volume, 0 outside it. */
  function At3(v: Volume, i: int, j: int, k: int): real
  {
    if 0 <= i < |v| && 0 <= j < |v[i]| && 0 <= k < |v[i][j]| then v[i][j][k] else 0.0
  }

  /** `minim`: every cell of a fresh array shaped like `coeff1` gets the
      weighted minimum of the two coefficients, which lies between them. */
  method Minim(c1: Volume, c2: Volume) returns (out: array3<real>, ghost log: WriteLog3)
    requires SameBox(c1, c2)
    ensures fresh(out)
    ensures out.Length0 == Rows(c1) && out.Length1 == Cols(c1) && out.Length2 == Channels(c1)
    ensures forall i, j, k :: 0 <= i < Rows(c1) && 0 <= j < Cols(c1) && 0 <= k < Channels(c1) ==>
      var a, b := c1[i][j][k], c2[i][j][k];
      out[i, j, k] == MinimCell(a, b) && Min(a, b) <= out[i, j, k] <= Max(a, b)
    ensures WrittenOnce3(log, Rows(c1), Cols(c1), Channels(c1))
  {
    out, log := FillVolume(Rows(c1), Cols(c1), Channels(c1), (i, j, k) => MinimCell(At3(c1, i, j, k), At3(c2, i, j, k)));
    forall i, j, k | 0 <= i < Rows(c1) && 0 <= j < Cols(c1) && 0 <= k < Channels(c1)
      ensures Min(c1[i][j][k], c2[i][j][k]) <= out[i, j, k] <= Max(c1[i][j][k], c2[i][j][k])
    {
      MinimCellBetween(c1[i][j][k], c2[i][j][k]);
    }
  }

  /** `maxim`: the same loop with the weighted maximum. */
  method Maxim(c1: Volume, c2: Volume) returns (out: array3<real>, ghost log: WriteLog3)
    requires SameBox(c1, c2)
    ensures fresh(out)
    ensures out.Length0 == Rows(c1) && out.Length1 == Cols(c1) && out.Length2 == Channels(c1)
    ensures forall i, j, k :: 0 <= i < Rows(c1) && 0 <= j < Cols(c1) && 0 <= k < Channels(c1) ==>
      var a, b := c1[i][j][k], c2[i][j][k];
      out[i, j, k] == MaximCell(a, b) && Min(a, b) <= out[i, j, k] <= Max(a, b)
    ensures WrittenOnce3(log, Rows(c1), Cols(c1), Channels(c1))
  {
    out, log := FillVolume(Rows(c1), Cols(c1), Channels(c1), (i, j, k) => MaximCell(At3(c1, i, j, k), At3(c2, i, j, k)));
    forall i, j, k | 0 <= i < Rows(c1) && 0 <= j < Cols(c1) && 0 <= k < Channels(c1)
      ensures Min(c1[i][j][k], c2[i][j][k]) <= out[i, j, k] <= Max(c1[i][j][k], c2[i][j][k])
    {
      MaximCellBetween(c1[i][j][k], c2[i][j][k]);
    }
  }

  /** The two volumes combined cell by cell with `f`. */
  function ZipVolume(a: Volume, b: Volume, f: (real, real) -> real): (r: Volume)
    requires SameBox(a, b)
    ensures SameBox(r, a) && Rows(r) == Rows(a) && Cols(r) == Cols(a) && Channels(r) == Channels(a)
    ensures forall i, j, k :: 0 <= i < Rows(a) && 0 <= j < Cols(a) && 0 <= k < Channels(a) ==>
      r[i][j][k] == f(a[i][j][k], b[i][j][k])
  {
    seq(Rows(a), i requires 0 <= i < Rows(a) =>
      seq(Cols(a), j requires 0 <= j < Cols(a) =>
        seq(Channels(a), k requires 0 <= k < Channels(a) => f(a[i][j][k], b[i][j][k]))))
  }

  /** `coeffsEntropy`, from the point where the two accumulated arrays
      `sum1` and `sum2` exist: each volume is weighted by the entropy of its
      accumulated array, and the midpoint of the volumes is returned when the
      entropies add up to 0. Only the entries of the accumulated arrays
      matter, so they are given flattened. */
  function CoeffsEntropy(c1: Volume, c2: Volume, sum1: seq<real>, sum2: seq<real>, m: Maths): (r: Volume)
    requires SameBox(c1, c2)
    ensures SameBox(r, c1) && Rows(r) == Rows(c1) && Cols(r) == Cols(c1) && Channels(r) == Channels(c1)
  {
    var e1, e2 := Entr(sum1, m), Entr(sum2, m);
    if e1 + e2 == 0.0 then ZipVolume(c1, c2, Average)
    else ZipVolume(c1, c2, (a, b) => ShareBlend(a, b, e1, e2))
  }

  /** Entropies are never negative: when they add up to 0 the result is the
      midpoint of the volumes, otherwise the two weights are shares adding
      up to 1 and every cell lies between the two input cells. */
  lemma CoeffsEntropyBlend(c1: Volume, c2: Volume, sum1: seq<real>, sum2: seq<real>, m: Maths)
    requires SameBox(c1, c2) && Lawful(m)
    ensures var e1, e2 := Entr(sum1, m), Entr(sum2, m);
      e1 + e2 != 0.0 ==> 0.0 <= e1 / (e1 + e2) && 0.0 <= e2 / (e1 + e2) && e1 / (e1 + e2) + e2 / (e1 + e2) == 1.0
    ensures forall i, j, k :: 0 <= i < Rows(c1) && 0 <= j < Cols(c1) && 0 <= k < Channels(c1) ==>
      var a, b, x := c1[i][j][k], c2[i][j][k], CoeffsEntropy(c1, c2, sum1, sum2, m)[i][j][k];
      (Entr(sum1, m) + Entr(sum2, m) == 0.0 ==> x == (a + b) / 2.0) && Min(a, b) <= x <= Max(a, b)
  {
    var e1, e2 := Entr(sum1, m), Entr(sum2, m);
    EntrNonNegative(sum1, m);
    EntrNonNegative(sum2, m);
    if e1 + e2 != 0.0 {
      SharesSumToOne(e1, e2, e1 + e2);
    }
    var r := CoeffsEntropy(c1, c2, sum1, sum2, m);
    forall i, j, k | 0 <= i < Rows(c1) && 0 <= j < Cols(c1) && 0 <= k < Channels(c1)
      ensures Min(c1[i][j][k], c2[i][j][k]) <= r[i][j][k] <= Max(c1[i][j][k], c2[i][j][k])
    {
      if e1 + e2 != 0.0 {
        ShareBlendBetween(c1[i][j][k], c2[i][j][k], e1, e2);
      }
    }
  }
}

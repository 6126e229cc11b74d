/** The fusion pipeline (fuse.py): `fuseCoeff` picks a strategy by name
    and applies it to one pair of coefficient bands; `fusedImage` decomposes
    both images with the same wavelet, fuses the approximation band and every
    triple of detail bands level by level, reconstructs, stretches the result
    to 0 .. 255 and truncates it to bytes.

    The wavelet library (`wavelist`, `wavedec2`, `waverec2`) and the image
    routines are parameters; coefficient bands are single-band matrices. */
module Fuse {
  import opened Numerics
  import opened Matrices
  import opened CellRules
  import opened Tiles
  import opened Metrics
  import opened Strategies

  // ----------------------------------------------------------- fuseCoeff

  /** The names `fuseCoeff` handles. */
  predicate Known(name: string)
  {
    name in {"Mean", "Min", "Max", "Entropy", "MACD", "Edge", "Deviation"}
  }

  /** What `deviation` computes, as a matrix. */
  function DeviationGrid(c1: Matrix, c2: Matrix, m: Maths): (r: Matrix)
    requires SameShape(c1, c2)
    ensures SameShape(r, c1)
  {
    var w, h := Width(c1), Height(c1);
    Grid(w, h, (p, q) => DeviationCell(c1, c2, m, TileOf(w, h, TileSize, p, q), p, q))
  }

  /** What `fuseCoeff` returns for a strategy name; a name outside the
      seven handled ones falls through every branch. */
  function Fused(c1: Matrix, c2: Matrix, name: string, im: Imaging, m: Maths): (r: Result<Matrix>)
    requires SameShape(c1, c2)
    ensures r == Err(UnknownStrategy) <==> !Known(name)
    ensures r.Ok? ==> SameShape(r.value, c1)
  {
    if name == "Mean" then Ok(Zip(c1, c2, Average))
    else if name == "Min" then Ok(Zip(c1, c2, Min))
    else if name == "Max" then Ok(Zip(c1, c2, Max))
    else if name == "Entropy" then CoeffsEntropy(c1, c2, im)
    else if name == "MACD" then Ok(Macd(c1, c2))
    else if name == "Edge" then EdgeDetection(c1, c2, im)
    else if name == "Deviation" then Ok(DeviationGrid(c1, c2, m))
    else Err(UnknownStrategy)
  }

  /** `fuseCoeff`: the dispatch on the strategy name. `Fused` is its
      specification; only the "Deviation" branch runs a loop of its own (the
      tile loop of `Deviation`), so every other name is answered by `Fused`
      directly. */
  method FuseCoeff(c1: Matrix, c2: Matrix, name: string, im: Imaging, m: Maths) returns (r: Result<Matrix>)
    requires SameShape(c1, c2)
    ensures r == Fused(c1, c2, name, im, m)
  {
    if name == "Deviation" {
      var out, log := Deviation(c1, c2, m);
      SameCells(ToMatrix(out), DeviationGrid(c1, c2, m), Width(c1), Height(c1));
      r := Ok(ToMatrix(out));
    } else {
      r := Fused(c1, c2, name, im, m);
    }
  }

  /** "Mean", "Min" and "Max" do not depend on the order of the bands, and
      the "Min" band is at most the "Max" band cell by cell. */
  lemma MeanMinMaxOrder(c1: Matrix, c2: Matrix, im: Imaging, m: Maths)
    requires SameShape(c1, c2)
    ensures Fused(c1, c2, "Mean", im, m) == Fused(c2, c1, "Mean", im, m)
    ensures Fused(c1, c2, "Min", im, m) == Fused(c2, c1, "Min", im, m)
    ensures Fused(c1, c2, "Max", im, m) == Fused(c2, c1, "Max", im, m)
    ensures forall i, j :: 0 <= i < Width(c1) && 0 <= j < Height(c1) ==>
      Fused(c1, c2, "Min", im, m).value[i][j] <= Fused(c1, c2, "Max", im, m).value[i][j]
  {
    var w, h := Width(c1), Height(c1);
    forall i, j | 0 <= i < w && 0 <= j < h
      ensures Average(c1[i][j], c2[i][j]) == Average(c2[i][j], c1[i][j])
    {
    }
    SameCells(Zip(c1, c2, Average), Zip(c2, c1, Average), w, h);
    SameCells(Zip(c1, c2, Min), Zip(c2, c1, Min), w, h);
    SameCells(Zip(c1, c2, Max), Zip(c2, c1, Max), w, h);
  }

  /** Every cell of `r` lies between the smaller of the two input cells
      and 0 and the larger of them and 0, and, when `tight`, between the two
      input cells themselves. */
  predicate Within(c1: Matrix, c2: Matrix, r: Matrix, tight: bool)
    requires SameShape(c1, c2) && SameShape(r, c1)
  {
    forall i, j :: 0 <= i < Width(c1) && 0 <= j < Height(c1) ==>
      var a, b := c1[i][j], c2[i][j];
      Min(Min(a, b), 0.0) <= r[i][j] <= Max(Max(a, b), 0.0) &&
      (tight ==> Min(a, b) <= r[i][j] <= Max(a, b))
  }

  /** A cell between the two inputs is also between their extremes and 0. */
  lemma BetweenWithin(c1: Matrix, c2: Matrix, r: Matrix)
    requires SameShape(c1, c2) && SameShape(r, c1)
    requires forall i, j :: 0 <= i < Width(c1) && 0 <= j < Height(c1) ==>
      Min(c1[i][j], c2[i][j]) <= r[i][j] <= Max(c1[i][j], c2[i][j])
    ensures Within(c1, c2, r, true)
  {
  }

  /** With lawful library routines every fused cell lies between the
      smaller of the two input cells and 0 and the larger of them and 0;
      every strategy except "Edge" and "Deviation" stays between the two
      input cells themselves. */
  lemma FusedBounds(c1: Matrix, c2: Matrix, name: string, im: Imaging, m: Maths)
    requires SameShape(c1, c2) && LawfulImaging(im) && Lawful(m)
    ensures var r := Fused(c1, c2, name, im, m);
      r.Ok? ==> Within(c1, c2, r.value, name != "Edge" && name != "Deviation")
  {
    var r := Fused(c1, c2, name, im, m);
    if r.Ok? {
      if name == "Mean" || name == "Min" || name == "Max" {
        BetweenWithin(c1, c2, r.value);
      } else if name == "Entropy" {
        CoeffsEntropyBetween(c1, c2, im);
        BetweenWithin(c1, c2, r.value);
      } else if name == "MACD" {
        MacdCells(c1, c2);
        BetweenWithin(c1, c2, r.value);
      } else if name == "Edge" {
        EdgeDetectionCells(c1, c2, im);
        assert Within(c1, c2, r.value, false);
      } else {
        DeviationGridBounds(c1, c2, m);
        assert Within(c1, c2, r.value, false);
      }
    }
  }

  lemma DeviationGridBounds(c1: Matrix, c2: Matrix, m: Maths)
    requires SameShape(c1, c2) && Lawful(m)
    ensures forall i, j :: 0 <= i < Width(c1) && 0 <= j < Height(c1) ==>
      Min(Min(c1[i][j], c2[i][j]), 0.0) <= DeviationGrid(c1, c2, m)[i][j] <= Max(Max(c1[i][j], c2[i][j]), 0.0)
  {
    var w, h := Width(c1), Height(c1);
    forall i, j | 0 <= i < w && 0 <= j < h
      ensures Min(Min(c1[i][j], c2[i][j]), 0.0) <= DeviationGrid(c1, c2, m)[i][j] <= Max(Max(c1[i][j], c2[i][j]), 0.0)
    {
      DeviationCellBounds(c1, c2, m, TileOf(w, h, TileSize, i, j), i, j);
    }
  }

  // -------------------------------------------------------------- levels

  /** One entry of a wavelet decomposition: the approximation band
      (entry 0) or the horizontal, vertical and diagonal detail bands of one
      level. */
  datatype Level = Approx(band: Matrix) | Details(h: Matrix, v: Matrix, d: Matrix)

  /** Two entries of the same kind whose bands have the same shapes. */
  predicate LevelsMatch(l1: Level, l2: Level)
  {
    match l1
    case Approx(a) => l2.Approx? && SameShape(a, l2.band)
    case Details(h, v, d) => l2.Details? && SameShape(h, l2.h) && SameShape(v, l2.v) && SameShape(d, l2.d)
  }

  /** Two decompositions of same-shape images: the approximation band
      first, then detail triples, entry by entry of the same shapes. */
  predicate Matching(c1: seq<Level>, c2: seq<Level>)
  {
    |c1| == |c2| &&
    forall i :: 0 <= i < |c1| ==> LevelsMatch(c1[i], c2[i]) && (c1[i].Approx? <==> i == 0)
  }

  /** One iteration of the level loop: the approximation band fused once,
      a detail triple fused band by band in (H, V, D) order. */
  function FuseLevel(l1: Level, l2: Level, name: string, im: Imaging, m: Maths): (r: Result<Level>)
    requires LevelsMatch(l1, l2)
    ensures r.Ok? ==> LevelsMatch(r.value, l1)
    ensures r == Err(UnknownStrategy) <==> !Known(name)
  {
    match l1
    case Approx(a) =>
      var f := Fused(a, l2.band, name, im, m);
      if f.Err? then Err(f.error) else Ok(Approx(f.value))
    case Details(h, v, d) =>
      var fh, fv, fd := Fused(h, l2.h, name, im, m), Fused(v, l2.v, name, im, m), Fused(d, l2.d, name, im, m);
      if fh.Err? then Err(fh.error)
      else if fv.Err? then Err(fv.error)
      else if fd.Err? then Err(fd.error)
      else Ok(Details(fh.value, fv.value, fd.value))
  }

  /** The fused list so far extended by one fused entry; the first error
      is kept. */
  function Extend(acc: Result<seq<Level>>, l: Result<Level>): Result<seq<Level>>
  {
    if acc.Err? then acc
    else if l.Err? then Err(l.error)
    else Ok(acc.value + [l.value])
  }

  /** The list `fusedImage` builds from two matching decompositions. */
  function FusedLevels(c1: seq<Level>, c2: seq<Level>, name: string, im: Imaging, m: Maths): (r: Result<seq<Level>>)
    requires Matching(c1, c2)
    ensures r.Ok? ==> |r.value| == |c1|
    decreases |c1|
  {
    if c1 == [] then Ok([])
    else
      var n := |c1| - 1;
      Extend(FusedLevels(c1[..n], c2[..n], name, im, m), FuseLevel(c1[n], c2[n], name, im, m))
  }

  /** A successful fusion keeps the structure of the decomposition: as many
      entries, the approximation band first, and every band of its input
      shape. */
  lemma {:induction false} FusedLevelsShape(c1: seq<Level>, c2: seq<Level>, name: string, im: Imaging, m: Maths)
    requires Matching(c1, c2)
    ensures var r := FusedLevels(c1, c2, name, im, m);
      r.Ok? ==> |r.value| == |c1| && Matching(r.value, c1)
    decreases |c1|
  {
    if c1 != [] {
      var n := |c1| - 1;
      MatchingPrefix(c1, c2, n);
      FusedLevelsShape(c1[..n], c2[..n], name, im, m);
      var init, l := FusedLevels(c1[..n], c2[..n], name, im, m), FuseLevel(c1[n], c2[n], name, im, m);
      assert FusedLevels(c1, c2, name, im, m) == Extend(init, l);
      if init.Ok? && l.Ok? {
        assert c1 == c1[..n] + [c1[n]];
        assert c1[n].Approx? <==> n == 0;
        MatchingAppend(init.value, c1[..n], l.value, c1[n]);
      }
    }
  }

  /** The level loop fuses entry by entry: it succeeds exactly when every
      level fuses, and entry k of the result is the fusion of entry k of
      both decompositions. */
  lemma {:induction false} FusedLevelsEntries(c1: seq<Level>, c2: seq<Level>, name: string, im: Imaging, m: Maths)
    requires Matching(c1, c2)
    ensures var r := FusedLevels(c1, c2, name, im, m);
      (r.Ok? <==> forall k :: 0 <= k < |c1| ==> FuseLevel(c1[k], c2[k], name, im, m).Ok?) &&
      (r.Ok? ==> forall k :: 0 <= k < |c1| ==> FuseLevel(c1[k], c2[k], name, im, m) == Ok(r.value[k]))
    decreases |c1|
  {
    if c1 != [] {
      var n := |c1| - 1;
      MatchingPrefix(c1, c2, n);
      FusedLevelsEntries(c1[..n], c2[..n], name, im, m);
      forall k | 0 <= k < n
        ensures c1[..n][k] == c1[k] && c2[..n][k] == c2[k]
      {
      }
      var init, l := FusedLevels(c1[..n], c2[..n], name, im, m), FuseLevel(c1[n], c2[n], name, im, m);
      assert FusedLevels(c1, c2, name, im, m) == Extend(init, l);
      if init.Ok? && l.Ok? {
        var r := init.value + [l.value];
        forall k | 0 <= k < |c1|
          ensures FuseLevel(c1[k], c2[k], name, im, m) == Ok(r[k])
        {
          if k < n {
            assert r[k] == init.value[k];
          }
        }
      } else if init.Ok? {
        assert !FuseLevel(c1[n], c2[n], name, im, m).Ok?;
      } else {
        var j :| 0 <= j < n && !FuseLevel(c1[..n][j], c2[..n][j], name, im, m).Ok?;
        assert !FuseLevel(c1[j], c2[j], name, im, m).Ok?;
      }
    }
  }

  /** A failed level loop reports the error of the first level that fails. */
  lemma {:induction false} FusedLevelsFirstError(c1: seq<Level>, c2: seq<Level>, name: string, im: Imaging, m: Maths)
    requires Matching(c1, c2)
    ensures var r := FusedLevels(c1, c2, name, im, m);
      r.Err? ==> exists k :: FirstFailure(c1, c2, name, im, m, k) && FuseLevel(c1[k], c2[k], name, im, m) == Err(r.error)
    decreases |c1|
  {
    if c1 != [] {
      var n := |c1| - 1;
      MatchingPrefix(c1, c2, n);
      FusedLevelsFirstError(c1[..n], c2[..n], name, im, m);
      var init, l := FusedLevels(c1[..n], c2[..n], name, im, m), FuseLevel(c1[n], c2[n], name, im, m);
      assert FusedLevels(c1, c2, name, im, m) == Extend(init, l);
      if init.Err? {
        var k :| FirstFailure(c1[..n], c2[..n], name, im, m, k) && FuseLevel(c1[..n][k], c2[..n][k], name, im, m) == Err(init.error);
        FirstFailurePrefix(c1, c2, name, im, m, n, k);
      } else if l.Err? {
        FusedLevelsEntries(c1[..n], c2[..n], name, im, m);
        forall j | 0 <= j < n
          ensures FuseLevel(c1[j], c2[j], name, im, m).Ok?
        {
          assert c1[..n][j] == c1[j] && c2[..n][j] == c2[j];
        }
        assert FirstFailure(c1, c2, name, im, m, n);
      }
    }
  }

  /** Level k is the first of the loop whose fusion fails. */
  predicate FirstFailure(c1: seq<Level>, c2: seq<Level>, name: string, im: Imaging, m: Maths, k: int)
    requires Matching(c1, c2)
  {
    0 <= k < |c1| && FuseLevel(c1[k], c2[k], name, im, m).Err? &&
    forall j :: 0 <= j < k ==> FuseLevel(c1[j], c2[j], name, im, m).Ok?
  }

  lemma FirstFailurePrefix(c1: seq<Level>, c2: seq<Level>, name: string, im: Imaging, m: Maths, n: nat, k: int)
    requires Matching(c1, c2) && n <= |c1| && Matching(c1[..n], c2[..n])
    requires FirstFailure(c1[..n], c2[..n], name, im, m, k)
    ensures FirstFailure(c1, c2, name, im, m, k)
    ensures FuseLevel(c1[..n][k], c2[..n][k], name, im, m) == FuseLevel(c1[k], c2[k], name, im, m)
  {
    forall j | 0 <= j <= k
      ensures c1[..n][j] == c1[j] && c2[..n][j] == c2[j]
    {
    }
  }

  /** A prefix of two matching decompositions matches. */
  lemma MatchingPrefix(c1: seq<Level>, c2: seq<Level>, k: nat)
    requires Matching(c1, c2) && k <= |c1|
    ensures Matching(c1[..k], c2[..k])
  {
  }

  lemma MatchingAppend(a: seq<Level>, b: seq<Level>, x: Level, y: Level)
    requires Matching(a, b) && LevelsMatch(x, y) && (y.Approx? <==> |b| == 0)
    ensures Matching(a + [x], b + [y])
  {
  }

  /** An unknown strategy name fails the whole fusion with that error. */
  lemma {:induction false} FusedLevelsUnknown(c1: seq<Level>, c2: seq<Level>, name: string, im: Imaging, m: Maths)
    requires Matching(c1, c2) && !Known(name) && c1 != []
    ensures FusedLevels(c1, c2, name, im, m) == Err(UnknownStrategy)
    decreases |c1|
  {
    var n := |c1| - 1;
    MatchingPrefix(c1, c2, n);
    if n > 0 {
      FusedLevelsUnknown(c1[..n], c2[..n], name, im, m);
    }
  }

  /** One iteration of the level loop, calling `fuseCoeff` once or three
      times. It follows the branches of `FuseLevel`, its specification, so
      that the calls go to the method `FuseCoeff` and its tile loop. */
  method FuseLevelStep(l1: Level, l2: Level, name: string, im: Imaging, m: Maths) returns (r: Result<Level>)
    requires LevelsMatch(l1, l2)
    ensures r == FuseLevel(l1, l2, name, im, m)
  {
    if l1.Approx? {
      var f := FuseCoeff(l1.band, l2.band, name, im, m);
      r := if f.Err? then Err(f.error) else Ok(Approx(f.value));
    } else {
      var fh := FuseCoeff(l1.h, l2.h, name, im, m);
      var fv := FuseCoeff(l1.v, l2.v, name, im, m);
      var fd := FuseCoeff(l1.d, l2.d, name, im, m);
      if fh.Err? {
        r := Err(fh.error);
      } else if fv.Err? {
        r := Err(fv.error);
      } else if fd.Err? {
        r := Err(fd.error);
      } else {
        r := Ok(Details(fh.value, fv.value, fd.value));
      }
    }
  }

  /** The level loop of `fusedImage`: every entry of the two decompositions
      is fused and appended in order. */
  method FuseLevels(c1: seq<Level>, c2: seq<Level>, name: string, im: Imaging, m: Maths) returns (r: Result<seq<Level>>)
    requires Matching(c1, c2)
    ensures r == FusedLevels(c1, c2, name, im, m)
    ensures r.Ok? ==> |r.value| == |c1| && Matching(r.value, c1)
  {
    r := Ok([]);
    var i := 0;
    while i < |c1|
      invariant 0 <= i <= |c1|
      invariant r == FusedLevels(c1[..i], c2[..i], name, im, m)
    {
      var l := FuseLevelStep(c1[i], c2[i], name, im, m);
      FusedLevelsStep(c1, c2, i, name, im, m);
      r := Extend(r, l);
      i := i + 1;
    }
    assert c1[..i] == c1 && c2[..i] == c2;
    FusedLevelsShape(c1, c2, name, im, m);
  }

  /** Fusing one more entry of the decompositions extends the fused
      prefix. */
  lemma FusedLevelsStep(c1: seq<Level>, c2: seq<Level>, i: nat, name: string, im: Imaging, m: Maths)
    requires Matching(c1, c2) && i < |c1|
    ensures Matching(c1[..i], c2[..i]) && Matching(c1[..i + 1], c2[..i + 1]) && LevelsMatch(c1[i], c2[i])
    ensures FusedLevels(c1[..i + 1], c2[..i + 1], name, im, m) ==
      Extend(FusedLevels(c1[..i], c2[..i], name, im, m), FuseLevel(c1[i], c2[i], name, im, m))
  {
    MatchingPrefix(c1, c2, i);
    MatchingPrefix(c1, c2, i + 1);
    assert c1[..i + 1][..i] == c1[..i] && c2[..i + 1][..i] == c2[..i];
  }

  // ------------------------------------------------------- normalisation

  /** The min-max stretch to 0 .. 255: `min` of an empty array raises, and a
      constant array divides 0 by 0. */
  function Normalise(x: Matrix): (r: Result<Matrix>)
    requires Rectangular(x)
    ensures r == Err(EmptyArray) <==> !NonEmpty(x)
    ensures r == Err(ZeroDivision) <==> NonEmpty(x) && MatrixMin(x) == MatrixMax(x)
    ensures r.Ok? ==> SameShape(r.value, x)
    ensures r.Ok? ==> forall i, j :: 0 <= i < Width(x) && 0 <= j < Height(x) ==>
      0.0 <= r.value[i][j] <= 255.0 &&
      (x[i][j] == MatrixMin(x) ==> r.value[i][j] == 0.0) &&
      (x[i][j] == MatrixMax(x) ==> r.value[i][j] == 255.0)
  {
    if !NonEmpty(x) then Err(EmptyArray)
    else
      var lo, hi := MatrixMin(x), MatrixMax(x);
      if lo == hi then Err(ZeroDivision)
      else
        assert lo <= x[0][0] <= hi;
        var r := Apply(x, v => Stretch(v, lo, hi));
        assert forall i, j :: 0 <= i < Width(x) && 0 <= j < Height(x) ==> 0.0 <= r[i][j] <= 255.0 by {
          forall i, j | 0 <= i < Width(x) && 0 <= j < Height(x) ensures 0.0 <= r[i][j] <= 255.0 {
            StretchRange(x[i][j], lo, hi);
          }
        }
        Ok(r)
  }

  /** `(v - lo) / (hi - lo) * 255`. */
  function Stretch(v: real, lo: real, hi: real): (r: real)
    requires lo < hi
    ensures v == lo ==> r == 0.0
    ensures v == hi ==> r == 255.0
  {
    var d := hi - lo;
    assert v == hi ==> (v - lo) / d == 1.0;
    (v - lo) / d * 255.0
  }

  lemma StretchRange(v: real, lo: real, hi: real)
    requires lo <= v <= hi && lo < hi
    ensures 0.0 <= Stretch(v, lo, hi) <= 255.0
  {
    var d := hi - lo;
    var s := (v - lo) / d;
    assert s * d == v - lo;
    if s < 0.0 {
      MulStrictLeft(d, s, 0.0);
    }
    if 1.0 < s {
      MulStrictLeft(d, 1.0, s);
    }
    assert Stretch(v, lo, hi) == s * 255.0;
  }

  /** The stretch keeps the order of the values. */
  lemma StretchMonotone(u: real, v: real, lo: real, hi: real)
    requires lo < hi && u <= v
    ensures Stretch(u, lo, hi) <= Stretch(v, lo, hi)
  {
    var d := hi - lo;
    assert (u - lo) / d <= (v - lo) / d;
  }

  /** `astype(np.uint8)` of a value in [0, 255]: truncation towards 0. */
  function ToByte(x: real): (r: int)
    requires 0.0 <= x <= 255.0
    ensures 0 <= r <= 255 && r as real <= x < r as real + 1.0
  {
    x.Floor
  }

  /** Every cell of a stretched band cast to bytes. */
  function ToBytes(x: Matrix): (r: Image)
    requires Rectangular(x)
    requires forall i, j :: 0 <= i < Width(x) && 0 <= j < Height(x) ==> 0.0 <= x[i][j] <= 255.0
    ensures IsImage(r, Width(x), Height(x))
    ensures forall i, j :: 0 <= i < Width(x) && 0 <= j < Height(x) ==>
      0 <= r[i][j] <= 255 && r[i][j] as real <= x[i][j] < r[i][j] as real + 1.0
  {
    seq(Width(x), i requires 0 <= i < Width(x) =>
      seq(Height(x), j requires 0 <= j < Height(x) => ToByte(x[i][j])))
  }

  // ----------------------------------------------------------- fusedImage

  /** The wavelet library: the wavelet names of a family, the multilevel
      decomposition of an image and its reconstruction. */
  datatype Wavelets = Wavelets(
    wavelist: string -> seq<string>,
    wavedec2: (Matrix, string, nat) -> seq<Level>,
    waverec2: (seq<Level>, string) -> Matrix)

  /** What the model assumes of the library: decompositions of same-shape
      images at one level count match entry by entry and have that many
      detail levels after the approximation, and a reconstruction is a
      rectangular array. */
  ghost predicate LawfulWavelets(lib: Wavelets)
  {
    (forall x, y, wave, level: nat :: SameShape(x, y) ==>
      var d1, d2 := lib.wavedec2(x, wave, level), lib.wavedec2(y, wave, level);
      Matching(d1, d2) && |d1| == level + 1) &&
    (forall c, wave :: Rectangular(lib.waverec2(c, wave)))
  }

  /** The decomposition depth `fusedImage` uses. */
  const Depth: nat := 4

  /** What `fusedImage` returns: both images decomposed with the first
      wavelet of the family at depth 4, fused level by level, reconstructed,
      stretched to 0 .. 255 and truncated to bytes. An empty family makes
      `wavelist(wavelet)[0]` raise. */
  function Pipeline(i1: Matrix, i2: Matrix, name: string, family: string, lib: Wavelets, im: Imaging, m: Maths): (r: Result<Image>)
    requires SameShape(i1, i2) && LawfulWavelets(lib)
    ensures r.Ok? ==> forall i, j :: 0 <= i < |r.value| && 0 <= j < |r.value[i]| ==> 0 <= r.value[i][j] <= 255
  {
    var waves := lib.wavelist(family);
    if waves == [] then Err(InvalidWavelet)
    else
      var wave := waves[0];
      var fused := FusedLevels(lib.wavedec2(i1, wave, Depth), lib.wavedec2(i2, wave, Depth), name, im, m);
      if fused.Err? then Err(fused.error)
      else
        var n := Normalise(lib.waverec2(fused.value, wave));
        if n.Err? then Err(n.error) else Ok(ToBytes(n.value))
  }

  /** The pipeline fails with `InvalidWavelet` exactly when the wavelet
      family is empty. */
  lemma PipelineInvalidWavelet(i1: Matrix, i2: Matrix, name: string, family: string, lib: Wavelets, im: Imaging, m: Maths)
    requires SameShape(i1, i2) && LawfulWavelets(lib)
    ensures Pipeline(i1, i2, name, family, lib, im, m) == Err(InvalidWavelet) <==> lib.wavelist(family) == []
  {
    var waves := lib.wavelist(family);
    if waves != [] {
      var d1, d2 := lib.wavedec2(i1, waves[0], Depth), lib.wavedec2(i2, waves[0], Depth);
      FusedLevelsErrors(d1, d2, name, im, m);
    }
  }

  /** With a non-empty family an unknown strategy name fails the pipeline
      with `UnknownStrategy`: the decompositions are never empty. */
  lemma PipelineUnknown(i1: Matrix, i2: Matrix, name: string, family: string, lib: Wavelets, im: Imaging, m: Maths)
    requires SameShape(i1, i2) && LawfulWavelets(lib)
    requires lib.wavelist(family) != [] && !Known(name)
    ensures Pipeline(i1, i2, name, family, lib, im, m) == Err(UnknownStrategy)
  {
    var wave := lib.wavelist(family)[0];
    var d1, d2 := lib.wavedec2(i1, wave, Depth), lib.wavedec2(i2, wave, Depth);
    assert Matching(d1, d2) && |d1| == Depth + 1;
    FusedLevelsUnknown(d1, d2, name, im, m);
  }

  /** The fusion of the levels never reports an empty wavelet family. */
  lemma {:induction false} FusedLevelsErrors(c1: seq<Level>, c2: seq<Level>, name: string, im: Imaging, m: Maths)
    requires Matching(c1, c2)
    ensures FusedLevels(c1, c2, name, im, m) != Err(InvalidWavelet)
    decreases |c1|
  {
    if c1 != [] {
      var n := |c1| - 1;
      MatchingPrefix(c1, c2, n);
      FusedLevelsErrors(c1[..n], c2[..n], name, im, m);
      FuseLevelErrors(c1[n], c2[n], name, im, m);
    }
  }

  lemma FuseLevelErrors(l1: Level, l2: Level, name: string, im: Imaging, m: Maths)
    requires LevelsMatch(l1, l2)
    ensures FuseLevel(l1, l2, name, im, m) != Err(InvalidWavelet)
  {
    if l1.Approx? {
      FusedErrors(l1.band, l2.band, name, im, m);
    } else {
      FusedErrors(l1.h, l2.h, name, im, m);
      FusedErrors(l1.v, l2.v, name, im, m);
      FusedErrors(l1.d, l2.d, name, im, m);
    }
  }

  lemma FusedErrors(c1: Matrix, c2: Matrix, name: string, im: Imaging, m: Maths)
    requires SameShape(c1, c2)
    ensures Fused(c1, c2, name, im, m) != Err(InvalidWavelet)
  {
  }

  /** `fusedImage`. It follows the steps of `Pipeline`, its specification,
      with the level loop run by the method `FuseLevels`. */
  method FusedImage(i1: Matrix, i2: Matrix, name: string, family: string, lib: Wavelets, im: Imaging, m: Maths)
    returns (r: Result<Image>)
    requires SameShape(i1, i2) && LawfulWavelets(lib)
    ensures r == Pipeline(i1, i2, name, family, lib, im, m)
  {
    var waves := lib.wavelist(family);
    if waves == [] {
      return Err(InvalidWavelet);
    }
    var wave := waves[0];
    var coeff1 := lib.wavedec2(i1, wave, Depth);
    var coeff2 := lib.wavedec2(i2, wave, Depth);
    var fused := FuseLevels(coeff1, coeff2, name, im, m);
    if fused.Err? {
      return Err(fused.error);
    }
    var image := lib.waverec2(fused.value, wave);
    var n := Normalise(image);
    if n.Err? {
      return Err(n.error);
    }
    r := Ok(ToBytes(n.value));
  }
}

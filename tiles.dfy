/** The tile grid of the "deviation" strategies: two nested loops
    `for i in range(0, w, s)` / `for j in range(0, h, s)` that assign the
    slice `[i:min(i + s, w), j:min(j + s, h)]` of a fresh array, so that the
    last tiles of each axis are clipped to the array. */
module Tiles {
  import opened Numerics
  import opened Matrices

  /** Rows top <= p < bottom and columns left <= q < right. */
  datatype Tile = Tile(top: int, bottom: int, left: int, right: int)

  predicate InTile(t: Tile, p: int, q: int)
  {
    t.top <= p < t.bottom && t.left <= q < t.right
  }

  /** The tile the loops assign at origin (i, j) of a w-by-h array. */
  function TileAt(w: int, h: int, s: int, i: int, j: int): Tile
  {
    Tile(i, MinInt(i + s, w), j, MinInt(j + s, h))
  }

  /** The largest multiple of `s` not above `p` (for p >= 0): the first index
      of the tile holding index `p` along one axis. */
  function Origin(p: int, s: int): int
    requires 0 < s
    decreases p
  {
    if p < s then 0 else s + Origin(p - s, s)
  }

  /** `i` is one of 0, s, 2s, ...: a value taken by `range(0, n, s)`. */
  predicate IsOrigin(i: int, s: int)
    requires 0 < s
  {
    0 <= i && Origin(i, s) == i
  }

  /** The tile holding cell (p, q). */
  function TileOf(w: int, h: int, s: int, p: int, q: int): Tile
    requires 0 < s
  {
    TileAt(w, h, s, Origin(p, s), Origin(q, s))
  }

  lemma {:induction false} OriginBounds(p: int, s: int)
    requires 0 <= p && 0 < s
    ensures IsOrigin(Origin(p, s), s)
    ensures Origin(p, s) <= p < Origin(p, s) + s
    decreases p
  {
    if s <= p {
      OriginBounds(p - s, s);
      NextOrigin(Origin(p - s, s), s);
    }
  }

  /** The index after a tile's last one is the next origin. */
  lemma NextOrigin(i: int, s: int)
    requires 0 < s && IsOrigin(i, s)
    ensures IsOrigin(i + s, s)
  {
    assert Origin(i + s, s) == s + Origin(i, s);
  }

  /** Every index of the tile starting at origin `i` has origin `i`. */
  lemma {:induction false} OriginOfTileIndex(i: int, s: int, p: int)
    requires 0 < s && IsOrigin(i, s) && i <= p < i + s
    ensures Origin(p, s) == i
    decreases i
  {
    if s <= i {
      var k := i - s;
      assert Origin(i, s) == s + Origin(k, s);
      OriginOfTileIndex(k, s, p - s);
    }
  }

  /** The tiles partition the array: the tile of each cell is a visited
      tile holding that cell, no other visited tile holds it, and no tile
      holds a cell outside the array. */
  lemma TilesPartition(w: nat, h: nat, s: int, p: int, q: int, i: int, j: int)
    requires 0 < s
    requires IsOrigin(i, s) && i < w && IsOrigin(j, s) && j < h
    ensures 0 <= p < w && 0 <= q < h ==>
      var t := TileOf(w, h, s, p, q);
      IsOrigin(t.top, s) && t.top < w && IsOrigin(t.left, s) && t.left < h && InTile(t, p, q)
    ensures InTile(TileAt(w, h, s, i, j), p, q) <==>
      0 <= p < w && 0 <= q < h && Origin(p, s) == i && Origin(q, s) == j
  {
    if 0 <= p < w && 0 <= q < h {
      OriginBounds(p, s);
      OriginBounds(q, s);
    }
    if InTile(TileAt(w, h, s, i, j), p, q) {
      OriginOfTileIndex(i, s, p);
      OriginOfTileIndex(j, s, q);
    }
    if 0 <= p < w && 0 <= q < h && Origin(p, s) == i && Origin(q, s) == j {
      OriginBounds(p, s);
      OriginBounds(q, s);
    }
  }

  /** The cells of a tile. */
  function TileCells(t: Tile): set<(int, int)>
  {
    set p, q | t.top <= p < t.bottom && t.left <= q < t.right :: (p, q)
  }

  /** The log after one assignment to every cell of tile `t`. */
  function RecordTile(log: WriteLog, t: Tile): (r: WriteLog)
    ensures forall p, q :: Writes(r, p, q) == Writes(log, p, q) + if InTile(t, p, q) then 1 else 0
  {
    map c | c in log.Keys + TileCells(t) :: Writes(log, c.0, c.1) + if InTile(t, c.0, c.1) then 1 else 0
  }

  predicate InRows(p: int, q: int, i: int, w: int, h: int)
  {
    0 <= p < i && p < w && 0 <= q < h
  }

  predicate InBand(p: int, q: int, i: int, s: int, w: int, j: int, h: int)
  {
    i <= p < i + s && p < w && 0 <= q < j && q < h
  }

  /** The tile loop shared by both "deviation" strategies: every cell of a
      fresh w-by-h array is assigned once, as part of its own tile, with the
      value `cell(tile, p, q)` the strategy computes for it. */
  method FuseByTiles(w: nat, h: nat, s: int, cell: (Tile, int, int) -> real)
    returns (out: array2<real>, ghost log: WriteLog)
    requires 0 < s
    ensures fresh(out)
    ensures out.Length0 == w && out.Length1 == h
    ensures forall p, q :: 0 <= p < w && 0 <= q < h ==> out[p, q] == cell(TileOf(w, h, s, p, q), p, q)
    ensures WrittenOnce(log, w, h)
  {
    out := new real[w, h]((p, q) => 0.0);
    log := map[];
    var i := 0;
    while i < w
      invariant IsOrigin(i, s)
      invariant forall p, q :: 0 <= p < i && p < w && 0 <= q < h ==>
        out[p, q] == cell(TileOf(w, h, s, p, q), p, q)
      invariant forall p, q :: Writes(log, p, q) == if 0 <= p < i && p < w && 0 <= q < h then 1 else 0
      decreases w - i
    {
      var j := 0;
      while j < h
        invariant IsOrigin(j, s)
        invariant forall p, q :: 0 <= p < i && p < w && 0 <= q < h ==>
          out[p, q] == cell(TileOf(w, h, s, p, q), p, q)
        invariant forall p, q :: i <= p < i + s && p < w && 0 <= q < j && q < h ==>
          out[p, q] == cell(TileOf(w, h, s, p, q), p, q)
        invariant forall p, q ::
          Writes(log, p, q) == if InRows(p, q, i, w, h) || InBand(p, q, i, s, w, j, h) then 1 else 0
        decreases h - j
      {
        var t := TileAt(w, h, s, i, j);
        forall p, q | t.top <= p < t.bottom && t.left <= q < t.right {
          out[p, q] := cell(t, p, q);
        }
        forall p, q | t.top <= p < t.bottom && t.left <= q < t.right
          ensures TileOf(w, h, s, p, q) == t
        {
          OriginOfTileIndex(i, s, p);
          OriginOfTileIndex(j, s, q);
        }
        log := RecordTile(log, t);
        NextOrigin(j, s);
        j := j + s;
      }
      NextOrigin(i, s);
      i := i + s;
    }
  }

  /** The number of cells of a tile; a tile visited by the loops is never
      empty. */
  function TileCount(t: Tile): int
  {
    (t.bottom - t.top) * (t.right - t.left)
  }

  /** `np.mean` over the cells of tile `t` of `c`. */
  function TileMean(c: Matrix, t: Tile): real
  {
    if TileCount(t) <= 0 then 0.0
    else BoxSum(c, t.top, t.bottom, t.left, t.right) / TileCount(t) as real
  }

  /** `np.std` over the cells of tile `t` of `c`: the square root of the
      mean squared deviation from the tile's mean. */
  function TileStd(c: Matrix, t: Tile, m: Maths): (r: real)
    requires Rectangular(c)
    ensures Lawful(m) ==> 0.0 <= r
  {
    if TileCount(t) <= 0 then 0.0
    else
      var v := BoxSum(SquaredDeviations(c, TileMean(c, t)), t.top, t.bottom, t.left, t.right) / TileCount(t) as real;
      SquaredDeviationsNonNegative(c, TileMean(c, t));
      BoxSumNonNegative(SquaredDeviations(c, TileMean(c, t)), t.top, t.bottom, t.left, t.right);
      m.sqrt(v)
  }
}

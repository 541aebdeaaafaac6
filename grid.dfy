// Map tiles and the integer grid queries of Code/Game/Map.cpp: the unit tile
// bounds built by Code/Game/Tile.cpp, AreCoordsInBounds and the clamped flat
// index behind GetTile.
module Grid {
  import opened Vectors

  datatype TileDef = TileDef(name: string, isSolid: bool)

  datatype Tile = Tile(def: TileDef, bounds: Aabb3)

  /** `Tile::m_unitSize`. */
  const UnitSize: real := 1.0

  /** The tile of column `colX`, row `rowY`: a unit cube standing on z = 0. */
  function MakeTile(colX: int, rowY: int, def: TileDef): (t: Tile)
    ensures t.def == def
    ensures t.bounds.maxs.x - t.bounds.mins.x == 1.0 && t.bounds.maxs.y - t.bounds.mins.y == 1.0
    ensures t.bounds.mins.z == 0.0 && t.bounds.maxs.z == 1.0
  {
    Tile(def, Aabb3(Vec3(colX as real * UnitSize, rowY as real * UnitSize, 0.0),
                    Vec3((colX + 1) as real * UnitSize, (rowY + 1) as real * UnitSize, 1.0)))
  }

  /** The tile's corners are the integer points (x, y, 0) and (x + 1, y + 1, 1). */
  lemma TileCorners(colX: int, rowY: int, def: TileDef)
    ensures MakeTile(colX, rowY, def).bounds.mins == Vec3(colX as real, rowY as real, 0.0)
    ensures MakeTile(colX, rowY, def).bounds.maxs == Vec3(colX as real + 1.0, rowY as real + 1.0, 1.0)
  {
  }

  /** Neighbouring tiles share an edge in x and in y. */
  lemma AdjacentTilesShareEdges(x: int, y: int, d1: TileDef, d2: TileDef)
    ensures MakeTile(x, y, d1).bounds.maxs.x == MakeTile(x + 1, y, d2).bounds.mins.x
    ensures MakeTile(x, y, d1).bounds.maxs.y == MakeTile(x, y + 1, d2).bounds.mins.y
  {
  }

  /** A point's tile is unique: the x and y extents of distinct tiles do not overlap. */
  lemma TilesDoNotOverlap(x1: int, y1: int, x2: int, y2: int, d1: TileDef, d2: TileDef, px: real, py: real)
    requires MakeTile(x1, y1, d1).bounds.mins.x <= px < MakeTile(x1, y1, d1).bounds.maxs.x
    requires MakeTile(x1, y1, d1).bounds.mins.y <= py < MakeTile(x1, y1, d1).bounds.maxs.y
    requires MakeTile(x2, y2, d2).bounds.mins.x <= px < MakeTile(x2, y2, d2).bounds.maxs.x
    requires MakeTile(x2, y2, d2).bounds.mins.y <= py < MakeTile(x2, y2, d2).bounds.maxs.y
    ensures x1 == x2 && y1 == y2
  {
  }

  /**
   * `AreCoordsInBounds`: both coordinates between 0 and the map's extent,
   * inclusive at the top.
   */
  predicate AreCoordsInBounds(dims: IntVec2, x: int, y: int)
  {
    dims.x >= x && 0 <= x && dims.y >= y && 0 <= y
  }

  /** The accepted set includes the column and row one past the last tile. */
  lemma CoordsInBoundsInclusive(dims: IntVec2, x: int, y: int)
    ensures AreCoordsInBounds(dims, x, y) <==> (0 <= x <= dims.x && 0 <= y <= dims.y)
    ensures dims.x >= 0 && dims.y >= 0 ==> AreCoordsInBounds(dims, dims.x, dims.y)
  {
  }

  /**
   * `GetClamped` on the values GetTile passes it: below the low end gives the
   * low end, above the high end gives the high end. Integers stand for the
   * floats, which are exact on the map sizes in use.
   */
  function Clamp(v: int, lo: int, hi: int): (r: int)
    ensures lo <= hi ==> lo <= r <= hi
    ensures lo <= v <= hi ==> r == v
  {
    if v < lo then lo else if v > hi then hi else v
  }

  /** The largest flat index GetTile admits, as written: (x - 1) + (y - 1) * y. */
  function MaxTileIndex(dims: IntVec2): int
  {
    (dims.x - 1) + (dims.y - 1) * dims.y
  }

  /**
   * `GetTile(x, y)` as written: flat index `y * dims.y + x`, clamped to
   * `[0, MaxTileIndex(dims)]`.
   */
  function GetTileIndex(dims: IntVec2, x: int, y: int): (i: int)
    ensures MaxTileIndex(dims) >= 0 ==> 0 <= i <= MaxTileIndex(dims)
    ensures 0 <= y * dims.y + x <= MaxTileIndex(dims) ==> i == y * dims.y + x
  {
    Clamp(y * dims.y + x, 0, MaxTileIndex(dims))
  }

  /** On a square n-by-n map the index stays within the n * n tiles, whatever the coordinates. */
  lemma SquareMapIndexInRange(n: int, x: int, y: int)
    requires n >= 1
    ensures 0 <= GetTileIndex(IntVec2(n, n), x, y) < n * n
  {
    assert MaxTileIndex(IntVec2(n, n)) == n * n - 1;
  }

  /**
   * The position CreateTiles gives the tile of column x, row y when every
   * texel has a definition: rows of `dims.x` tiles pushed one after the other.
   */
  function RowMajorIndex(dims: IntVec2, x: int, y: int): int
  {
    y * dims.x + x
  }

  /** On a square map, GetTile reads the tile of the cell it is asked for. */
  lemma SquareMapIndexIsRowMajor(n: int, x: int, y: int)
    requires 0 <= x < n && 0 <= y < n
    ensures GetTileIndex(IntVec2(n, n), x, y) == RowMajorIndex(IntVec2(n, n), x, y)
  {
    var k := n - 1 - y;
    MulNonNegative(k, n);
    MulNonNegative(y, n);
    assert (n - 1) * n == y * n + k * n;
    assert 0 <= y * n + x <= MaxTileIndex(IntVec2(n, n));
  }

  lemma MulNonNegative(a: int, b: int)
    requires a >= 0 && b >= 0
    ensures a * b >= 0
  {
  }

  /**
   * As written, on a 3-by-2 map cell (0, 1) reads the tile pushed for cell
   * (2, 0), so two cells share a tile; on a 2-by-3 map cell (1, 2) is given
   * index 7 although there are only six tiles.
   */
  lemma NonSquareMapMisindexes()
    ensures GetTileIndex(IntVec2(3, 2), 0, 1) == 2 != RowMajorIndex(IntVec2(3, 2), 0, 1)
    ensures GetTileIndex(IntVec2(3, 2), 0, 1) == GetTileIndex(IntVec2(3, 2), 2, 0)
    ensures GetTileIndex(IntVec2(2, 3), 1, 2) == 7 >= 2 * 3
  {
  }

  /**
   * GetTile with the row stride the tile list uses: flat index
   * `y * dims.x + x`, clamped to the last tile `dims.x * dims.y - 1`.
   */
  function GetTileIndexRowMajor(dims: IntVec2, x: int, y: int): (i: int)
    requires dims.x >= 1 && dims.y >= 1
    ensures 0 <= i < dims.x * dims.y
  {
    Clamp(RowMajorIndex(dims, x, y), 0, dims.x * dims.y - 1)
  }

  /** The corrected index reads the tile of the requested cell on every map shape, and no two cells share a tile. */
  lemma RowMajorIndexExact(dims: IntVec2, x1: int, y1: int, x2: int, y2: int)
    requires dims.x >= 1 && dims.y >= 1
    requires 0 <= x1 < dims.x && 0 <= y1 < dims.y
    requires 0 <= x2 < dims.x && 0 <= y2 < dims.y
    ensures GetTileIndexRowMajor(dims, x1, y1) == RowMajorIndex(dims, x1, y1)
    ensures GetTileIndexRowMajor(dims, x1, y1) == GetTileIndexRowMajor(dims, x2, y2) ==> x1 == x2 && y1 == y2
  {
    RowMajorBounds(dims, x1, y1);
    RowMajorBounds(dims, x2, y2);
    if y1 < y2 {
      RowsApart(dims.x, x1, y1, x2, y2);
    } else if y2 < y1 {
      RowsApart(dims.x, x2, y2, x1, y1);
    }
  }

  lemma RowMajorBounds(dims: IntVec2, x: int, y: int)
    requires 0 <= x < dims.x && 0 <= y < dims.y
    ensures 0 <= RowMajorIndex(dims, x, y) <= dims.x * dims.y - 1
  {
    assert y * dims.x <= (dims.y - 1) * dims.x;
  }

  lemma RowsApart(w: int, x1: int, y1: int, x2: int, y2: int)
    requires 0 <= x1 < w && 0 <= x2 < w && y1 < y2
    ensures y1 * w + x1 < y2 * w + x2
  {
    var d := y2 - y1 - 1;
    assert d >= 0 && w >= 0;
    assert d * w >= 0;
    assert d * w == y2 * w - y1 * w - w;
  }
}

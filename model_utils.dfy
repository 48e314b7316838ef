/**
 * Grid-to-world coordinate mapping (src/model/model_utils.rs).
 *
 * A level is a `width` x `height` grid of tiles; the renderer works in
 * normalised device coordinates, where both axes run from -1 to 1.  Each
 * tile is mapped to the centre of its cell, with row 0 at the top and
 * column 0 at the left.  The source computes in `f32`; here the arithmetic
 * is exact, over `real`.
 */
module ModelUtils {
  import opened RealFacts

  /** A continuous 2D position (the source's `cgmath::Vector2<f32>`). */
  datatype Vec2 = Vec2(x: real, y: real)

  /** A discrete tile coordinate (the source's `i32` pair). */
  datatype GridPosition = GridPosition(column: int, row: int)

  /** The size of one tile along an axis of `cells` tiles, in world units. */
  function TileSize(cells: real): (r: real)
    requires cells > 0.0
    ensures r > 0.0
    ensures r * cells == 2.0
  {
    2.0 / cells
  }

  /**
   * The world position of the centre of grid cell `g` on a `width` x
   * `height` grid.  Every cell of the grid lands strictly inside the
   * visible square (-1, 1) x (-1, 1).  (The grid sizes are whole numbers
   * in the source; "cell i is on the grid" reads `0 <= i` and `i + 1 <= size`.)
   */
  function GridToPosition(g: GridPosition, width: real, height: real): (p: Vec2)
    requires width > 0.0 && height > 0.0
    ensures 0 <= g.column && (g.column + 1) as real <= width ==> -1.0 < p.x < 1.0
    ensures 0 <= g.row && (g.row + 1) as real <= height ==> -1.0 < p.y < 1.0
  {
    var tileWidth := TileSize(width);
    var tileHeight := TileSize(height);
    CellInsideUnitSquare(g.column, width);
    CellInsideUnitSquare(g.row, height);
    Vec2(-1.0 + tileWidth / 2.0 + g.column as real * tileWidth,
         1.0 - tileHeight / 2.0 - g.row as real * tileHeight)
  }

  /** The centre of cell `i` of `cells` lies strictly between -1 and 1. */
  lemma CellInsideUnitSquare(i: int, cells: real)
    requires cells > 0.0
    ensures 0 <= i && (i + 1) as real <= cells ==>
      -1.0 < -1.0 + TileSize(cells) / 2.0 + i as real * TileSize(cells) < 1.0
  {
    if 0 <= i && (i + 1) as real <= cells {
      var t := TileSize(cells);
      var c := i as real;
      ScaleByPositive(0.0, c, t);
      ScaleByPositive(c + 1.0, cells, t);
      assert cells * t == 2.0;
      assert (c + 1.0) * t == c * t + t;
    }
  }

  /** Column 0 maps to x = -1 + 1/width and row 0 to y = 1 - 1/height. */
  lemma FirstCell(width: real, height: real)
    requires width > 0.0 && height > 0.0
    ensures GridToPosition(GridPosition(0, 0), width, height)
         == Vec2(-1.0 + 1.0 / width, 1.0 - 1.0 / height)
  {
  }

  /** The last cell mirrors the first: x = 1 - 1/width, y = -1 + 1/height. */
  lemma LastCell(width: nat, height: nat)
    requires width > 0 && height > 0
    ensures GridToPosition(GridPosition(width - 1, height - 1), width as real, height as real)
         == Vec2(1.0 - 1.0 / width as real, -1.0 + 1.0 / height as real)
  {
    var w, h := width as real, height as real;
    assert (w - 1.0) * (2.0 / w) == 2.0 - 2.0 / w;
    assert (h - 1.0) * (2.0 / h) == 2.0 - 2.0 / h;
  }

  /**
   * One column to the right moves x by exactly one tile width and leaves y
   * alone; one row down moves y by exactly one tile height and leaves x alone.
   */
  lemma NeighbourCells(g: GridPosition, width: real, height: real)
    requires width > 0.0 && height > 0.0
    ensures var p := GridToPosition(g, width, height);
            var right := GridToPosition(GridPosition(g.column + 1, g.row), width, height);
            var below := GridToPosition(GridPosition(g.column, g.row + 1), width, height);
            && right.x == p.x + 2.0 / width && right.y == p.y
            && below.y == p.y - 2.0 / height && below.x == p.x
  {
    var t := 2.0 / width;
    var u := 2.0 / height;
    assert (g.column + 1) as real * t == g.column as real * t + t;
    assert (g.row + 1) as real * u == g.row as real * u + u;
  }

  /** x depends on the column only, y on the row only. */
  lemma AxesIndependent(g: GridPosition, h: GridPosition, width: real, height: real)
    requires width > 0.0 && height > 0.0
    ensures g.column == h.column ==>
      GridToPosition(g, width, height).x == GridToPosition(h, width, height).x
    ensures g.row == h.row ==>
      GridToPosition(g, width, height).y == GridToPosition(h, width, height).y
  {
  }
}

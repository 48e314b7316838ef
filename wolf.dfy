/**
 * Predators, "wolves" (src/model/wolf.rs): a position and a sprite index,
 * described on the grid by level data and placed in the world on load.
 */
module Wolves {
  import opened ModelUtils

  const WolfSprite := 14

  datatype Wolf<T> = Wolf(pos: T, sprite: int)

  /** `Wolf::new(pos)`: the given position and the wolf sprite. */
  function NewWolf<T>(pos: T): (w: Wolf<T>)
    ensures w.pos == pos && w.sprite == WolfSprite
  {
    Wolf(pos, WolfSprite)
  }

  /**
   * `Wolf<GridPosition>::from`: the position mapped to the world on a
   * `width` x `height` grid, and the wolf sprite whatever the descriptor had.
   */
  function FromGrid(g: Wolf<GridPosition>, width: real, height: real): (w: Wolf<Vec2>)
    requires width > 0.0 && height > 0.0
    ensures w.pos == GridToPosition(g.pos, width, height)
    ensures w.sprite == WolfSprite
  {
    NewWolf(GridToPosition(g.pos, width, height))
  }
}

/**
 * Teleport pairs, "fox holes" (src/model/fox_hole.rs).
 *
 * A fox hole has an entry and an exit, a one-shot `used` flag, and three
 * sprite-sheet indices: the entry, the exit and the "closed" overlay drawn
 * once the hole is used.  Level data describes holes on the grid; loading
 * a level turns each into a hole at world positions.
 */
module FoxHoles {
  import opened Wrappers
  import opened ModelUtils

  const EntrySprite := 12
  const ExitSprite := 12
  const ClosedSprite := 13

  datatype FoxHole<T> = FoxHole(
    entry: T,
    exit: T,
    used: bool,
    entrySprite: int,
    exitSprite: int,
    closedSprite: int)

  /**
   * `FoxHole::new(entry, exit, used)`: the given ends, `used` defaulting to
   * false, and the standard sprites whatever the caller had.
   */
  function NewFoxHole<T>(entry: T, exit: T, used: Option<bool>): (h: FoxHole<T>)
    ensures h.entry == entry && h.exit == exit
    ensures used.None? ==> !h.used
    ensures used.Some? ==> h.used == used.value
    ensures h.entrySprite == EntrySprite && h.exitSprite == ExitSprite
    ensures h.closedSprite == ClosedSprite
  {
    FoxHole(entry, exit, used.UnwrapOr(false), EntrySprite, ExitSprite, ClosedSprite)
  }

  /**
   * `FoxHole<GridPosition>::from`: both ends mapped to world positions on a
   * `width` x `height` grid, a fresh unused hole, standard sprites.
   */
  function FromGrid(g: FoxHole<GridPosition>, width: real, height: real): (h: FoxHole<Vec2>)
    requires width > 0.0 && height > 0.0
    ensures h.entry == GridToPosition(g.entry, width, height)
    ensures h.exit == GridToPosition(g.exit, width, height)
    ensures !h.used
    ensures h.entrySprite == EntrySprite && h.exitSprite == ExitSprite
    ensures h.closedSprite == ClosedSprite
  {
    var entryPos := GridToPosition(g.entry, width, height);
    var exitPos := GridToPosition(g.exit, width, height);
    NewFoxHole(entryPos, exitPos, None)
  }

  /**
   * Loading depends on the grid ends alone: the descriptor's `used` flag and
   * sprites are ignored.
   */
  lemma FromGridIgnoresStatus(g: FoxHole<GridPosition>, used: bool, s1: int, s2: int, s3: int,
                              width: real, height: real)
    requires width > 0.0 && height > 0.0
    ensures FromGrid(g, width, height)
         == FromGrid(FoxHole(g.entry, g.exit, used, s1, s2, s3), width, height)
  {
  }
}

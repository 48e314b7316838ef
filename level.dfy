/**
 * Level descriptors (src/model/level.rs): a 25-tile map stored row by row
 * with its width and height, and the one level the game ships, level 0.
 */
module Levels {

  /** The source's `[i32; 25]` tile array. */
  type Tiles = s: seq<int> | |s| == 25 witness seq(25, _ => 0)

  /** The source stores width and height as `u32`. */
  newtype U32 = x: int | 0 <= x < 0x1_0000_0000

  datatype Level = Level(data: Tiles, width: U32, height: U32)

  /** The tiles of level 0, row by row; each code is an index into the tile sprite sheet. */
  const Level0Data: Tiles := [
    1, 1, 1, 1, 1,
    1, 0, 1, 0, 1,
    1, 1, 1, 1, 1,
    1, 0, 1, 0, 1,
    1, 1, 3, 1, 1]

  const Level0 := Level(Level0Data, 5, 5)

  /** `get_data`. */
  function GetData(l: Level): Tiles
  {
    l.data
  }

  /** `get_width`. */
  function GetWidth(l: Level): U32
  {
    l.width
  }

  /** `get_height`. */
  function GetHeight(l: Level): U32
  {
    l.height
  }

  /**
   * Level 0 is 5 x 5, its tile array holds exactly width times height tiles,
   * every tile is 0, 1 or 3, and tile 3 appears only at index 22 (row 4,
   * column 2).
   */
  lemma Level0Shape()
    ensures GetWidth(Level0) == 5 && GetHeight(Level0) == 5
    ensures |GetData(Level0)| == (GetWidth(Level0) * GetHeight(Level0)) as int
    ensures forall i :: 0 <= i < |GetData(Level0)| ==> GetData(Level0)[i] in {0, 1, 3}
    ensures forall i :: 0 <= i < |GetData(Level0)| && GetData(Level0)[i] == 3 ==> i == 22
  {
  }

  /** The getters hand back what a level was built from. */
  lemma GettersReturnFields(data: Tiles, width: U32, height: U32)
    ensures GetData(Level(data, width, height)) == data
    ensures GetWidth(Level(data, width, height)) == width
    ensures GetHeight(Level(data, width, height)) == height
  {
  }
}

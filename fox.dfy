/**
 * The player, "the fox" (src/model/fox.rs): a world position and the sprite
 * index of the direction it last moved in.
 */
module Foxes {
  import opened ModelUtils

  const MoveDownSprite := 0
  const MoveLeftSprite := 3
  const MoveRightSprite := 6
  const MoveUpSprite := 9

  /** The four direction sprites are pairwise distinct. */
  lemma DirectionSpritesDistinct()
    ensures |{MoveDownSprite, MoveLeftSprite, MoveRightSprite, MoveUpSprite}| == 4
  {
  }

  class Fox {
    var pos: Vec2
    var sprite: int

    /** `Fox::new(pos)`: at `pos`, facing down. */
    constructor (pos: Vec2)
      ensures this.pos == pos && sprite == MoveDownSprite
    {
      this.pos := pos;
      sprite := MoveDownSprite;
    }

    /** `set_move_left_sprite`: faces left; the position is untouched. */
    method SetMoveLeftSprite()
      modifies this
      ensures sprite == MoveLeftSprite && pos == old(pos)
    {
      sprite := MoveLeftSprite;
    }

    /** `set_move_right_sprite`: faces right; the position is untouched. */
    method SetMoveRightSprite()
      modifies this
      ensures sprite == MoveRightSprite && pos == old(pos)
    {
      sprite := MoveRightSprite;
    }

    /** `set_move_down_sprite`: faces down; the position is untouched. */
    method SetMoveDownSprite()
      modifies this
      ensures sprite == MoveDownSprite && pos == old(pos)
    {
      sprite := MoveDownSprite;
    }

    /** `set_move_up_sprite`: faces up; the position is untouched. */
    method SetMoveUpSprite()
      modifies this
      ensures sprite == MoveUpSprite && pos == old(pos)
    {
      sprite := MoveUpSprite;
    }
  }
}

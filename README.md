# For Fox Sake — verified model of the game's input, animation and entity logic

For Fox Sake is a small tile-based browser game written in Rust and compiled
to WebAssembly. The player is a fox moving on a grid. Fox holes teleport it
once. Wolves are hazards. Short particle and screen effects play when a hole
is used.

This project models the self-contained game logic of the repository in Dafny
and proves its properties:

- **Keyboard input** (`input.dfy`, module `KeyInput`). A fixed table maps
  key codes to five actions, two codes per action. A per-key latch makes
  auto-repeated key-downs count once. Per-action counters are kept for this
  frame and for the last frame, and `finalize` copies one into the other. The
  state is a class `Input` whose methods update three maps in place. Each
  method is proved to move the state exactly as a pure function on an
  `InputState` value says, and the lemmas are proved about those functions.
  The central invariant (`Counting`) is that each action's counter equals the
  number of its key codes latched down. So counters stay in [0, 2] and the
  source's `i8` counters cannot overflow.
- **Edge queries** (`read_only_input.dfy`, module `ReadOnlyInput`). These
  report whether an action went down this frame, is held, or went up. They
  are predicates over the two counter maps.
- **Sprite animation** (`animation.dfy`, module `Animation`). An animated
  entity has a table of clips, the name of the clip playing, and the time
  into that clip. Replaying the same clip advances time modulo the clip's
  duration, using Rust's truncating float remainder. Switching clips cuts to
  time 0. The frame shown is `from + floor(time / timeout)`.
- **Grid-to-world mapping** (`model_utils.dfy`, module `ModelUtils`). This
  maps grid cells to cell centres in normalised device coordinates.
- **Entities built from level data**: fox holes (`fox_hole.dfy`), wolves
  (`wolf.dfy`), the fox with its direction sprites (`fox.dfy`), and the level
  descriptor with level 0 (`level.dfy`).
- **Post-process effects** (`vignette.dfy`, `post_process_effect.dfy`). This
  covers the vignette effect's kind and timing record and the factory that
  builds an effect from its kind.

Float arithmetic (`f32` in the source) is modelled over `real`. The proved
properties are exact statements about the intended arithmetic, which `f32`
only approximates.

## Model

| member | source | states |
|---|---|---|
| `KeyInput.KeyMap` | src/for_fox_sake/input.rs:12-24 | the ten key codes 38/87, 39/68, 40/83, 37/65 and 69/32 map to MoveUp, MoveRight, MoveDown, MoveLeft and Use, in that pairing |
| `KeyInput.ActionsAreTheFive` | src/for_fox_sake/input.rs:12-24 | the key table names exactly the five actions MoveUp, MoveRight, MoveDown, MoveLeft and Use |
| `KeyInput.TwoCodesPerAction` | src/for_fox_sake/input.rs:12-24 | every action is bound to exactly two key codes |
| `KeyInput.InitialState` | src/for_fox_sake/input.rs:45-64 | a new input has no key held and every action known to both frames and pressed in neither |
| `KeyInput.KeyDownState` | src/for_fox_sake/input.rs:79-99 | afterwards the key is held; a key not held before adds 1 to its own action's counter and to no other; a key already held changes no counter; other keys' latches and last frame's counters are untouched |
| `KeyInput.KeyUpState` | src/for_fox_sake/input.rs:101-120 | afterwards the key is recorded as released; a key held before takes 1 from its own action's counter and from no other; a key not held changes no counter; other keys' latches and last frame's counters are untouched |
| `KeyInput.FinalizeState` | src/for_fox_sake/input.rs:66-72 | last frame's counter of every action counted this frame becomes this frame's counter, the others keep theirs, and neither this frame's counters nor the latches change |
| `KeyInput.PressedThisFrame` | src/for_fox_sake/input.rs:122-125 | an action is pressed this frame when its counter is positive; the lookup requires the action to be counted, as the source's unwrap does |
| `KeyInput.PressedLastFrame` | src/for_fox_sake/input.rs:127-130 | an action was pressed last frame when last frame's counter is positive; the lookup requires the action to be present |
| `KeyInput.InitialStateCounts` | src/for_fox_sake/input.rs:45-64 | after `new` every action has counter 0 in both frames, no key is latched, and the counting invariant holds |
| `KeyInput.KeyDownKeepsCounting` | src/for_fox_sake/input.rs:79-99 | `key_down` keeps each action's counter equal to the number of its latched key codes |
| `KeyInput.KeyUpKeepsCounting` | src/for_fox_sake/input.rs:101-120 | `key_up` keeps each action's counter equal to the number of its latched key codes |
| `KeyInput.FinalizeKeepsCounting` | src/for_fox_sake/input.rs:66-72 | `finalize` keeps the counting invariant |
| `KeyInput.CountsBounded` | src/for_fox_sake/input.rs:12-24 | under the counting invariant every counter lies in [0, 2] |
| `KeyInput.KeyDownWhileHeld` | src/for_fox_sake/input.rs:87-98 | a key-down of a key already latched changes nothing, so auto-repeat is harmless |
| `KeyInput.KeyDownIdempotent` | src/for_fox_sake/input.rs:79-99 | two key-downs of the same key have the effect of one |
| `KeyInput.KeyUpWhenReleased` | src/for_fox_sake/input.rs:101-120 | a key-up of a key not latched changes no counter and leaves the key released |
| `KeyInput.KeyDownThenUp` | src/for_fox_sake/input.rs:79-120 | pressing then releasing a key that was not held restores every counter and leaves the key recorded as released |
| `KeyInput.UnmappedKey` | src/for_fox_sake/input.rs:74-120 | a key code outside the table changes no counter, but its latch is still set on key-down and cleared on key-up |
| `KeyInput.FinalizeSnapshots` | src/for_fox_sake/input.rs:66-72 | `finalize` makes last frame's counters equal to this frame's and changes neither this frame's counters nor the latches |
| `KeyInput.PressedIffKeyHeld` | src/for_fox_sake/input.rs:122-125 | under the invariant, an action reads as pressed this frame exactly when one of its key codes is latched down |
| `KeyInput.Step` | src/for_fox_sake/input.rs:66-120 | every key-down, key-up or finalize keeps the counting invariant |
| `KeyInput.Apply` | src/for_fox_sake/input.rs:66-120 | any sequence of key-downs, key-ups and finalizes keeps the counting invariant |
| `KeyInput.CountsBoundedFromStart` | src/for_fox_sake/input.rs:45-120 | from a fresh input and after any sequence of events, every counter lies in [0, 2], so the `i8` counters never overflow |
| `KeyInput.Input.constructor` | src/for_fox_sake/input.rs:45-64 | the loop over the key table gives one zero counter per action in each frame and no latches |
| `KeyInput.Input.KeyDown` | src/for_fox_sake/input.rs:79-99 | the in-place update yields exactly the key-down state and keeps the invariant |
| `KeyInput.Input.KeyUp` | src/for_fox_sake/input.rs:101-120 | the in-place update yields exactly the key-up state and keeps the invariant |
| `KeyInput.Input.Finalize` | src/for_fox_sake/input.rs:66-72 | the loop over the actions, in any order, yields exactly the finalized state and keeps the invariant |
| `KeyInput.Input.IsInputPressedThisFrame` | src/for_fox_sake/input.rs:122-125 | the query of the object agrees with the query of its state value; an action missing from the map is excluded, as the source's unwrap demands |
| `KeyInput.Input.IsInputPressedLastFrame` | src/for_fox_sake/input.rs:127-130 | the last-frame query of the object agrees with the query of its state value |
| `ReadOnlyInput.IsInputDown` | src/for_fox_sake/read_only_input.rs:17-20 | an action is down when it is pressed this frame and was not last frame; both lookups require the action to be known |
| `ReadOnlyInput.IsInputPressed` | src/for_fox_sake/read_only_input.rs:22-25 | an action is pressed when it is pressed in both frames |
| `ReadOnlyInput.IsInputUp` | src/for_fox_sake/read_only_input.rs:27-30 | an action is up when it is not pressed this frame but was last frame |
| `ReadOnlyInput.AtMostOneEdge` | src/for_fox_sake/read_only_input.rs:17-30 | at most one of down, pressed and up holds, and one holds exactly when the action is pressed in either frame |
| `ReadOnlyInput.DownOrPressedIffHeld` | src/for_fox_sake/read_only_input.rs:17-25 | "down or pressed" holds exactly when one of the action's keys is latched down |
| `ReadOnlyInput.NoEdgeAfterFinalize` | src/for_fox_sake/read_only_input.rs:17-30 | right after `finalize` no action is down or up, and an action is pressed exactly when it was pressed this frame |
| `ReadOnlyInput.FirstKeyDownIsRisingEdge` | src/for_fox_sake/read_only_input.rs:17-20 | after `finalize`, the first key-down of an action with no held keys makes it go down |
| `ReadOnlyInput.LastKeyUpIsFallingEdge` | src/for_fox_sake/read_only_input.rs:27-30 | after `finalize`, releasing the only held key of an action makes it go up |
| `Animation.FloatRem` | src/model/animation_trait.rs:20 | the float remainder differs from the dividend by a whole multiple of the divisor; for a non-negative dividend and positive divisor it lies in [0, divisor), for a non-positive one in (-divisor, 0] |
| `Animation.FloatRemOfSmall` | src/model/animation_trait.rs:20 | a non-negative value below the divisor is its own remainder |
| `Animation.AdvancedTime` | src/model/animation_trait.rs:16-21 | the new clip time is the old time plus the step, less a whole number of clip durations; with a positive duration and a non-negative sum it lies in [0, duration) |
| `Animation.SpriteIndex` | src/model/animation_trait.rs:29-33 | with a positive frame time, frame `from + k` is shown exactly for times in [k * timeout, (k + 1) * timeout) |
| `Animation.AdvancedTimeInClip` | src/model/animation_trait.rs:16-21 | advancing a well-formed clip by non-negative time from a non-negative time keeps the time in [0, duration) |
| `Animation.AdvancedTimeNoWrap` | src/model/animation_trait.rs:18-20 | time that stays below the duration is simply accumulated |
| `Animation.SpriteInClip` | src/model/animation_trait.rs:29-33 | a time inside a well-formed clip shows one of the clip's own frames, in [from, to) |
| `Animation.SpriteAtStart` | src/model/animation_trait.rs:29-33 | time 0 shows the clip's first frame |
| `Animation.WrapExample` | src/model/animation_trait.rs:16-33 | a clip of frames [3, 6) at 0.1 s per frame played for 0.35 s is at 0.05 s and shows frame 3 |
| `Animation.AnimatedSprite.constructor` | src/model/animation_trait.rs:3-10 | an animated entity starts at time 0 on the given clip; the state is valid when that clip is in the table and well formed |
| `Animation.AnimatedSprite.UpdateAnimation` | src/model/animation_trait.rs:14-27 | the same clip advances by the remainder rule, another clip is switched to at time 0, the clip table never changes, and a valid state stays valid |
| `Animation.AnimatedSprite.GetSprite` | src/model/animation_trait.rs:29-33 | in a valid state the frame lies in the playing clip's range; at time 0 it is the clip's first frame |
| `ModelUtils.TileSize` | src/model/model_utils.rs:10-11 | a tile is positive in size and the tiles of an axis span the width 2 of the screen |
| `ModelUtils.GridToPosition` | src/model/model_utils.rs:7-13 | every cell of the grid maps strictly inside (-1, 1) on both axes |
| `ModelUtils.FirstCell` | src/model/model_utils.rs:10-13 | cell (0, 0) maps to (-1 + 1/width, 1 - 1/height) |
| `ModelUtils.LastCell` | src/model/model_utils.rs:10-13 | the bottom-right cell maps to (1 - 1/width, -1 + 1/height), mirroring the first |
| `ModelUtils.NeighbourCells` | src/model/model_utils.rs:10-13 | one column right adds exactly 2/width to x and one row down subtracts exactly 2/height from y, with the other coordinate unchanged |
| `ModelUtils.AxesIndependent` | src/model/model_utils.rs:12-13 | x depends only on the column and y only on the row |
| `FoxHoles.NewFoxHole` | src/model/fox_hole.rs:16-19 | the ends are stored as given, `used` defaults to false, and the sprites are always 12, 12 and 13 |
| `FoxHoles.FromGrid` | src/model/fox_hole.rs:25-31 | both ends are mapped through the grid mapping with the same sizes, and the hole is unused with the default sprites |
| `FoxHoles.FromGridIgnoresStatus` | src/model/fox_hole.rs:25-31 | the loaded hole does not depend on the descriptor's `used` flag or sprites |
| `Wolves.NewWolf` | src/model/wolf.rs:12-15 | the position is stored as given and the sprite is always 14 |
| `Wolves.FromGrid` | src/model/wolf.rs:20-25 | the position is mapped through the grid mapping, and the sprite is 14 whatever the descriptor had |
| `Foxes.DirectionSpritesDistinct` | src/model/fox.rs:16-34 | the four direction sprites 3, 6, 0 and 9 are pairwise distinct |
| `Foxes.Fox.constructor` | src/model/fox.rs:11-14 | a new fox is at the given position with sprite 0 |
| `Foxes.Fox.SetMoveLeftSprite` | src/model/fox.rs:16-19 | the sprite becomes 3 whatever it was, so the setter is idempotent, and the position is unchanged |
| `Foxes.Fox.SetMoveRightSprite` | src/model/fox.rs:21-24 | the sprite becomes 6 and the position is unchanged |
| `Foxes.Fox.SetMoveDownSprite` | src/model/fox.rs:26-29 | the sprite becomes 0 and the position is unchanged |
| `Foxes.Fox.SetMoveUpSprite` | src/model/fox.rs:31-34 | the sprite becomes 9 and the position is unchanged |
| `Levels.Level0` | src/model/level.rs:27-31 | level 0 is the 25 tiles given row by row, with width 5 and height 5 |
| `Levels.GetData` | src/model/level.rs:10-13 | returns the level's tiles |
| `Levels.GetWidth` | src/model/level.rs:15-18 | returns the level's width |
| `Levels.GetHeight` | src/model/level.rs:20-23 | returns the level's height |
| `Levels.Level0Shape` | src/model/level.rs:27-31 | level 0 is 5 by 5, holds width times height tiles, uses only codes 0, 1 and 3, and has code 3 only at index 22 |
| `Levels.GettersReturnFields` | src/model/level.rs:10-23 | the getters return the data, width and height a level was built from |
| `Vignettes.Vignette.constructor` | src/view/post_process_effect/vignette.rs:16-19 | a new vignette has the vignette kind and the given running time and maximum |
| `Vignettes.Vignette.GetEffectType` | src/view/post_process_effect/vignette.rs:24-27 | the kind of a vignette is always the vignette kind |
| `Vignettes.Vignette.GetRunningTime` | src/view/post_process_effect/vignette.rs:34-37 | returns the running time |
| `Vignettes.Vignette.GetMaxRunningTime` | src/view/post_process_effect/vignette.rs:44-47 | returns the maximum running time |
| `Vignettes.Vignette.SetRunningTime` | src/view/post_process_effect/vignette.rs:29-37 | afterwards the running-time getter returns the new value, and the maximum and the kind are unchanged |
| `Vignettes.Vignette.SetMaxRunningTime` | src/view/post_process_effect/vignette.rs:39-47 | afterwards the maximum getter returns the new value, and the running time and the kind are unchanged |
| `PostProcessEffect.GetEffectByType` | src/view/post_process_effect.rs:19-27 | for every kind, a fresh effect of that kind with the given running time and maximum |

## Left out

- Rendering: the WebGL helpers, the shaders, `Vignette::apply`, `vignette::get_shader` and `get_shader_by_type`. They are calls into the browser's graphics API with no checkable logic.
- The `Effect` trait in src/view/post_process_effect/effect.rs. Dafny traits are not used here; the factory returns the one effect class, `Vignette`, which has the trait's getters and setters.
- The WebAssembly bootstrap (src/lib.rs, src/for_fox_sake.rs) and the world-update stub in src/model.rs. The engine it wraps is not part of this model, so teleporting, movement, collisions and effect ageing are not modelled.
- The data-only view-model structs and the particle-system record have no behaviour. `PostProcessEffects` is modelled as a one-variant datatype, because its declaration is not part of this model.
- `SpriteAnimationMetaData` is not part of this model's sources. Its fields (`from_index`, `to_index`, `timeout`) are taken from their use in src/model/animation_trait.rs.
- The `SpriteAnimation` trait becomes the class `AnimatedSprite`, which holds the state the trait's accessors expose. The types that implement the trait are not part of this model.
- `f32` rounding is not modelled. The remainder, the division and `floor` are exact on `real`.
- The saturating float-to-`i32` cast in `get_sprite` is not modelled, because in a valid state the frame is within the clip.
- `KeyInput`: the process-wide `lazy_static` table becomes a module constant. `HashMap` iteration order is not modelled; `finalize` and `new` pick keys in any order, and the proofs hold for every order. The `i8` counters are unbounded integers, and `CountsBoundedFromStart` proves that they stay within [0, 2].
- `ReadOnlyInput`: the view holds a reference to the input. Its queries are modelled over the input's state value, which is what the reference reads.
- `ModelUtils.GridToPosition` requires positive grid sizes, and `FoxHoles.FromGrid` and `Wolves.FromGrid` inherit that requirement. The sizes come from a level's `u32` width and height (src/model/level.rs:4-5), so they are never negative and the only case left out is zero. With a zero size the `f32` code divides by zero: it gives infinities, and NaN for column or row 0 (0 times infinity). `real` can express neither.
- `Animation.AnimatedSprite.UpdateAnimation` requires a non-zero duration when the same clip is replayed. The `f32` remainder by zero gives NaN, which `real` cannot express.
- `Animation.AnimatedSprite.GetSprite` requires a non-zero frame time, for the same reason.

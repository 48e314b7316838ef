/**
 * Edge and level queries over the input (src/for_fox_sake/read_only_input.rs).
 *
 * A read-only view of the input answers, per action, whether it went down
 * this frame (rising edge), is held (pressed in both frames) or went up
 * this frame (falling edge).  Every query unwraps both counters, so the
 * action must be known to both frames.
 */
module ReadOnlyInput {
  import opened KeyInput

  /** Both counters of `a` exist, as every lookup of the view requires. */
  predicate Known(s: InputState, a: string)
  {
    a in s.counts && a in s.lastCounts
  }

  /** `is_input_down`: pressed this frame but not last frame. */
  predicate IsInputDown(s: InputState, a: string)
    requires Known(s, a)
  {
    PressedThisFrame(s, a) && !PressedLastFrame(s, a)
  }

  /** `is_input_pressed`: pressed this frame and last frame. */
  predicate IsInputPressed(s: InputState, a: string)
    requires Known(s, a)
  {
    PressedThisFrame(s, a) && PressedLastFrame(s, a)
  }

  /** `is_input_up`: not pressed this frame but pressed last frame. */
  predicate IsInputUp(s: InputState, a: string)
    requires Known(s, a)
  {
    !PressedThisFrame(s, a) && PressedLastFrame(s, a)
  }

  /** At most one of down, pressed and up holds for any action. */
  lemma AtMostOneEdge(s: InputState, a: string)
    requires Known(s, a)
    ensures !(IsInputDown(s, a) && IsInputPressed(s, a))
    ensures !(IsInputDown(s, a) && IsInputUp(s, a))
    ensures !(IsInputPressed(s, a) && IsInputUp(s, a))
    ensures IsInputDown(s, a) || IsInputPressed(s, a) || IsInputUp(s, a)
        <==> PressedThisFrame(s, a) || PressedLastFrame(s, a)
  {
  }

  /**
   * The convention of the game loop, "down or pressed", means exactly that
   * one of the action's keys is held now.
   */
  lemma DownOrPressedIffHeld(s: InputState, a: string)
    requires Counting(s) && a in Actions
    ensures IsInputDown(s, a) || IsInputPressed(s, a) <==>
      exists k :: k in KeyMap && KeyMap[k] == a && Held(s.latch, k)
  {
    PressedIffKeyHeld(s, a);
  }

  /**
   * Right after `finalize`, with no key event in between, no action is on an
   * edge: it is either held in both frames or released in both.
   */
  lemma NoEdgeAfterFinalize(s: InputState, a: string)
    requires Counting(s) && a in Actions
    ensures Known(FinalizeState(s), a)
    ensures !IsInputDown(FinalizeState(s), a) && !IsInputUp(FinalizeState(s), a)
    ensures IsInputPressed(FinalizeState(s), a) <==> PressedThisFrame(s, a)
  {
    FinalizeSnapshots(s);
  }

  /**
   * After `finalize`, the first key-down of an action none of whose keys
   * was held makes that action go down.
   */
  lemma FirstKeyDownIsRisingEdge(s: InputState, k: int)
    requires Counting(s) && k in KeyMap
    requires HeldCodes(s.latch, KeyMap[k]) == {}
    ensures Known(KeyDownState(FinalizeState(s), k), KeyMap[k])
    ensures IsInputDown(KeyDownState(FinalizeState(s), k), KeyMap[k])
  {
    var a := KeyMap[k];
    FinalizeSnapshots(s);
    FinalizeKeepsCounting(s);
    assert k !in HeldCodes(s.latch, a);
    KeyDownKeepsCounting(FinalizeState(s), k);
    PressedIffKeyHeld(KeyDownState(FinalizeState(s), k), a);
  }

  /**
   * After `finalize`, releasing the only held key of an action makes that
   * action go up.
   */
  lemma LastKeyUpIsFallingEdge(s: InputState, k: int)
    requires Counting(s) && k in KeyMap
    requires HeldCodes(s.latch, KeyMap[k]) == {k}
    ensures Known(KeyUpState(FinalizeState(s), k), KeyMap[k])
    ensures IsInputUp(KeyUpState(FinalizeState(s), k), KeyMap[k])
  {
    var a := KeyMap[k];
    FinalizeSnapshots(s);
    FinalizeKeepsCounting(s);
    assert Held(s.latch, k) by { assert k in HeldCodes(s.latch, a); }
    HeldCodesAfterRelease(s.latch, k, a);
  }
}

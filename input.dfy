/**
 * Keyboard input state machine (src/for_fox_sake/input.rs).
 *
 * A fixed table maps browser key codes to logical actions, two codes per
 * action.  The input object keeps, per key code, a latch that says whether
 * the key is currently held (so auto-repeated key-down events count once),
 * and per action a counter of how many of its keys are held this frame,
 * plus a copy of those counters taken at the end of the previous frame.
 *
 * The state is modelled twice: as a value (`InputState`) with one pure
 * function per operation, about which the lemmas below are proved, and as
 * the class `Input` whose fields the methods update in place, each method
 * proved to move its state exactly as the matching function says.
 */
module KeyInput {

  /** The key-code-to-action table (`KEY_MAP`). */
  const KeyMap: map<int, string> := map[
    38 := "MoveUp", 39 := "MoveRight", 40 := "MoveDown", 37 := "MoveLeft",
    87 := "MoveUp", 68 := "MoveRight", 83 := "MoveDown", 65 := "MoveLeft",
    69 := "Use", 32 := "Use"]

  /** Every action that some key code maps to. */
  const Actions: set<string> := KeyMap.Values

  lemma ActionsAreTheFive()
    ensures Actions == {"MoveUp", "MoveRight", "MoveDown", "MoveLeft", "Use"}
  {
    assert KeyMap[38] == "MoveUp" && KeyMap[39] == "MoveRight";
    assert KeyMap[40] == "MoveDown" && KeyMap[37] == "MoveLeft" && KeyMap[69] == "Use";
  }

  /** The key codes bound to action `a`. */
  ghost function CodesOf(a: string): set<int>
  {
    set k | k in KeyMap && KeyMap[k] == a
  }

  /** Each action is bound to exactly two key codes. */
  lemma TwoCodesPerAction(a: string)
    requires a in Actions
    ensures |CodesOf(a)| == 2
  {
    ActionsAreTheFive();
    if a == "MoveUp" { assert CodesOf(a) == {38, 87}; }
    else if a == "MoveRight" { assert CodesOf(a) == {39, 68}; }
    else if a == "MoveDown" { assert CodesOf(a) == {40, 83}; }
    else if a == "MoveLeft" { assert CodesOf(a) == {37, 65}; }
    else { assert CodesOf(a) == {69, 32}; }
  }

  /**
   * The value of an input object: the per-key latch (`keys_already_pressed`),
   * this frame's per-action counters (`keys_pressed`) and last frame's
   * (`keys_pressed_last_frame`).  The source stores the counters as `i8`;
   * they are unbounded here (see `CountsBounded`).
   */
  datatype InputState = InputState(
    latch: map<int, bool>,
    counts: map<string, int>,
    lastCounts: map<string, int>)

  /** Whether key `k` is latched down in `latch`. */
  predicate Held(latch: map<int, bool>, k: int)
  {
    k in latch && latch[k]
  }

  /** The key codes of action `a` that are latched down. */
  ghost function HeldCodes(latch: map<int, bool>, a: string): set<int>
  {
    set k | k in KeyMap && KeyMap[k] == a && Held(latch, k)
  }

  /**
   * The object invariant of the input: both counter maps have exactly the
   * actions as keys, and each action's counter this frame is the number of
   * its key codes latched down.
   */
  ghost predicate Counting(s: InputState)
  {
    && s.counts.Keys == Actions
    && s.lastCounts.Keys == Actions
    && forall a :: a in s.counts ==> s.counts[a] == |HeldCodes(s.latch, a)|
  }

  /** The state built by `Input::new`: no latches, every counter 0. */
  function InitialState(): (r: InputState)
    ensures forall k :: !Held(r.latch, k)
    ensures forall a :: a in Actions ==>
      a in r.counts && a in r.lastCounts && !PressedThisFrame(r, a) && !PressedLastFrame(r, a)
  {
    InputState(map[], map a | a in Actions :: 0, map a | a in Actions :: 0)
  }

  /** Adds `delta` to the counter of the action bound to `k`, if there is one. */
  function Bump(counts: map<string, int>, k: int, delta: int): map<string, int>
  {
    if k in KeyMap && KeyMap[k] in counts
    then counts[KeyMap[k] := counts[KeyMap[k]] + delta]
    else counts
  }

  /** `key_down(k)`: a key not yet latched is latched and its action counted. */
  function KeyDownState(s: InputState, k: int): (r: InputState)
    ensures Held(r.latch, k)
    ensures forall j :: j != k ==> Held(r.latch, j) == Held(s.latch, j)
    ensures r.counts.Keys == s.counts.Keys && r.lastCounts == s.lastCounts
    ensures !Held(s.latch, k) && k in KeyMap && KeyMap[k] in s.counts ==>
      r.counts[KeyMap[k]] == s.counts[KeyMap[k]] + 1
    ensures forall a :: a in s.counts && (Held(s.latch, k) || k !in KeyMap || KeyMap[k] != a) ==>
      r.counts[a] == s.counts[a]
  {
    if Held(s.latch, k) then s
    else s.(latch := s.latch[k := true], counts := Bump(s.counts, k, 1))
  }

  /**
   * `key_up(k)`: a latched key is released and its action uncounted; an
   * unlatched key is recorded as released.
   */
  function KeyUpState(s: InputState, k: int): (r: InputState)
    ensures k in r.latch && !Held(r.latch, k)
    ensures forall j :: j != k ==> Held(r.latch, j) == Held(s.latch, j)
    ensures r.counts.Keys == s.counts.Keys && r.lastCounts == s.lastCounts
    ensures Held(s.latch, k) && k in KeyMap && KeyMap[k] in s.counts ==>
      r.counts[KeyMap[k]] == s.counts[KeyMap[k]] - 1
    ensures forall a :: a in s.counts && (!Held(s.latch, k) || k !in KeyMap || KeyMap[k] != a) ==>
      r.counts[a] == s.counts[a]
  {
    if Held(s.latch, k)
    then s.(latch := s.latch[k := false], counts := Bump(s.counts, k, -1))
    else s.(latch := s.latch[k := false])
  }

  /**
   * `finalize`: every action counted this frame has its counter copied
   * into last frame's.  Unwrapping last frame's counter requires the action
   * to be present there.
   */
  function FinalizeState(s: InputState): (r: InputState)
    requires s.counts.Keys <= s.lastCounts.Keys
    ensures r.latch == s.latch && r.counts == s.counts
    ensures r.lastCounts.Keys == s.lastCounts.Keys
    ensures forall a :: a in s.counts ==> r.lastCounts[a] == s.counts[a]
    ensures forall a :: a in s.lastCounts && a !in s.counts ==> r.lastCounts[a] == s.lastCounts[a]
  {
    s.(lastCounts := map a | a in s.lastCounts ::
                       if a in s.counts then s.counts[a] else s.lastCounts[a])
  }

  /** `is_input_pressed_this_frame(a)`; unwrapping requires `a` to be counted. */
  function PressedThisFrame(s: InputState, a: string): bool
    requires a in s.counts
  {
    s.counts[a] > 0
  }

  /** `is_input_pressed_last_frame(a)`. */
  function PressedLastFrame(s: InputState, a: string): bool
    requires a in s.lastCounts
  {
    s.lastCounts[a] > 0
  }

  // ---------------------------------------------------------------------
  // Properties of the operations
  // ---------------------------------------------------------------------

  /** After `new`, every action reads 0 in both frames and no key is latched. */
  lemma InitialStateCounts()
    ensures Counting(InitialState())
    ensures forall a :: a in Actions ==>
      InitialState().counts[a] == 0 && InitialState().lastCounts[a] == 0
    ensures InitialState().latch == map[]
  {
    var s := InitialState();
    forall a | a in s.counts ensures s.counts[a] == |HeldCodes(s.latch, a)| {
      assert HeldCodes(s.latch, a) == {};
    }
  }

  /** Latching a released key adds it to the held codes of its own action only. */
  lemma HeldCodesAfterLatch(latch: map<int, bool>, k: int, a: string)
    requires !Held(latch, k)
    ensures HeldCodes(latch[k := true], a)
         == if k in KeyMap && KeyMap[k] == a then HeldCodes(latch, a) + {k} else HeldCodes(latch, a)
  {
  }

  /** Releasing a key removes it from the held codes. */
  lemma HeldCodesAfterRelease(latch: map<int, bool>, k: int, a: string)
    ensures HeldCodes(latch[k := false], a) == HeldCodes(latch, a) - {k}
  {
  }

  /** `key_down` keeps every counter equal to the number of its held keys. */
  lemma KeyDownKeepsCounting(s: InputState, k: int)
    requires Counting(s)
    ensures Counting(KeyDownState(s, k))
  {
    if !Held(s.latch, k) {
      var t := KeyDownState(s, k);
      forall a | a in t.counts ensures t.counts[a] == |HeldCodes(t.latch, a)| {
        HeldCodesAfterLatch(s.latch, k, a);
      }
    }
  }

  /** `key_up` keeps every counter equal to the number of its held keys. */
  lemma KeyUpKeepsCounting(s: InputState, k: int)
    requires Counting(s)
    ensures Counting(KeyUpState(s, k))
  {
    var t := KeyUpState(s, k);
    forall a | a in t.counts ensures t.counts[a] == |HeldCodes(t.latch, a)| {
      HeldCodesAfterRelease(s.latch, k, a);
      if Held(s.latch, k) && k in KeyMap && KeyMap[k] == a {
        assert k in HeldCodes(s.latch, a);
      } else {
        assert k !in HeldCodes(s.latch, a);
      }
    }
  }

  /** `finalize` keeps the counting invariant. */
  lemma FinalizeKeepsCounting(s: InputState)
    requires Counting(s)
    ensures Counting(FinalizeState(s))
  {
  }

  /** A subset of a finite set is no larger than the set. */
  lemma SubsetCard(a: set<int>, b: set<int>)
    requires a <= b
    ensures |a| <= |b|
  {
    assert b == a + (b - a);
  }

  /**
   * Under the invariant every counter lies in [0, 2], since each action has
   * two key codes; so the source's `i8` counters cannot overflow.
   */
  lemma CountsBounded(s: InputState, a: string)
    requires Counting(s) && a in Actions
    ensures 0 <= s.counts[a] <= 2
  {
    assert HeldCodes(s.latch, a) <= CodesOf(a);
    SubsetCard(HeldCodes(s.latch, a), CodesOf(a));
    TwoCodesPerAction(a);
  }

  /** A repeated `key_down` of a held key changes nothing (auto-repeat). */
  lemma KeyDownWhileHeld(s: InputState, k: int)
    requires Held(s.latch, k)
    ensures KeyDownState(s, k) == s
  {
  }

  /** `key_down` is idempotent. */
  lemma KeyDownIdempotent(s: InputState, k: int)
    ensures KeyDownState(KeyDownState(s, k), k) == KeyDownState(s, k)
  {
  }

  /** `key_up` of a key not held changes no counter and leaves it released. */
  lemma KeyUpWhenReleased(s: InputState, k: int)
    requires !Held(s.latch, k)
    ensures KeyUpState(s, k).counts == s.counts
    ensures KeyUpState(s, k).lastCounts == s.lastCounts
    ensures !Held(KeyUpState(s, k).latch, k)
  {
  }

  /** Pressing and releasing a key that was not held restores every counter. */
  lemma KeyDownThenUp(s: InputState, k: int)
    requires !Held(s.latch, k)
    ensures KeyUpState(KeyDownState(s, k), k).counts == s.counts
    ensures KeyUpState(KeyDownState(s, k), k).latch == s.latch[k := false]
  {
  }

  /** A key code outside the table changes no counter, but is still latched. */
  lemma UnmappedKey(s: InputState, k: int)
    requires k !in KeyMap
    ensures KeyDownState(s, k).counts == s.counts
    ensures KeyUpState(s, k).counts == s.counts
    ensures Held(KeyDownState(s, k).latch, k)
    ensures !Held(KeyUpState(s, k).latch, k)
  {
  }

  /**
   * `finalize` copies this frame's counters into last frame's and leaves
   * this frame's counters and the latches as they were.
   */
  lemma FinalizeSnapshots(s: InputState)
    requires Counting(s)
    ensures FinalizeState(s).lastCounts == s.counts
    ensures FinalizeState(s).counts == s.counts
    ensures FinalizeState(s).latch == s.latch
  {
  }

  /**
   * Under the invariant an action reads as pressed this frame exactly when
   * one of its key codes is latched down.
   */
  lemma PressedIffKeyHeld(s: InputState, a: string)
    requires Counting(s) && a in Actions
    ensures PressedThisFrame(s, a) <==>
      exists k :: k in KeyMap && KeyMap[k] == a && Held(s.latch, k)
  {
    if PressedThisFrame(s, a) {
      assert |HeldCodes(s.latch, a)| > 0;
      var k :| k in HeldCodes(s.latch, a);
    }
    if exists k :: k in KeyMap && KeyMap[k] == a && Held(s.latch, k) {
      var k :| k in KeyMap && KeyMap[k] == a && Held(s.latch, k);
      assert k in HeldCodes(s.latch, a);
    }
  }

  /** One call the host makes on the input object. */
  datatype Event = KeyDown(code: int) | KeyUp(code: int) | Finalize

  /** The state after one event; every event keeps the counting invariant. */
  function Step(s: InputState, e: Event): (t: InputState)
    requires Counting(s)
    ensures Counting(t)
  {
    match e
    case KeyDown(k) => KeyDownKeepsCounting(s, k); KeyDownState(s, k)
    case KeyUp(k) => KeyUpKeepsCounting(s, k); KeyUpState(s, k)
    case Finalize => FinalizeKeepsCounting(s); FinalizeState(s)
  }

  /** The state after applying `events` in order, starting from `s`. */
  function Apply(s: InputState, events: seq<Event>): (t: InputState)
    requires Counting(s)
    ensures Counting(t)
    decreases |events|
  {
    if events == [] then s else Apply(Step(s, events[0]), events[1..])
  }

  /**
   * Whatever keys the host reports, from a fresh input every counter stays
   * within [0, 2], so the source's `i8` counters never overflow.
   */
  lemma CountsBoundedFromStart(events: seq<Event>, a: string)
    requires a in Actions
    ensures Counting(InitialState())
    ensures a in Apply(InitialState(), events).counts
    ensures 0 <= Apply(InitialState(), events).counts[a] <= 2
  {
    InitialStateCounts();
    CountsBounded(Apply(InitialState(), events), a);
  }

  // ---------------------------------------------------------------------
  // The input object
  // ---------------------------------------------------------------------

  class Input {
    var keysAlreadyPressed: map<int, bool>
    var keysPressed: map<string, int>
    var keysPressedLastFrame: map<string, int>

    /** The value of this object. */
    function State(): InputState
      reads this
    {
      InputState(keysAlreadyPressed, keysPressed, keysPressedLastFrame)
    }

    ghost predicate Valid()
      reads this
    {
      Counting(State())
    }

    /** `Input::new`: one zero counter per action in each frame, no latches. */
    constructor ()
      ensures State() == InitialState() && Valid()
    {
      var pressed: map<string, int> := map[];
      var codes := KeyMap.Keys;
      while codes != {}
        invariant codes <= KeyMap.Keys
        invariant forall a :: a in pressed ==> pressed[a] == 0
        invariant forall k :: k in KeyMap.Keys - codes ==> KeyMap[k] in pressed
        invariant forall a :: a in pressed ==> exists k :: k in KeyMap.Keys - codes && KeyMap[k] == a
        decreases codes
      {
        var k :| k in codes;
        pressed := pressed[KeyMap[k] := 0];
        codes := codes - {k};
      }
      assert pressed == map a | a in Actions :: 0;
      keysAlreadyPressed := map[];
      keysPressed := pressed;
      keysPressedLastFrame := pressed;
      new;
      InitialStateCounts();
    }

    /** `key_down(k)`. */
    method KeyDown(k: int)
      requires Valid()
      modifies this
      ensures State() == KeyDownState(old(State()), k) && Valid()
    {
      if k !in keysAlreadyPressed {
        keysAlreadyPressed := keysAlreadyPressed[k := false];
      }
      if !keysAlreadyPressed[k] {
        if k in KeyMap && KeyMap[k] in keysPressed {
          var action := KeyMap[k];
          keysPressed := keysPressed[action := keysPressed[action] + 1];
        }
        keysAlreadyPressed := keysAlreadyPressed[k := true];
      }
      KeyDownKeepsCounting(old(State()), k);
    }

    /** `key_up(k)`. */
    method KeyUp(k: int)
      requires Valid()
      modifies this
      ensures State() == KeyUpState(old(State()), k) && Valid()
    {
      if k !in keysAlreadyPressed {
        keysAlreadyPressed := keysAlreadyPressed[k := false];
      }
      if keysAlreadyPressed[k] {
        if k in KeyMap && KeyMap[k] in keysPressed {
          var action := KeyMap[k];
          keysPressed := keysPressed[action := keysPressed[action] - 1];
        }
        keysAlreadyPressed := keysAlreadyPressed[k := false];
      }
      KeyUpKeepsCounting(old(State()), k);
    }

    /** `finalize`: copies each of this frame's counters into last frame's. */
    method Finalize()
      requires Valid()
      modifies this
      ensures State() == FinalizeState(old(State())) && Valid()
    {
      var todo := keysPressed.Keys;
      while todo != {}
        invariant todo <= keysPressed.Keys
        invariant keysPressed == old(keysPressed) && keysAlreadyPressed == old(keysAlreadyPressed)
        invariant keysPressedLastFrame.Keys == old(keysPressedLastFrame).Keys
        invariant forall a :: a in keysPressedLastFrame ==>
          keysPressedLastFrame[a] == if a in todo then old(keysPressedLastFrame)[a] else keysPressed[a]
        decreases todo
      {
        var a :| a in todo;
        keysPressedLastFrame := keysPressedLastFrame[a := keysPressed[a]];
        todo := todo - {a};
      }
      FinalizeKeepsCounting(old(State()));
    }

    /** `is_input_pressed_this_frame(a)`. */
    function IsInputPressedThisFrame(a: string): (r: bool)
      reads this
      requires a in keysPressed
      ensures r == PressedThisFrame(State(), a)
    {
      keysPressed[a] > 0
    }

    /** `is_input_pressed_last_frame(a)`. */
    function IsInputPressedLastFrame(a: string): (r: bool)
      reads this
      requires a in keysPressedLastFrame
      ensures r == PressedLastFrame(State(), a)
    {
      keysPressedLastFrame[a] > 0
    }
  }
}

/**
 * Sprite animation clips (src/model/animation_trait.rs).
 *
 * An animated entity owns a table of named clips, each a range of frames
 * [fromIndex, toIndex) on the sprite sheet shown for `timeout` seconds per
 * frame, plus the name of the clip playing and the time spent in it.
 * Playing the same clip again advances its time, wrapping around at the
 * clip's duration; asking for another clip cuts to its first frame.  The
 * source computes in `f32`; time is a `real` here.
 */
module Animation {
  import opened RealFacts

  /** One clip of the table (the source's `SpriteAnimationMetaData`). */
  datatype ClipMeta = ClipMeta(fromIndex: int, toIndex: int, timeout: real)

  /** The length of a clip in seconds: frames times seconds per frame. */
  function Duration(c: ClipMeta): real
  {
    (c.toIndex - c.fromIndex) as real * c.timeout
  }

  /** A clip that can be played: at least one frame, positive frame time. */
  predicate WellFormed(c: ClipMeta)
  {
    c.fromIndex < c.toIndex && c.timeout > 0.0
  }

  /** Rounding toward zero, as a float-to-integer cast does. */
  function Trunc(x: real): int
  {
    if x >= 0.0 then x.Floor else -((-x).Floor)
  }

  /**
   * The remainder of the float `%` operator: `a - b * trunc(a / b)`, which
   * takes the sign of `a` and is smaller than `b` in magnitude.
   */
  /** `n` whole copies of `b`. */
  function Multiple(n: int, b: real): real
  {
    n as real * b
  }

  function FloatRem(a: real, b: real): (r: real)
    requires b != 0.0
    ensures 0.0 <= a && 0.0 < b ==> 0.0 <= r < b
    ensures a <= 0.0 && 0.0 < b ==> -b < r <= 0.0
    ensures exists n: int :: r == a - Multiple(n, b)
  {
    var n := Trunc(a / b);
    FloatRemBounds(a, b);
    assert a - b * n as real == a - Multiple(n, b);
    a - b * n as real
  }

  lemma FloatRemBounds(a: real, b: real)
    requires b != 0.0
    ensures var r := a - b * Trunc(a / b) as real;
            && (0.0 <= a && 0.0 < b ==> 0.0 <= r < b)
            && (a <= 0.0 && 0.0 < b ==> -b < r <= 0.0)
            && (0.0 <= a < b ==> Trunc(a / b) == 0)
  {
    if 0.0 < b {
      QuotientRemainder(a, b, a / b);
    }
  }

  /**
   * The remainder bounds, stated for a quotient `q` of `a` by a positive `b`
   * given as a number of its own.
   */
  lemma QuotientRemainder(a: real, b: real, q: real)
    requires 0.0 < b && q * b == a
    ensures var r := a - b * Trunc(q) as real;
            && (0.0 <= a ==> 0.0 <= r < b)
            && (a <= 0.0 ==> -b < r <= 0.0)
            && (0.0 <= a < b ==> Trunc(q) == 0)
  {
    QuotientSign(a, b, q);
    if 0.0 <= a {
      RemainderStep(a, b, q);
    }
    if a < 0.0 {
      var f := (-q).Floor as real;
      RemainderStep(-a, b, -q);
      assert b * -f == -(b * f);
    }
  }

  /** A quotient by a positive number has the sign of the dividend. */
  lemma QuotientSign(a: real, b: real, q: real)
    requires 0.0 < b && q * b == a
    ensures 0.0 <= a ==> 0.0 <= q
    ensures a <= 0.0 ==> q <= 0.0
    ensures a < b ==> q < 1.0
  {
    ScaleByPositive(q, 0.0, b);
    ScaleByPositive(0.0, q, b);
    ScaleByPositive(q, 1.0, b);
    assert 1.0 * b == b;
  }

  /** For `a = q * b` with `b` positive, `a - b * floor(q)` lies in [0, b). */
  lemma RemainderStep(a: real, b: real, q: real)
    requires 0.0 < b && q * b == a
    ensures 0.0 <= a - b * q.Floor as real < b
  {
    var t := q.Floor as real;
    ScaleByPositive(t, q, b);
    ScaleByPositive(q, t + 1.0, b);
    assert t * b <= a;
    assert a < (t + 1.0) * b;
    assert (t + 1.0) * b == t * b + b;
    assert b * t == t * b;
  }

  /** A remainder by a positive duration leaves a value below it unchanged. */
  lemma FloatRemOfSmall(a: real, b: real)
    requires 0.0 <= a < b
    ensures FloatRem(a, b) == a
  {
    FloatRemBounds(a, b);
  }

  /** The time of clip `c` after playing it for `dt` more seconds from `time`. */
  function AdvancedTime(c: ClipMeta, time: real, dt: real): (r: real)
    requires Duration(c) != 0.0
    ensures Duration(c) > 0.0 && 0.0 <= time + dt ==> 0.0 <= r < Duration(c)
    ensures exists n: int :: r == time + dt - Multiple(n, Duration(c))
  {
    FloatRem(time + dt, Duration(c))
  }

  /** The sprite-sheet frame shown `time` seconds into clip `c`. */
  function SpriteIndex(c: ClipMeta, time: real): (r: int)
    requires c.timeout != 0.0
    ensures c.timeout > 0.0 ==>
      Multiple(r - c.fromIndex, c.timeout) <= time < Multiple(r - c.fromIndex + 1, c.timeout)
  {
    FrameWindow(time, c.timeout);
    c.fromIndex + (time / c.timeout).Floor
  }

  /** With positive frame length `t`, frame `k` covers times [k * t, (k + 1) * t). */
  lemma FrameWindow(time: real, t: real)
    requires t != 0.0
    ensures t > 0.0 ==>
      Multiple((time / t).Floor, t) <= time < Multiple((time / t).Floor + 1, t)
  {
    if t > 0.0 {
      var x := time / t;
      var k := x.Floor;
      assert x * t == time;
      ScaleByPositive(k as real, x, t);
      assert x < (k + 1) as real;
      ScaleByPositive(x, (k + 1) as real, t);
      assert time < (k + 1) as real * t;
    }
  }

  /**
   * Playing a well-formed clip forward from a time within it keeps the time
   * within [0, duration).
   */
  lemma AdvancedTimeInClip(c: ClipMeta, time: real, dt: real)
    requires WellFormed(c) && 0.0 <= time && 0.0 <= dt
    ensures 0.0 <= AdvancedTime(c, time, dt) < Duration(c)
  {
    assert Duration(c) > 0.0;
  }

  /** Time that has not reached the duration is not wrapped. */
  lemma AdvancedTimeNoWrap(c: ClipMeta, time: real, dt: real)
    requires WellFormed(c) && 0.0 <= time && 0.0 <= dt && time + dt < Duration(c)
    ensures AdvancedTime(c, time, dt) == time + dt
  {
    FloatRemOfSmall(time + dt, Duration(c));
  }

  /** A time within a well-formed clip shows one of the clip's own frames. */
  lemma SpriteInClip(c: ClipMeta, time: real)
    requires c.timeout != 0.0
    ensures WellFormed(c) && 0.0 <= time < Duration(c) ==>
      c.fromIndex <= SpriteIndex(c, time) < c.toIndex
  {
    if WellFormed(c) && 0.0 <= time < Duration(c) {
      ClipFrameBound(c, time);
    }
  }

  lemma ClipFrameBound(c: ClipMeta, time: real)
    requires WellFormed(c) && 0.0 <= time < Duration(c)
    ensures 0 <= (time / c.timeout).Floor < c.toIndex - c.fromIndex
  {
    var n := (c.toIndex - c.fromIndex) as real;
    var x := time / c.timeout;
    assert x * c.timeout == time;
    assert time < n * c.timeout;
    assert x * c.timeout < n * c.timeout;
    assert 0.0 <= x < n;
  }

  /** Time 0 shows the first frame of the clip. */
  lemma SpriteAtStart(c: ClipMeta)
    requires c.timeout != 0.0
    ensures SpriteIndex(c, 0.0) == c.fromIndex
  {
  }

  /**
   * A clip of frames [3, 6) at 0.1 s per frame, played for 0.35 s in total,
   * is 0.05 s into its second loop and shows frame 3.
   */
  lemma WrapExample()
    ensures AdvancedTime(ClipMeta(3, 6, 0.1), 0.0, 0.35) == 0.05
    ensures SpriteIndex(ClipMeta(3, 6, 0.1), 0.05) == 3
  {
    assert Duration(ClipMeta(3, 6, 0.1)) == 0.3;
    assert (0.35 / 0.3).Floor == 1;
    assert (0.05 / 0.1).Floor == 0;
  }

  /**
   * The animation state an entity carries (the accessors the source's
   * `SpriteAnimation` trait asks of its implementors).
   */
  class AnimatedSprite {
    var spriteAnimations: map<string, ClipMeta>
    var currentAnimation: string
    var animationTime: real

    /** The clip playing is in the table, well formed, and time is within it. */
    ghost predicate Valid()
      reads this
    {
      && currentAnimation in spriteAnimations
      && WellFormed(spriteAnimations[currentAnimation])
      && 0.0 <= animationTime < Duration(spriteAnimations[currentAnimation])
    }

    constructor (clips: map<string, ClipMeta>, current: string)
      ensures spriteAnimations == clips && currentAnimation == current
      ensures animationTime == 0.0
      ensures current in clips && WellFormed(clips[current]) ==> Valid()
    {
      spriteAnimations := clips;
      currentAnimation := current;
      animationTime := 0.0;
    }

    /**
     * `update_animation(name, dt)`: the same clip advances by `dt` and wraps
     * at its duration; another clip starts at time 0.  The clip table never
     * changes.  Advancing unwraps the playing clip from the table.
     */
    method UpdateAnimation(name: string, dt: real)
      requires name == currentAnimation ==>
        name in spriteAnimations && Duration(spriteAnimations[name]) != 0.0
      modifies this
      ensures spriteAnimations == old(spriteAnimations)
      ensures name == old(currentAnimation) ==>
        && currentAnimation == old(currentAnimation)
        && animationTime == AdvancedTime(spriteAnimations[name], old(animationTime), dt)
      ensures name != old(currentAnimation) ==>
        currentAnimation == name && animationTime == 0.0
      ensures (old(Valid()) && name in spriteAnimations && WellFormed(spriteAnimations[name])
               && 0.0 <= dt) ==> Valid()
    {
      if name == currentAnimation {
        animationTime := animationTime + dt;
        var clip := spriteAnimations[currentAnimation];
        animationTime := FloatRem(animationTime, Duration(clip));
        if old(Valid()) && 0.0 <= dt {
          AdvancedTimeInClip(clip, old(animationTime), dt);
        }
      } else {
        animationTime := 0.0;
        currentAnimation := name;
        if name in spriteAnimations && WellFormed(spriteAnimations[name]) {
          assert Duration(spriteAnimations[name]) > 0.0;
        }
      }
    }

    /**
     * `get_sprite()`: the frame of the playing clip at the current time.  In
     * a valid state it is one of the clip's own frames, and a clip just
     * switched to shows its first frame.
     */
    function GetSprite(): (r: int)
      reads this
      requires currentAnimation in spriteAnimations
      requires spriteAnimations[currentAnimation].timeout != 0.0
      ensures Valid() ==>
        spriteAnimations[currentAnimation].fromIndex <= r < spriteAnimations[currentAnimation].toIndex
      ensures animationTime == 0.0 ==> r == spriteAnimations[currentAnimation].fromIndex
    {
      var clip := spriteAnimations[currentAnimation];
      SpriteInClip(clip, animationTime);
      clip.fromIndex + (animationTime / clip.timeout).Floor
    }
  }
}

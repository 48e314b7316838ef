/**
 * The kinds of screen post-process effect (`PostProcessEffects`, declared in
 * the view models).  There is one kind.
 */
module ViewModels {
  datatype PostProcessEffects = Vignette
}

/**
 * The vignette post-process effect (src/view/post_process_effect/vignette.rs):
 * its kind and its timing, how long it has run and how long it may run.
 * Drawing it and compiling its shader are not part of this model.
 */
module Vignettes {
  import ViewModels

  class Vignette {
    var effectType: ViewModels.PostProcessEffects
    var runningTime: real
    var maxRunningTime: real

    /** `Vignette::new(running_time, max_running_time)`. */
    constructor (runningTime: real, maxRunningTime: real)
      ensures effectType == ViewModels.Vignette
      ensures this.runningTime == runningTime && this.maxRunningTime == maxRunningTime
    {
      effectType := ViewModels.Vignette;
      this.runningTime := runningTime;
      this.maxRunningTime := maxRunningTime;
    }

    /** `get_effect_type`. */
    function GetEffectType(): (t: ViewModels.PostProcessEffects)
      reads this
      ensures t == ViewModels.Vignette
    {
      effectType
    }

    /** `get_running_time`. */
    function GetRunningTime(): real
      reads this
    {
      runningTime
    }

    /** `get_max_running_time`. */
    function GetMaxRunningTime(): real
      reads this
    {
      maxRunningTime
    }

    /** `set_running_time(v)`: only the running time changes. */
    method SetRunningTime(v: real)
      modifies this
      ensures GetRunningTime() == v
      ensures GetMaxRunningTime() == old(GetMaxRunningTime())
      ensures effectType == old(effectType)
    {
      runningTime := v;
    }

    /** `set_max_running_time(v)`: only the maximum running time changes. */
    method SetMaxRunningTime(v: real)
      modifies this
      ensures GetMaxRunningTime() == v
      ensures GetRunningTime() == old(GetRunningTime())
      ensures effectType == old(effectType)
    {
      maxRunningTime := v;
    }
  }
}

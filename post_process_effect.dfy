/**
 * The post-process effect factory (src/view/post_process_effect.rs): one
 * effect object per effect kind, built with the given timing.
 */
module PostProcessEffect {
  import ViewModels
  import Vignettes

  /**
   * `get_effect_by_type(kind, running_time, max_running_time)`: a new effect
   * of that kind with that timing.  The match covers every kind, so the
   * factory never fails.
   */
  method GetEffectByType(kind: ViewModels.PostProcessEffects, runningTime: real, maxRunningTime: real)
    returns (e: Vignettes.Vignette)
    ensures fresh(e)
    ensures e.GetEffectType() == kind
    ensures e.GetRunningTime() == runningTime && e.GetMaxRunningTime() == maxRunningTime
  {
    match kind
    case Vignette =>
      e := new Vignettes.Vignette(runningTime, maxRunningTime);
  }
}

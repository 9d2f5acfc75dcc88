/**
 * src/hooks/useAnimation.ts: a held value that fades in (to 1) when the
 * `showComponent` flag becomes true and out (to 0) when it becomes false.
 * The spec builders are memoised once, so they keep the configs of the
 * first render. As written, the entry transition spreads
 * `exitAnimationConfig` and the exit transition `entryAnimationConfig`.
 */
module FadeAnimation {
  import opened Types

  /** An `Animated.timing` spec: target, `useNativeDriver` and the spread config. */
  datatype TimingSpec = TimingSpec(toValue: real, useNativeDriver: bool, config: TimingConfig)

  class Animation {
    const entryAnimationConfig: TimingConfig
    const exitAnimationConfig: TimingConfig
    const initialValue: real

    /** The held `Animated.Value`. */
    var value: real
    /** The transitions started and neither stopped nor finished. */
    var running: seq<TimingSpec>
    /** The flag the effect last ran for; `None` before the first run. */
    var lastShown: Option<bool>

    /** At most one transition is in flight. */
    ghost predicate Valid()
      reads this
    {
      |running| <= 1
    }

    /**
     * First render: `exitAnimationConfig` defaults to the entry config and
     * `initialValue` to 0; nothing runs yet.
     */
    constructor (entryAnimationConfig: TimingConfig, exitAnimationConfig: Option<TimingConfig>, initialValue: Option<real>)
      ensures Valid()
      ensures this.entryAnimationConfig == entryAnimationConfig
      ensures this.exitAnimationConfig == exitAnimationConfig.GetOr(entryAnimationConfig)
      ensures this.initialValue == initialValue.GetOr(0.0)
      ensures value == initialValue.GetOr(0.0)
      ensures running == [] && lastShown == None
    {
      this.entryAnimationConfig := entryAnimationConfig;
      this.exitAnimationConfig := exitAnimationConfig.GetOr(entryAnimationConfig);
      this.initialValue := initialValue.GetOr(0.0);
      value := initialValue.GetOr(0.0);
      running := [];
      lastShown := None;
    }

    /** `entryAnimation()`: to 1, with the exit config spread in. */
    function EntryAnimation(): (s: TimingSpec)
      ensures s.toValue == 1.0 && s.useNativeDriver && s.config == exitAnimationConfig
    {
      TimingSpec(1.0, true, exitAnimationConfig)
    }

    /** `exitAnimation()`: to 0, with the entry config spread in. */
    function ExitAnimation(): (s: TimingSpec)
      ensures s.toValue == 0.0 && s.useNativeDriver && s.config == entryAnimationConfig
    {
      TimingSpec(0.0, true, entryAnimationConfig)
    }

    /** The effect's cleanup: stop both transitions. */
    method Cleanup()
      modifies this
      ensures running == []
      ensures value == old(value) && lastShown == old(lastShown)
    {
      running := [];
    }

    /**
     * A render with flag `showComponent`. The effect depends on the flag
     * only: when it is unchanged nothing happens; otherwise the previous
     * run is cleaned up, the value is reset (to 0 for a show, to 1 for a
     * hide, whatever `initialValue` was) and the matching transition starts.
     */
    method Render(showComponent: bool)
      requires Valid()
      modifies this
      ensures Valid()
      ensures old(lastShown) == Some(showComponent) ==>
                value == old(value) && running == old(running) && lastShown == old(lastShown)
      ensures old(lastShown) != Some(showComponent) ==>
                && lastShown == Some(showComponent)
                && value == (if showComponent then 0.0 else 1.0)
                && running == [if showComponent then EntryAnimation() else ExitAnimation()]
    {
      if lastShown != Some(showComponent) {
        Cleanup();
        var inAnimation := EntryAnimation();
        var outAnimation := ExitAnimation();
        if showComponent {
          value := 0.0;
          running := [inAnimation];
        } else {
          value := 1.0;
          running := [outAnimation];
        }
        lastShown := Some(showComponent);
      }
    }

    /**
     * The running transition completes: the value reaches its target, 1
     * after a show and 0 after a hide.
     */
    method Finish()
      requires Valid()
      modifies this
      ensures Valid() && running == [] && lastShown == old(lastShown)
      ensures old(running) == [] ==> value == old(value)
      ensures old(running) != [] ==> value == old(running)[0].toValue
      ensures old(running) == [EntryAnimation()] ==> value == 1.0
      ensures old(running) == [ExitAnimation()] ==> value == 0.0
    {
      if running != [] {
        value := running[0].toValue;
      }
      running := [];
    }
  }

  /**
   * The two transitions swap configs, always use the native driver, and
   * target 1 and 0; with the exit config left to its default the two
   * configs coincide.
   */
  lemma SpecBuilders(a: Animation, entryAnimationConfig: TimingConfig, exitAnimationConfig: Option<TimingConfig>)
    requires a.entryAnimationConfig == entryAnimationConfig
    requires a.exitAnimationConfig == exitAnimationConfig.GetOr(entryAnimationConfig)
    ensures a.EntryAnimation().toValue == 1.0 && a.ExitAnimation().toValue == 0.0
    ensures a.EntryAnimation().useNativeDriver && a.ExitAnimation().useNativeDriver
    ensures a.EntryAnimation().config == exitAnimationConfig.GetOr(entryAnimationConfig)
    ensures a.ExitAnimation().config == entryAnimationConfig
    ensures exitAnimationConfig.None? ==> a.EntryAnimation().config == a.ExitAnimation().config
  {
  }
}

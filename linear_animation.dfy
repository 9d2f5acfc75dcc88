/**
 * src/hooks/useLinearAnimation.ts: a held XY value that moves from
 * `initialValue` to `finalValue` when the `showComponent` flag becomes
 * true and back when it becomes false. The spec builders are memoised
 * once, so their targets and configs are the first render's; the effect
 * that resets the value before starting a transition is re-created on
 * each render, so the reset uses the props of the render that changed
 * the flag.
 */
module LinearAnimation {
  import opened Types

  /** `{ x, y }`. */
  datatype ValueXY = ValueXY(x: real, y: real)

  /** An `Animated.timing` spec on an XY value. */
  datatype TimingSpec = TimingSpec(toValue: ValueXY, useNativeDriver: bool, config: TimingConfig)

  class Animation {
    /** The first render's `initialValue` and `finalValue`, captured by the builders. */
    const initialValue: ValueXY
    const finalValue: ValueXY
    const entryAnimationConfig: TimingConfig
    const exitAnimationConfig: TimingConfig

    /** The held `Animated.ValueXY`. */
    var value: ValueXY
    /** The transitions started and neither stopped nor finished. */
    var running: seq<TimingSpec>
    /** The flag the effect last ran for; `None` before the first run. */
    var lastShown: Option<bool>

    /** At most one transition is in flight. */
    ghost predicate Valid()
      reads this
    {
      |running| <= 1
    }

    /** First render: the value starts at `initialValue`; the exit config defaults to the entry config. */
    constructor (initialValue: ValueXY, finalValue: ValueXY, entryAnimationConfig: TimingConfig,
                 exitAnimationConfig: Option<TimingConfig>)
      ensures Valid()
      ensures this.initialValue == initialValue && this.finalValue == finalValue
      ensures this.entryAnimationConfig == entryAnimationConfig
      ensures this.exitAnimationConfig == exitAnimationConfig.GetOr(entryAnimationConfig)
      ensures value == initialValue
      ensures running == [] && lastShown == None
    {
      this.initialValue := initialValue;
      this.finalValue := finalValue;
      this.entryAnimationConfig := entryAnimationConfig;
      this.exitAnimationConfig := exitAnimationConfig.GetOr(entryAnimationConfig);
      value := initialValue;
      running := [];
      lastShown := None;
    }

    /** `entryAnimation()`: to `finalValue` with the entry config. */
    function EntryAnimation(): (s: TimingSpec)
      ensures s.toValue == finalValue && s.useNativeDriver && s.config == entryAnimationConfig
    {
      TimingSpec(finalValue, true, entryAnimationConfig)
    }

    /** `exitAnimation()`: back to `initialValue` with the exit config. */
    function ExitAnimation(): (s: TimingSpec)
      ensures s.toValue == initialValue && s.useNativeDriver && s.config == exitAnimationConfig
    {
      TimingSpec(initialValue, true, exitAnimationConfig)
    }

    /** The effect's cleanup: stop both transitions. */
    method Cleanup()
      modifies this
      ensures running == []
      ensures value == old(value) && lastShown == old(lastShown)
    {
      running := [];
    }

    /**
     * A render with flag `showComponent` and the render's own props
     * `currentInitial` and `currentFinal`: on a change of the flag, the
     * previous run is cleaned up, the value is reset to the far end of the
     * current props (`currentInitial` for a show, `currentFinal` for a hide)
     * and the matching transition, built from the first render's props,
     * starts.
     */
    method Render(showComponent: bool, currentInitial: ValueXY, currentFinal: ValueXY)
      requires Valid()
      modifies this
      ensures Valid()
      ensures old(lastShown) == Some(showComponent) ==>
                value == old(value) && running == old(running) && lastShown == old(lastShown)
      ensures old(lastShown) != Some(showComponent) ==>
                && lastShown == Some(showComponent)
                && value == (if showComponent then currentInitial else currentFinal)
                && running == [if showComponent then EntryAnimation() else ExitAnimation()]
    {
      if lastShown != Some(showComponent) {
        Cleanup();
        var inAnimation := EntryAnimation();
        var outAnimation := ExitAnimation();
        if showComponent {
          value := currentInitial;
          running := [inAnimation];
        } else {
          value := currentFinal;
          running := [outAnimation];
        }
        lastShown := Some(showComponent);
      }
    }

    /**
     * The running transition completes: the value reaches `finalValue`
     * after a show and `initialValue` after a hide.
     */
    method Finish()
      requires Valid()
      modifies this
      ensures Valid() && running == [] && lastShown == old(lastShown)
      ensures old(running) == [] ==> value == old(value)
      ensures old(running) != [] ==> value == old(running)[0].toValue
      ensures old(running) == [EntryAnimation()] ==> value == finalValue
      ensures old(running) == [ExitAnimation()] ==> value == initialValue
    {
      if running != [] {
        value := running[0].toValue;
      }
      running := [];
    }
  }

  /**
   * Entry goes to `finalValue` with the entry config, exit back to
   * `initialValue` with the exit config (the entry config by default);
   * both use the native driver. A show followed by a hide is a round trip.
   */
  lemma SpecBuilders(a: Animation, entryAnimationConfig: TimingConfig, exitAnimationConfig: Option<TimingConfig>)
    requires a.entryAnimationConfig == entryAnimationConfig
    requires a.exitAnimationConfig == exitAnimationConfig.GetOr(entryAnimationConfig)
    ensures a.EntryAnimation().toValue == a.finalValue && a.ExitAnimation().toValue == a.initialValue
    ensures a.EntryAnimation().useNativeDriver && a.ExitAnimation().useNativeDriver
    ensures a.EntryAnimation().config == entryAnimationConfig
    ensures exitAnimationConfig.None? ==> a.ExitAnimation().config == entryAnimationConfig
    ensures exitAnimationConfig.Some? ==> a.ExitAnimation().config == exitAnimationConfig.value
  {
  }
}

/**
 * Shapes shared by the whole model: the optional value used for
 * JavaScript's `undefined`, the constant Math.PI, the animation types of
 * src/types.ts and the timing configuration a property animation carries.
 */
module Types {

  /** `None` stands for an absent (undefined) value. */
  datatype Option<+T> = None | Some(value: T) {
    /** The `??` operator: the value if present, otherwise `default`. */
    function GetOr(default: T): T {
      match this
      case Some(v) => v
      case None => default
    }
  }

  /** `Math.PI`: the shortest decimal that rounds to its double. */
  const Pi: real := 3.141592653589793

  /** `2 * Math.PI`; doubling a double is exact. */
  const TwoPi: real := 2.0 * Pi

  /**
   * The `AnimationType` enum. `Unrecognized` stands for any other value a
   * caller can put in the `type` field at run time.
   */
  datatype AnimationType = Opacity | Linear | Circular | Unrecognized(name: string)

  /**
   * The part of an `Animated.timing` configuration the model follows:
   * the stagger interval `gap` (milliseconds), an explicit `delay` and the
   * `duration`. Easing is library behaviour and is not modelled.
   */
  datatype TimingConfig = TimingConfig(gap: Option<real>, delay: Option<real>, duration: Option<real>)

  /** One entry of `animationConfigs`: a type and an optional config. */
  datatype AnimationConfig = AnimationConfig(animationType: AnimationType, config: Option<TimingConfig>)
}

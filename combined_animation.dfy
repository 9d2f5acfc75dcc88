/**
 * src/hooks/useCombinedAnimation.ts: the per-element controller driven by
 * a list of `animationConfigs`. It looks up the first config of each
 * type, staggers delays by index with a default gap of 0, maps the list
 * to entry and exit transitions (throwing on an unknown type), and flips
 * `componentVisible` once all listed transitions of a hide or a show have
 * finished.
 */
module CombinedAnimation {
  import opened Types
  import opened Transitions

  /** `DEFAULT_DELAY`, the gap used when a config carries no `gap`. */
  const DefaultDelay: real := 0.0

  /** The message of the error thrown for an unknown config type. */
  const UnrecognizedMessage: string := "Unrecognized config type"

  /** The property an animation type drives; none for an unknown type. */
  function PropertyOf(t: AnimationType): Option<Property> {
    match t
    case Opacity => Some(OpacityValue)
    case Linear => Some(RadiusValue)
    case Circular => Some(RadiansValue)
    case Unrecognized(_) => None
  }

  /** The animation type that drives property `p`. */
  function TypeOf(p: Property): (t: AnimationType)
    ensures PropertyOf(t) == Some(p)
    ensures forall u :: PropertyOf(u) == Some(p) ==> u == t
  {
    match p
    case OpacityValue => Opacity
    case RadiusValue => Linear
    case RadiansValue => Circular
  }

  /** `configs.findIndex(config => config.type === t)`, as an option. */
  function FirstIndexOf(configs: seq<AnimationConfig>, t: AnimationType): (r: Option<nat>)
    ensures r.Some? ==> r.value < |configs| && configs[r.value].animationType == t
    ensures r.Some? ==> forall j | 0 <= j < r.value :: configs[j].animationType != t
    ensures r.None? ==> forall j | 0 <= j < |configs| :: configs[j].animationType != t
  {
    if configs == [] then None
    else if configs[0].animationType == t then Some(0)
    else match FirstIndexOf(configs[1..], t)
      case None => None
      case Some(i) => Some(i + 1)
  }

  /** `animationConfigs?.find(config => config.type === t)?.config`. */
  function FindConfig(animationConfigs: Option<seq<AnimationConfig>>, t: AnimationType): (r: Option<TimingConfig>)
    ensures r.Some? ==> animationConfigs.Some?
    ensures r.Some? ==>
              exists i | 0 <= i < |animationConfigs.value| ::
                && animationConfigs.value[i].animationType == t
                && animationConfigs.value[i].config == r
                && forall j | 0 <= j < i :: animationConfigs.value[j].animationType != t
    ensures animationConfigs.Some? ==>
              forall i | 0 <= i < |animationConfigs.value| && animationConfigs.value[i].animationType == t
                         && (forall j | 0 <= j < i :: animationConfigs.value[j].animationType != t) ::
                r == animationConfigs.value[i].config
    ensures (animationConfigs.None? || forall j | 0 <= j < |animationConfigs.value| :: animationConfigs.value[j].animationType != t)
              ==> r.None?
  {
    if animationConfigs.None? then None
    else match FirstIndexOf(animationConfigs.value, t)
      case None => None
      case Some(i) => animationConfigs.value[i].config
  }

  /** The outcome of building a transition list with `animationConfigs?.map(...)`. */
  datatype ListOutcome =
    | NoList                    // `animationConfigs` is undefined
    | Built(list: seq<Transition>)
    | Thrown(message: string)   // the `default` branch of the switch

  /** One `case` of the switch: the property's entry or exit transition. */
  function TransitionFor(t: AnimationType, all: seq<AnimationConfig>, e: Element, entry: bool): (r: Option<Transition>)
    ensures r.None? <==> t.Unrecognized?
    ensures r.Some? ==> Some(r.value.property) == PropertyOf(t)
    ensures r.Some? ==> r.value.target == Endpoint(r.value.property, e, entry)
  {
    match PropertyOf(t)
    case None => None
    case Some(p) =>
      var cfg := FindConfig(Some(all), t);
      Some(if entry then EntryTransition(p, e, cfg, DefaultDelay) else ExitTransition(p, e, cfg, DefaultDelay))
  }

  /** The map over `rest`, looking configs up in the whole list `all`. */
  function MapConfigs(all: seq<AnimationConfig>, rest: seq<AnimationConfig>, e: Element, entry: bool): (r: ListOutcome)
    ensures !r.NoList?
    ensures r.Built? <==> forall i | 0 <= i < |rest| :: !rest[i].animationType.Unrecognized?
    ensures r.Thrown? ==> r.message == UnrecognizedMessage
    ensures r.Built? ==> |r.list| == |rest|
    ensures r.Built? ==> forall i | 0 <= i < |rest| :: Some(r.list[i]) == TransitionFor(rest[i].animationType, all, e, entry)
  {
    if rest == [] then Built([])
    else match TransitionFor(rest[0].animationType, all, e, entry)
      case None => Thrown(UnrecognizedMessage)
      case Some(t) =>
        match MapConfigs(all, rest[1..], e, entry)
        case Built(list) => Built([t] + list)
        case other => other
  }

  /** `entryAnimationList` (`entry`) or `exitAnimationList` (`!entry`). */
  function AnimationList(animationConfigs: Option<seq<AnimationConfig>>, e: Element, entry: bool): (r: ListOutcome)
    ensures r.NoList? <==> animationConfigs.None?
    ensures r.Thrown? ==> r.message == UnrecognizedMessage
    ensures r.Built? ==> |r.list| == |animationConfigs.value|
  {
    if animationConfigs.None? then NoList
    else MapConfigs(animationConfigs.value, animationConfigs.value, e, entry)
  }

  /** The entry delay `gap * index` or the exit delay `gap * (totalParts - index - 1)`, unless `delay` overrides it. */
  function StaggeredDelay(cfg: Option<TimingConfig>, e: Element, entry: bool): real {
    if entry then EntryDelay(cfg, DefaultDelay, e.index) else ExitDelay(cfg, DefaultDelay, e.index, e.totalPoints)
  }

  /** Some entry of `animationConfigs` has the type that drives `p`. */
  predicate Listed(animationConfigs: Option<seq<AnimationConfig>>, p: Property) {
    animationConfigs.Some? &&
    exists i | 0 <= i < |animationConfigs.value| :: animationConfigs.value[i].animationType == TypeOf(p)
  }

  /**
   * The built list mirrors `animationConfigs`: same length, element i
   * drives entry i's property towards its endpoint, and it throws exactly
   * when some entry has an unknown type. Entry and exit lists fail
   * together.
   */
  lemma ListShape(animationConfigs: Option<seq<AnimationConfig>>, e: Element, entry: bool)
    ensures AnimationList(animationConfigs, e, entry).NoList? <==> animationConfigs.None?
    ensures AnimationList(animationConfigs, e, entry).Thrown? <==> AnimationList(animationConfigs, e, !entry).Thrown?
    ensures AnimationList(animationConfigs, e, entry).Thrown? ==>
      AnimationList(animationConfigs, e, entry).message == UnrecognizedMessage
    ensures animationConfigs.Some? ==>
      (AnimationList(animationConfigs, e, entry).Thrown? <==>
       exists i | 0 <= i < |animationConfigs.value| :: animationConfigs.value[i].animationType.Unrecognized?)
    ensures AnimationList(animationConfigs, e, entry).Built? ==>
      var list := AnimationList(animationConfigs, e, entry).list;
      && |list| == |animationConfigs.value|
      && forall i | 0 <= i < |list| ::
           && Some(list[i].property) == PropertyOf(animationConfigs.value[i].animationType)
           && list[i].target == Endpoint(list[i].property, e, entry)
           && list[i].delay == StaggeredDelay(FindConfig(animationConfigs, animationConfigs.value[i].animationType), e, entry)
  {
    if animationConfigs.Some? {
      var cs := animationConfigs.value;
      var list := AnimationList(animationConfigs, e, entry);
      if list.Built? {
        forall i | 0 <= i < |list.list|
          ensures Some(list.list[i].property) == PropertyOf(cs[i].animationType)
          ensures list.list[i].target == Endpoint(list.list[i].property, e, entry)
          ensures list.list[i].delay == StaggeredDelay(FindConfig(animationConfigs, cs[i].animationType), e, entry)
        {
          assert Some(list.list[i]) == TransitionFor(cs[i].animationType, cs, e, entry);
        }
      }
    }
  }

  /** A built list drives exactly the listed properties. */
  lemma DrivesListed(animationConfigs: Option<seq<AnimationConfig>>, e: Element, entry: bool, p: Property)
    requires AnimationList(animationConfigs, e, entry).Built?
    ensures Drives(AnimationList(animationConfigs, e, entry).list, p) <==> Listed(animationConfigs, p)
  {
    var cs := animationConfigs.value;
    var list := AnimationList(animationConfigs, e, entry).list;
    assert |list| == |cs|;
    if Drives(list, p) {
      var i :| 0 <= i < |list| && list[i].property == p;
      assert Some(list[i]) == TransitionFor(cs[i].animationType, cs, e, entry);
      assert cs[i].animationType == TypeOf(p);
    }
    if Listed(animationConfigs, p) {
      var i :| 0 <= i < |cs| && cs[i].animationType == TypeOf(p);
      assert Some(list[i]) == TransitionFor(cs[i].animationType, cs, e, entry);
      assert list[i].property == p;
    }
  }

  /** Without a `gap` (and without a `delay`), nothing is staggered. */
  lemma NoGapNoStagger(cfg: Option<TimingConfig>, index: nat, totalPoints: int)
    requires cfg.None? || (cfg.value.gap.None? && cfg.value.delay.None?)
    ensures EntryDelay(cfg, DefaultDelay, index) == 0.0
    ensures ExitDelay(cfg, DefaultDelay, index, totalPoints) == 0.0
  {
  }

  class Animator {
    const element: Element
    const animationConfigs: Option<seq<AnimationConfig>>

    /** `componentVisible` state. */
    var componentVisible: bool
    /** The three held animated values. */
    var animated: Values

    /** The lists build: the render that would throw never yields an animator. */
    ghost predicate Valid() {
      !AnimationList(animationConfigs, element, true).Thrown?
    }

    /** First render: visible, every held value at its `initialValue`. */
    constructor (element: Element, animationConfigs: Option<seq<AnimationConfig>>)
      requires !AnimationList(animationConfigs, element, true).Thrown?
      ensures Valid()
      ensures this.element == element && this.animationConfigs == animationConfigs
      ensures componentVisible
      ensures animated == Seed(element)
    {
      this.element := element;
      this.animationConfigs := animationConfigs;
      componentVisible := true;
      animated := Seed(element);
    }

    /** `opacityAnimationConfig`, `linearAnimationConfig`, `circularAnimationConfig`. */
    function ConfigOf(p: Property): (cfg: Option<TimingConfig>)
      ensures cfg.Some? ==> Listed(animationConfigs, p)
      ensures animationConfigs.Some? ==>
                forall i | 0 <= i < |animationConfigs.value| && animationConfigs.value[i].animationType == TypeOf(p)
                           && (forall j | 0 <= j < i :: animationConfigs.value[j].animationType != TypeOf(p)) ::
                  cfg == animationConfigs.value[i].config
      ensures !Listed(animationConfigs, p) ==> cfg.None?
    {
      FindConfig(animationConfigs, TypeOf(p))
    }

    /** `opacityValue`. */
    function Opacity(): (r: real)
      reads this
      ensures ConfigOf(OpacityValue).Some? ==> r == animated.opacity
      ensures ConfigOf(OpacityValue).None? ==> r == if componentVisible then 1.0 else 0.0
    {
      Effective(OpacityValue, ConfigOf(OpacityValue), animated, element, componentVisible)
    }

    /** `radiusValue`. */
    function Radius(): (r: real)
      reads this
      ensures ConfigOf(RadiusValue).Some? ==> r == animated.radius
      ensures ConfigOf(RadiusValue).None? ==> r == element.radius
    {
      Effective(RadiusValue, ConfigOf(RadiusValue), animated, element, componentVisible)
    }

    /** `radiansValue`. */
    function Radians(): (r: real)
      reads this
      ensures ConfigOf(RadiansValue).Some? ==> r == animated.radians
      ensures ConfigOf(RadiansValue).None? ==> r == element.radians
    {
      Effective(RadiansValue, ConfigOf(RadiansValue), animated, element, componentVisible)
    }

    /**
     * `hideComponent`: with no `animationConfigs` nothing happens.
     * Otherwise every listed exit transition runs to completion and then
     * `componentVisible` becomes false: the element shows opacity 0, and
     * a linear (circular) config leaves it at the centre (at `startAngle`).
     */
    method HideComponent()
      requires Valid()
      modifies this
      ensures animationConfigs.None? ==> componentVisible == old(componentVisible) && animated == old(animated)
      ensures animationConfigs.Some? ==> !componentVisible
      ensures animationConfigs.Some? ==>
                forall p :: ValueOf(animated, p) == (if Listed(animationConfigs, p) then InitialValue(p, element) else ValueOf(old(animated), p))
      ensures animationConfigs.Some? ==> Opacity() == 0.0
      ensures animationConfigs.Some? ==> Radius() == if ConfigOf(RadiusValue).Some? then 0.0 else element.radius
      ensures animationConfigs.Some? ==> Radians() == if ConfigOf(RadiansValue).Some? then element.startAngle else element.radians
    {
      var exitAnimationList := AnimationList(animationConfigs, element, false);
      ListShape(animationConfigs, element, false);
      if exitAnimationList.Built? {
        SettleAtEndpoints(animated, exitAnimationList.list, element, false);
        forall p ensures Drives(exitAnimationList.list, p) <==> Listed(animationConfigs, p) {
          DrivesListed(animationConfigs, element, false, p);
        }
        animated := Settle(animated, exitAnimationList.list);
        componentVisible := false;
      }
    }

    /**
     * `showComponent`: with no `animationConfigs` nothing happens.
     * Otherwise every listed entry transition runs to completion and then
     * `componentVisible` becomes true: the element shows opacity 1 at its
     * place on the circle.
     */
    method ShowComponent()
      requires Valid()
      modifies this
      ensures animationConfigs.None? ==> componentVisible == old(componentVisible) && animated == old(animated)
      ensures animationConfigs.Some? ==> componentVisible
      ensures animationConfigs.Some? ==>
                forall p :: ValueOf(animated, p) == (if Listed(animationConfigs, p) then FinalValue(p, element) else ValueOf(old(animated), p))
      ensures animationConfigs.Some? ==> Opacity() == 1.0 && Radius() == element.radius && Radians() == element.radians
    {
      var entryAnimationList := AnimationList(animationConfigs, element, true);
      ListShape(animationConfigs, element, true);
      if entryAnimationList.Built? {
        SettleAtEndpoints(animated, entryAnimationList.list, element, true);
        forall p ensures Drives(entryAnimationList.list, p) <==> Listed(animationConfigs, p) {
          DrivesListed(animationConfigs, element, true, p);
        }
        animated := Settle(animated, entryAnimationList.list);
        componentVisible := true;
      }
    }
  }
}

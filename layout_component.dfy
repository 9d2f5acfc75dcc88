/**
 * src/CircleLayoutComponent.tsx: one element of the layout. It owns three
 * held animated values (opacity, radius, angle), each animated only if its
 * config is given, staggers their delays by index with a default gap of
 * 1000 ms, and exposes `hideComponent`/`showComponent`, which run the
 * configured transitions in parallel and then flip `componentVisible`.
 */
module LayoutComponent {
  import opened Types
  import opened Transitions

  /** The gap used when a config carries no `gap`. */
  const DefaultGap: real := 1000.0

  /** A position in the plane. */
  datatype Point = Point(x: real, y: real)

  /**
   * The translation the element is rendered with,
   * `Animated.multiply(position, -1)` for each coordinate: it cancels the
   * position.
   */
  function Translation(position: Point): (t: Point)
    ensures t.x + position.x == 0.0 && t.y + position.y == 0.0
  {
    Point(-position.x, -position.y)
  }

  /** Built by push, in this fixed order, skipping unconfigured properties. */
  function PropertyOrder(): seq<Property> {
    [OpacityValue, RadiusValue, RadiansValue]
  }

  /** Rank of a property in `PropertyOrder`. */
  function Rank(p: Property): nat {
    match p
    case OpacityValue => 0
    case RadiusValue => 1
    case RadiansValue => 2
  }

  class Component {
    const element: Element
    const opacityAnimationConfig: Option<TimingConfig>
    const linearAnimationConfig: Option<TimingConfig>
    const circularAnimationConfig: Option<TimingConfig>

    /** `componentVisible` state. */
    var componentVisible: bool
    /** The three held `Animated.Value`s. */
    var animated: Values

    /** First render: visible, and every held value at its `initialValue`. */
    constructor (element: Element, opacityAnimationConfig: Option<TimingConfig>,
                 linearAnimationConfig: Option<TimingConfig>, circularAnimationConfig: Option<TimingConfig>)
      ensures this.element == element
      ensures this.opacityAnimationConfig == opacityAnimationConfig
      ensures this.linearAnimationConfig == linearAnimationConfig
      ensures this.circularAnimationConfig == circularAnimationConfig
      ensures componentVisible
      ensures animated == Seed(element)
    {
      this.element := element;
      this.opacityAnimationConfig := opacityAnimationConfig;
      this.linearAnimationConfig := linearAnimationConfig;
      this.circularAnimationConfig := circularAnimationConfig;
      componentVisible := true;
      animated := Seed(element);
    }

    /** The config that animates property `p`, if any. */
    function ConfigOf(p: Property): Option<TimingConfig> {
      match p
      case OpacityValue => opacityAnimationConfig
      case RadiusValue => linearAnimationConfig
      case RadiansValue => circularAnimationConfig
    }

    /** The configured properties, in push order. */
    function Configured(): (ps: seq<Property>)
      ensures forall p :: p in ps <==> ConfigOf(p).Some?
      ensures forall i, j | 0 <= i < j < |ps| :: Rank(ps[i]) < Rank(ps[j])
      ensures |ps| == (if opacityAnimationConfig.Some? then 1 else 0)
                    + (if linearAnimationConfig.Some? then 1 else 0)
                    + (if circularAnimationConfig.Some? then 1 else 0)
    {
      (if opacityAnimationConfig.Some? then [OpacityValue] else [])
      + (if linearAnimationConfig.Some? then [RadiusValue] else [])
      + (if circularAnimationConfig.Some? then [RadiansValue] else [])
    }

    function EntryTransitionOf(p: Property): Transition {
      EntryTransition(p, element, ConfigOf(p), DefaultGap)
    }

    function ExitTransitionOf(p: Property): Transition {
      ExitTransition(p, element, ConfigOf(p), DefaultGap)
    }

    /** The opacity the element is rendered with. */
    function Opacity(): (r: real)
      reads this
      ensures opacityAnimationConfig.Some? ==> r == animated.opacity
      ensures opacityAnimationConfig.None? ==> r == if componentVisible then 1.0 else 0.0
    {
      Effective(OpacityValue, opacityAnimationConfig, animated, element, componentVisible)
    }

    /** The radius the element is placed at. */
    function Radius(): (r: real)
      reads this
      ensures linearAnimationConfig.Some? ==> r == animated.radius
      ensures linearAnimationConfig.None? ==> r == element.radius
    {
      Effective(RadiusValue, linearAnimationConfig, animated, element, componentVisible)
    }

    /** The angle the element is placed at. */
    function Radians(): (r: real)
      reads this
      ensures circularAnimationConfig.Some? ==> r == animated.radians
      ensures circularAnimationConfig.None? ==> r == element.radians
    {
      Effective(RadiansValue, circularAnimationConfig, animated, element, componentVisible)
    }

    /**
     * The element has finished a show (`visible`) or a hide (`!visible`):
     * the flag says so and every configured held value sits at the
     * matching endpoint.
     */
    ghost predicate AtRest(visible: bool)
      reads this
    {
      && componentVisible == visible
      && forall p | ConfigOf(p).Some? :: ValueOf(animated, p) == Endpoint(p, element, visible)
    }

    /** The list `hideComponent` builds: one exit transition per configured property. */
    method HideList() returns (animationList: seq<Transition>)
      ensures |animationList| == |Configured()|
      ensures forall i | 0 <= i < |animationList| :: animationList[i] == ExitTransitionOf(Configured()[i])
    {
      animationList := [];
      if opacityAnimationConfig.Some? {
        animationList := animationList + [ExitTransitionOf(OpacityValue)];
      }
      if linearAnimationConfig.Some? {
        animationList := animationList + [ExitTransitionOf(RadiusValue)];
      }
      if circularAnimationConfig.Some? {
        animationList := animationList + [ExitTransitionOf(RadiansValue)];
      }
    }

    /** The list `showComponent` builds: one entry transition per configured property. */
    method ShowList() returns (animationList: seq<Transition>)
      ensures |animationList| == |Configured()|
      ensures forall i | 0 <= i < |animationList| :: animationList[i] == EntryTransitionOf(Configured()[i])
    {
      animationList := [];
      if opacityAnimationConfig.Some? {
        animationList := animationList + [EntryTransitionOf(OpacityValue)];
      }
      if linearAnimationConfig.Some? {
        animationList := animationList + [EntryTransitionOf(RadiusValue)];
      }
      if circularAnimationConfig.Some? {
        animationList := animationList + [EntryTransitionOf(RadiansValue)];
      }
    }

    /**
     * `hideComponent`: run the exit transitions in parallel; once all have
     * finished, `componentVisible` becomes false. The element then shows
     * opacity 0, and a linear (circular) config leaves it at the centre
     * (at `startAngle`).
     */
    method HideComponent()
      modifies this
      ensures AtRest(false)
      ensures forall p | ConfigOf(p).None? :: ValueOf(animated, p) == ValueOf(old(animated), p)
      ensures Opacity() == 0.0
      ensures Radius() == if linearAnimationConfig.Some? then 0.0 else element.radius
      ensures Radians() == if circularAnimationConfig.Some? then element.startAngle else element.radians
    {
      var animationList := HideList();
      SettleConfigured(animationList, false);
      animated := Settle(animated, animationList);
      componentVisible := false;
    }

    /**
     * `showComponent`: run the entry transitions in parallel; once all
     * have finished, `componentVisible` becomes true. Whatever is
     * configured, the element then shows opacity 1 at its place on the
     * circle.
     */
    method ShowComponent()
      modifies this
      ensures AtRest(true)
      ensures forall p | ConfigOf(p).None? :: ValueOf(animated, p) == ValueOf(old(animated), p)
      ensures Opacity() == 1.0
      ensures Radius() == element.radius
      ensures Radians() == element.radians
    {
      var animationList := ShowList();
      SettleConfigured(animationList, true);
      animated := Settle(animated, animationList);
      componentVisible := true;
    }

    /** Settling the built list moves exactly the configured values to their endpoints. */
    lemma SettleConfigured(animationList: seq<Transition>, entry: bool)
      requires |animationList| == |Configured()|
      requires forall i | 0 <= i < |animationList| ::
                 animationList[i] == (if entry then EntryTransitionOf(Configured()[i]) else ExitTransitionOf(Configured()[i]))
      ensures forall p | ConfigOf(p).Some? :: ValueOf(Settle(animated, animationList), p) == Endpoint(p, element, entry)
      ensures forall p | ConfigOf(p).None? :: ValueOf(Settle(animated, animationList), p) == ValueOf(animated, p)
    {
      SettleAtEndpoints(animated, animationList, element, entry);
      DrivesExactly(animationList, Configured());
    }
  }

  /** Without any config, hide and show only flip the flag; opacity is exactly 0 or 1. */
  lemma StaticPath(c: Component)
    requires c.opacityAnimationConfig.None? && c.linearAnimationConfig.None? && c.circularAnimationConfig.None?
    ensures c.Configured() == []
    ensures c.Opacity() == if c.componentVisible then 1.0 else 0.0
  {
  }

  /** Without a config, the stagger gap is 1000 ms and element 0 enters at once. */
  lemma DefaultStagger(e: Element)
    ensures EntryDelay(None, DefaultGap, e.index) == 1000.0 * e.index as real
    ensures ExitDelay(None, DefaultGap, e.index, e.totalPoints) == 1000.0 * (e.totalPoints - e.index - 1) as real
    ensures EntryDelay(None, DefaultGap, 0) == 0.0
  {
  }

  /** The element with index `totalPoints - 1` exits at once. */
  lemma LastPartExitsFirst(cfg: Option<TimingConfig>, totalPoints: int)
    requires !OverridesDelay(cfg) && totalPoints >= 1
    ensures ExitDelay(cfg, DefaultGap, totalPoints - 1, totalPoints) == 0.0
  {
  }
}

/**
 * src/CircleLayout.tsx: the layout keeps one ref per element (filled in
 * place by each element's ref callback), gives every element its index,
 * angle and the shared circle parameters, fans `hideComponents` and
 * `showComponents` out to every mounted element, and reports whether all
 * of them are visible.
 */
module Layout {
  import opened Types
  import opened Transitions
  import Arc
  import opened LayoutComponent

  /**
   * The values element `index` is built from under its own props
   * contract: its index, `totalPoints`, the radius, the start angle and
   * its own angle, with `totalPoints`, the radius and the start angle
   * taken from what the layout puts in its context. `None` when the angle
   * is not a number (one element on a partial sweep). The layout as
   * written passes the element only its component, index, key, angle and
   * ref, and the element does not read the context, so there the other
   * props arrive undefined.
   */
  function ElementFor(count: nat, radius: real, startAngle: real, sweepAngle: real, index: nat): (e: Option<Element>)
    ensures e.None? <==> Arc.TotalPoints(count, sweepAngle) == 0
    ensures e.Some? ==> e.value.index == index && e.value.totalPoints == Arc.TotalPoints(count, sweepAngle)
    ensures e.Some? ==> Some(e.value.radians) == Arc.Radians(startAngle, sweepAngle, index, Arc.TotalPoints(count, sweepAngle))
  {
    var totalPoints := Arc.TotalPoints(count, sweepAngle);
    match Arc.Radians(startAngle, sweepAngle, index, totalPoints)
    case None => None
    case Some(radians) => Some(Element(index, totalPoints, radius, startAngle, radians))
  }

  /**
   * On a partial sweep the last element's exit delay is `-gap`: its
   * `totalPoints - index - 1` is -1.
   */
  lemma PartialSweepLastExitDelay(count: nat, radius: real, startAngle: real, sweepAngle: real, cfg: Option<TimingConfig>)
    requires count >= 2 && Arc.PartialSweep(sweepAngle) && !OverridesDelay(cfg)
    ensures ElementFor(count, radius, startAngle, sweepAngle, count - 1).Some?
    ensures var e := ElementFor(count, radius, startAngle, sweepAngle, count - 1).value;
      ExitDelay(cfg, DefaultGap, e.index, e.totalPoints) == -Gap(cfg, DefaultGap)
  {
  }

  /** `every(component => component?.componentVisible)` over the refs. */
  function AllVisible(refs: seq<Component?>): (r: bool)
    reads refs
    ensures r <==> forall i | 0 <= i < |refs| :: refs[i] != null && refs[i].componentVisible
  {
    if refs == [] then true
    else refs[0] != null && refs[0].componentVisible && AllVisible(refs[1..])
  }

  class CircleLayout {
    const count: nat
    const radius: real
    const startAngle: real
    const sweepAngle: real
    /** `componentRefs.current`. */
    var componentRefs: seq<Component?>

    /** The mounted elements. */
    ghost function Refs(): set<Component>
      reads this
    {
      set r: Component | r in componentRefs
    }

    /** One slot per element, and a mounted slot `i` holds the element built for index `i`. */
    ghost predicate Valid()
      reads this
    {
      && |componentRefs| == count
      && forall i | 0 <= i < count ::
           componentRefs[i] != null ==> Some(componentRefs[i].element) == ElementFor(count, radius, startAngle, sweepAngle, i)
    }

    /** First render: one empty ref slot per element. */
    constructor (count: nat, radius: real, startAngle: real, sweepAngle: real)
      ensures Valid()
      ensures this.count == count && this.radius == radius
      ensures this.startAngle == startAngle && this.sweepAngle == sweepAngle
      ensures |componentRefs| == count
      ensures forall i | 0 <= i < count :: componentRefs[i] == null
    {
      this.count := count;
      this.radius := radius;
      this.startAngle := startAngle;
      this.sweepAngle := sweepAngle;
      componentRefs := seq(count, _ => null);
    }

    /** The ref callback of element `index`: `componentRefs.current[index] = el`. */
    method SetRef(index: nat, el: Component?)
      requires Valid() && index < count
      requires el == null || Some(el.element) == ElementFor(count, radius, startAngle, sweepAngle, index)
      modifies this
      ensures Valid()
      ensures componentRefs == old(componentRefs)[index := el]
    {
      componentRefs := componentRefs[index := el];
    }

    /**
     * `componentsVisible`: true exactly when every slot holds a mounted
     * element whose flag is set; an empty layout is visible.
     */
    function ComponentsVisible(): (r: bool)
      reads this, componentRefs
      ensures r <==> forall i | 0 <= i < |componentRefs| :: componentRefs[i] != null && componentRefs[i].componentVisible
      ensures |componentRefs| == 0 ==> r
    {
      AllVisible(componentRefs)
    }

    /**
     * `hideComponents`: call `hideComponent` on every mounted element,
     * skipping empty slots. Each element ends hidden at opacity 0, at the
     * centre if its radius is animated; the layout itself, and what the
     * elements do not animate, stay as they were.
     */
    method HideComponents()
      requires Valid()
      modifies Refs()
      ensures Valid()
      ensures forall i | 0 <= i < count :: componentRefs[i] != null ==> componentRefs[i].AtRest(false)
      ensures forall i | 0 <= i < count :: componentRefs[i] != null ==> componentRefs[i].Opacity() == 0.0
      ensures forall i | 0 <= i < count :: componentRefs[i] != null ==>
                componentRefs[i].Radius() == if componentRefs[i].linearAnimationConfig.Some? then 0.0 else radius
      ensures forall i | 0 <= i < count :: componentRefs[i] != null ==>
                Some(componentRefs[i].Radians()) ==
                  if componentRefs[i].circularAnimationConfig.Some? then Some(startAngle)
                  else Arc.Radians(startAngle, sweepAngle, i, Arc.TotalPoints(count, sweepAngle))
      ensures forall r | r in Refs() :: forall p | r.ConfigOf(p).None? :: ValueOf(r.animated, p) == ValueOf(old(r.animated), p)
      ensures ComponentsVisible() <==> count == 0
    {
      for i := 0 to |componentRefs|
        invariant forall j | 0 <= j < i :: componentRefs[j] != null ==> componentRefs[j].AtRest(false)
        invariant forall j | 0 <= j < i :: componentRefs[j] != null ==> componentRefs[j].Opacity() == 0.0
        invariant forall j | 0 <= j < i :: componentRefs[j] != null ==>
                    componentRefs[j].Radius() == if componentRefs[j].linearAnimationConfig.Some? then 0.0 else radius
        invariant forall j | 0 <= j < i :: componentRefs[j] != null ==>
                    componentRefs[j].Radians() ==
                      if componentRefs[j].circularAnimationConfig.Some? then componentRefs[j].element.startAngle
                      else componentRefs[j].element.radians
        invariant forall r | r in Refs() :: forall p | r.ConfigOf(p).None? :: ValueOf(r.animated, p) == ValueOf(old(r.animated), p)
      {
        var componentRef := componentRefs[i];
        if componentRef != null {
          componentRef.HideComponent();
        }
      }
      if |componentRefs| > 0 {
        assert componentRefs[0] == null || !componentRefs[0].componentVisible;
      }
    }

    /**
     * `showComponents`: call `showComponent` on every mounted element,
     * skipping empty slots. Each mounted slot `i` then shows opacity 1 at
     * the layout's radius and at the arc angle of index `i`; once every
     * slot is mounted the layout reports itself visible.
     */
    method ShowComponents()
      requires Valid()
      modifies Refs()
      ensures Valid()
      ensures forall i | 0 <= i < count :: componentRefs[i] != null ==> componentRefs[i].AtRest(true)
      ensures forall i | 0 <= i < count :: componentRefs[i] != null ==>
                && componentRefs[i].Opacity() == 1.0
                && componentRefs[i].Radius() == radius
                && Some(componentRefs[i].Radians()) == Arc.Radians(startAngle, sweepAngle, i, Arc.TotalPoints(count, sweepAngle))
      ensures forall r | r in Refs() :: forall p | r.ConfigOf(p).None? :: ValueOf(r.animated, p) == ValueOf(old(r.animated), p)
      ensures (forall i | 0 <= i < count :: componentRefs[i] != null) ==> ComponentsVisible()
    {
      for i := 0 to |componentRefs|
        invariant forall j | 0 <= j < i :: componentRefs[j] != null ==> componentRefs[j].AtRest(true)
        invariant forall j | 0 <= j < i :: componentRefs[j] != null ==>
                    componentRefs[j].Opacity() == 1.0 && componentRefs[j].Radius() == componentRefs[j].element.radius
                    && componentRefs[j].Radians() == componentRefs[j].element.radians
        invariant forall r | r in Refs() :: forall p | r.ConfigOf(p).None? :: ValueOf(r.animated, p) == ValueOf(old(r.animated), p)
      {
        var componentRef := componentRefs[i];
        if componentRef != null {
          componentRef.ShowComponent();
        }
      }
    }
  }

  /** Before any element is mounted, a non-empty layout is not visible. */
  lemma UnmountedNotVisible(layout: CircleLayout)
    requires |layout.componentRefs| > 0 && layout.componentRefs[0] == null
    ensures !layout.ComponentsVisible()
  {
  }
}

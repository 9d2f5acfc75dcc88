/**
 * The object-argument transition builder both element controllers call
 * (`useAnimation({initialValue, finalValue, entryAnimationConfig,
 * exitAnimationConfig})`): a held value per animated property, an entry
 * transition towards `finalValue` and an exit transition back towards
 * `initialValue`. Also the stagger-delay arithmetic and the fallback rule
 * for effective values that src/CircleLayoutComponent.tsx and
 * src/hooks/useCombinedAnimation.ts share, and the atomic model of
 * `Animated.parallel(list).start(callback)`.
 */
module Transitions {
  import opened Types

  /** The three animated properties of one element. */
  datatype Property = OpacityValue | RadiusValue | RadiansValue

  /**
   * What one element reads from its props or the layout context: its
   * index, the number of parts the arc is divided into, the circle's
   * radius, the start angle and the element's own angle.
   */
  datatype Element = Element(index: nat, totalPoints: int, radius: real, startAngle: real, radians: real)

  /** One timed move of a property's held value: its target and delay. */
  datatype Transition = Transition(property: Property, target: real, delay: real)

  /** The current values of the three held animated values. */
  datatype Values = Values(opacity: real, radius: real, radians: real)

  /** The value a property's held value is created with and exits to. */
  function InitialValue(p: Property, e: Element): real {
    match p
    case OpacityValue => 0.0
    case RadiusValue => 0.0
    case RadiansValue => e.startAngle
  }

  /** The value a property's entry transition moves to. */
  function FinalValue(p: Property, e: Element): real {
    match p
    case OpacityValue => 1.0
    case RadiusValue => e.radius
    case RadiansValue => e.radians
  }

  /** The target of the entry (`entry`) or exit (`!entry`) transition. */
  function Endpoint(p: Property, e: Element, entry: bool): real {
    if entry then FinalValue(p, e) else InitialValue(p, e)
  }

  /** The held values as created: each at its `initialValue`. */
  function Seed(e: Element): (v: Values)
    ensures forall p :: ValueOf(v, p) == InitialValue(p, e)
  {
    Values(0.0, 0.0, e.startAngle)
  }

  function ValueOf(v: Values, p: Property): real {
    match p
    case OpacityValue => v.opacity
    case RadiusValue => v.radius
    case RadiansValue => v.radians
  }

  /** `setValue` on one held value; the other two are untouched. */
  function WithValue(v: Values, p: Property, x: real): (r: Values)
    ensures ValueOf(r, p) == x
    ensures forall q | q != p :: ValueOf(r, q) == ValueOf(v, q)
  {
    match p
    case OpacityValue => v.(opacity := x)
    case RadiusValue => v.(radius := x)
    case RadiansValue => v.(radians := x)
  }

  /** `config?.gap ?? defaultGap`. */
  function Gap(cfg: Option<TimingConfig>, defaultGap: real): (g: real)
    ensures cfg.Some? && cfg.value.gap.Some? ==> g == cfg.value.gap.value
    ensures (cfg.None? || cfg.value.gap.None?) ==> g == defaultGap
  {
    if cfg.Some? then cfg.value.gap.GetOr(defaultGap) else defaultGap
  }

  /** True when the config carries its own `delay`, which the spread puts last. */
  predicate OverridesDelay(cfg: Option<TimingConfig>) {
    cfg.Some? && cfg.value.delay.Some?
  }

  /** `{ delay: gap * index, ...config }.delay`. */
  function EntryDelay(cfg: Option<TimingConfig>, defaultGap: real, index: nat): (d: real)
    ensures OverridesDelay(cfg) ==> d == cfg.value.delay.value
    ensures !OverridesDelay(cfg) && index == 0 ==> d == 0.0
    ensures !OverridesDelay(cfg) && Gap(cfg, defaultGap) >= 0.0 ==> d >= 0.0
  {
    if OverridesDelay(cfg) then cfg.value.delay.value else Gap(cfg, defaultGap) * index as real
  }

  /** `{ delay: gap * (totalPoints - index - 1), ...config }.delay`. */
  function ExitDelay(cfg: Option<TimingConfig>, defaultGap: real, index: nat, totalPoints: int): (d: real)
    ensures OverridesDelay(cfg) ==> d == cfg.value.delay.value
    ensures !OverridesDelay(cfg) && index + 1 == totalPoints ==> d == 0.0
    ensures !OverridesDelay(cfg) && Gap(cfg, defaultGap) >= 0.0 && index < totalPoints ==> d >= 0.0
  {
    if OverridesDelay(cfg) then cfg.value.delay.value else Gap(cfg, defaultGap) * (totalPoints - index - 1) as real
  }

  /** `entryAnimation()` of property `p`'s transition builder. */
  function EntryTransition(p: Property, e: Element, cfg: Option<TimingConfig>, defaultGap: real): Transition {
    Transition(p, FinalValue(p, e), EntryDelay(cfg, defaultGap, e.index))
  }

  /** `exitAnimation()` of property `p`'s transition builder. */
  function ExitTransition(p: Property, e: Element, cfg: Option<TimingConfig>, defaultGap: real): Transition {
    Transition(p, InitialValue(p, e), ExitDelay(cfg, defaultGap, e.index, e.totalPoints))
  }

  /**
   * The value shown for a property: the held animated value when the
   * property has a config, otherwise the static fallback (opacity 1 when
   * visible and 0 when hidden, the target radius, the target angle).
   */
  function Effective(p: Property, cfg: Option<TimingConfig>, held: Values, e: Element, visible: bool): (r: real)
    ensures cfg.Some? ==> r == ValueOf(held, p)
    ensures cfg.None? ==> r == Endpoint(p, e, visible || p != OpacityValue)
  {
    if cfg.Some? then ValueOf(held, p)
    else match p
      case OpacityValue => if visible then 1.0 else 0.0
      case RadiusValue => e.radius
      case RadiansValue => e.radians
  }

  /**
   * Once a show (`visible`) or a hide (`!visible`) has settled the held
   * value of an animated property, the fallback and the animation agree
   * except where the animation deliberately moves the element: a shown
   * element is at its final opacity, radius and angle either way, and
   * opacity tracks visibility either way; only a hidden element's radius
   * and angle depend on whether they were animated.
   */
  lemma EffectiveAtRest(p: Property, cfg: Option<TimingConfig>, held: Values, e: Element, visible: bool)
    requires cfg.Some? ==> ValueOf(held, p) == Endpoint(p, e, visible)
    ensures visible ==> Effective(p, cfg, held, e, visible) == FinalValue(p, e)
    ensures p == OpacityValue ==> Effective(p, cfg, held, e, visible) == (if visible then 1.0 else 0.0)
    ensures !visible && p != OpacityValue ==>
              Effective(p, cfg, held, e, visible) == (if cfg.Some? then InitialValue(p, e) else FinalValue(p, e))
  {
  }

  /** Some transition in `list` drives property `p`. */
  predicate Drives(list: seq<Transition>, p: Property) {
    exists i | 0 <= i < |list| :: list[i].property == p
  }

  /** A list that drives, position by position, the properties `ps` drives exactly those. */
  lemma DrivesExactly(list: seq<Transition>, ps: seq<Property>)
    requires |list| == |ps|
    requires forall i | 0 <= i < |list| :: list[i].property == ps[i]
    ensures forall p :: Drives(list, p) <==> p in ps
  {
    forall p | p in ps ensures Drives(list, p) {
      var i :| 0 <= i < |ps| && ps[i] == p;
      assert list[i].property == p;
    }
  }

  /**
   * `Animated.parallel(list).start(...)` run to completion: every listed
   * transition's held value reaches its target. Timing is collapsed; the
   * list is applied in order, so for two transitions of one property the
   * later one's target is the one that remains.
   */
  function Settle(v: Values, list: seq<Transition>): (r: Values)
    ensures forall p | !Drives(list, p) :: ValueOf(r, p) == ValueOf(v, p)
    ensures forall p | Drives(list, p) :: exists i | LastFor(list, p, i) :: ValueOf(r, p) == list[i].target
    decreases |list|
  {
    if list == [] then v
    else
      var r := Settle(WithValue(v, list[0].property, list[0].target), list[1..]);
      SettleStep(v, list, r);
      r
  }

  /** Position `i` holds the last transition of `p` in `list`. */
  predicate LastFor(list: seq<Transition>, p: Property, i: int) {
    0 <= i < |list| && list[i].property == p && forall j | i < j < |list| :: list[j].property != p
  }

  /**
   * One step of `Settle`: if settling the tail after applying the head
   * gives `r`, then `r` is what settling the whole list promises.
   */
  lemma SettleStep(v: Values, list: seq<Transition>, r: Values)
    requires list != []
    requires forall p | !Drives(list[1..], p) ::
               ValueOf(r, p) == ValueOf(WithValue(v, list[0].property, list[0].target), p)
    requires forall p | Drives(list[1..], p) :: exists i | LastFor(list[1..], p, i) :: ValueOf(r, p) == list[1..][i].target
    ensures forall p | !Drives(list, p) :: ValueOf(r, p) == ValueOf(v, p)
    ensures forall p | Drives(list, p) :: exists i | LastFor(list, p, i) :: ValueOf(r, p) == list[i].target
  {
    var rest := list[1..];
    assert forall k | 0 <= k < |rest| :: rest[k] == list[k + 1];
    forall p | Drives(list, p) ensures exists i | LastFor(list, p, i) :: ValueOf(r, p) == list[i].target {
      if Drives(rest, p) {
        var i :| LastFor(rest, p, i) && ValueOf(r, p) == rest[i].target;
        assert LastFor(list, p, i + 1);
      } else {
        assert LastFor(list, p, 0);
      }
    }
  }

  /**
   * When every listed transition targets its property's entry (or exit)
   * endpoint, settling puts exactly the driven properties at that
   * endpoint and leaves the others as they were.
   */
  lemma SettleAtEndpoints(v: Values, list: seq<Transition>, e: Element, entry: bool)
    requires forall i | 0 <= i < |list| :: list[i].target == Endpoint(list[i].property, e, entry)
    ensures forall p :: ValueOf(Settle(v, list), p) == if Drives(list, p) then Endpoint(p, e, entry) else ValueOf(v, p)
  {
    var r := Settle(v, list);
    forall p | Drives(list, p) ensures ValueOf(r, p) == Endpoint(p, e, entry) {
      var i :| LastFor(list, p, i) && ValueOf(r, p) == list[i].target;
    }
  }

  /**
   * The stagger wave: without a `delay` override, element 0 enters at 0,
   * each following index enters one gap later and exits one gap earlier,
   * and entry plus exit delay is the same for every index.
   */
  lemma StaggerWave(cfg: Option<TimingConfig>, defaultGap: real, index: nat, totalPoints: int)
    requires !OverridesDelay(cfg)
    ensures EntryDelay(cfg, defaultGap, 0) == 0.0
    ensures EntryDelay(cfg, defaultGap, index + 1) - EntryDelay(cfg, defaultGap, index) == Gap(cfg, defaultGap)
    ensures ExitDelay(cfg, defaultGap, index, totalPoints) - ExitDelay(cfg, defaultGap, index + 1, totalPoints) == Gap(cfg, defaultGap)
    ensures EntryDelay(cfg, defaultGap, index) + ExitDelay(cfg, defaultGap, index, totalPoints)
         == Gap(cfg, defaultGap) * (totalPoints - 1) as real
  {
  }

  /** A config's own `delay` replaces both staggered delays. */
  lemma DelayOverride(cfg: Option<TimingConfig>, defaultGap: real, index: nat, totalPoints: int)
    requires OverridesDelay(cfg)
    ensures EntryDelay(cfg, defaultGap, index) == ExitDelay(cfg, defaultGap, index, totalPoints) == cfg.value.delay.value
  {
  }
}

# react-native-circle-layout, modelled in Dafny

A model of the logic core of `react-native-circle-layout`, a React Native
library that places a list of components on a circle (or an arc) around a
centre component and can animate them in and out one after another.

The model covers these parts of the library:

- **Sampling table** (`Sampling`, src/utils/animation.ts). `withFunction`
  builds 51 evenly spaced inputs on [0, 1] and the callback's value at each
  one. It is a method with a loop, proved against the specification
  function `SampleTable`.
- **Arc arithmetic** (`Arc`). This is the rule src/CircleLayout.tsx and
  src/index.tsx share:
  - `totalPoints` is one less than the number of elements on a partial
    sweep, and equal to it otherwise;
  - element i sits at `startAngle + sweepAngle * (i / totalPoints)`;
  - the container's minimum height depends on whether the sweep reaches π.

  A zero `totalPoints` (one element on a partial sweep) is a `None` angle.
- **Layout** (`Layout`, src/CircleLayout.tsx). A class holds the element
  refs, which the ref callbacks write in place. `hideComponents` and
  `showComponents` fan out to every mounted element, and
  `componentsVisible` is an `every` over the refs.
- **Earlier layout** (`LegacyLayout`, src/index.tsx). It fills in the
  default props and renders each index once, in order.
- **Shared transition model** (`Transitions`):
  - the three held animated values of an element (opacity, radius, angle)
    with their initial and final values;
  - the staggered delays, where entry waits `gap * index` and exit waits
    `gap * (totalPoints - index - 1)`, and a config's own `delay` overrides
    both;
  - the fallback rule for shown values;
  - `Animated.parallel(list).start(cb)`, collapsed into `Settle`, which puts
    every listed value at its target.
- **Element** (`LayoutComponent`, src/CircleLayoutComponent.tsx). A class
  with the `componentVisible` flag and the held values. Hide and show build
  the transition list by push in the fixed order opacity, linear, circular,
  settle it, then flip the flag. The default gap is 1000 ms.
- **Config-list controller** (`CombinedAnimation`,
  src/hooks/useCombinedAnimation.ts):
  - it looks up the first config of each type;
  - it maps `animationConfigs` to entry and exit lists, with an explicit
    error outcome for an unknown type;
  - hide and show do nothing without configs;
  - the default gap is 0.
- **Fade hook** (`FadeAnimation`, src/hooks/useAnimation.ts). A class with
  the held value, the transitions in flight and the effect as a method.
- **Linear hook** (`LinearAnimation`, src/hooks/useLinearAnimation.ts). The
  same shape as the fade hook, over an XY value.

Numbers are `real`. `Pi` is the shortest decimal that rounds to the double
`Math.PI`, and `TwoPi` is twice that. The proofs use only that `Pi` is
positive.

## Model

| member | source | states |
|---|---|---|
| `Sampling.SampleTable` | src/utils/animation.ts:6-11 | The table has 51 inputs and 51 outputs. Input i is i/50, and output i is the callback at input i. |
| `Sampling.WithFunction` | src/utils/animation.ts:3-13 | The loop returns two arrays of exactly 51 elements, with `inputRange[i] == i/50` and `outputRange[i] == callback(inputRange[i])`, and it equals `SampleTable`. The loop invariant keeps the prefix built so far equal to the specification. |
| `Sampling.InterpolationWithFunction` | src/utils/animation.ts:15-18 | The table handed to `interpolate` is exactly `SampleTable(callback)`. |
| `Sampling.InputRangeAscends` | src/utils/animation.ts:7-9 | The inputs start at 0, end at 1 and strictly ascend. |
| `Sampling.InputRangeEvenlySpaced` | src/utils/animation.ts:7-8 | Consecutive inputs are exactly 1/50 apart. |
| `Sampling.DoublingTable` | src/__tests__/animation.test.ts:18-35 | With the doubling callback, output i is i/25 and the last output is 2. |
| `Arc.TotalPoints` | src/CircleLayout.tsx:43-46 | It is n−1 for a non-zero sweep other than 2π, and n otherwise, including for a sweep of 0. |
| `Arc.Radians` | src/CircleLayout.tsx:78 | The angle is undefined (`None`) exactly when `totalPoints` is 0. |
| `Arc.Angles` | src/CircleLayout.tsx:70-85 | There is one angle per element, in index order, each given by the arc rule. |
| `Arc.DegenerateExactly` | src/CircleLayout.tsx:43-46 | For a non-empty layout, `totalPoints` is 0 exactly for one element on a partial sweep, and that angle is undefined. |
| `Arc.AnglesDefined` | src/CircleLayout.tsx:78 | Outside the degenerate case, every element's angle is defined. |
| `Arc.FirstAngleIsStart` | src/CircleLayout.tsx:78 | Element 0 sits at `startAngle`. |
| `Arc.ConsecutiveAngles` | src/CircleLayout.tsx:78 | Consecutive elements are exactly `sweepAngle / totalPoints` apart, with `totalPoints > 0`. |
| `Arc.PartialSweepEndsAtSweep` | src/CircleLayout.tsx:43-46 | On a partial sweep with two or more elements, the last element sits at `startAngle + sweepAngle`. |
| `Arc.FullCircleStaysBelowTurn` | src/CircleLayout.tsx:78 | On a full circle, every angle is defined and lies in `[startAngle, startAngle + 2π)`, so no element lands on the first. |
| `Arc.MinHeight` | src/CircleLayout.tsx:106 | For a non-negative radius the height lies between `radius` and `2·radius`. It is `2·radius` for a sweep of at least 2π and `radius` for a sweep of at most 0. |
| `Arc.MinHeightDoubleIff` | src/CircleLayout.tsx:106 | For a positive radius, the minimum height is `2·radius` iff the sweep is at least π, and `radius` iff it is below π. |
| `Layout.ElementFor` | src/CircleLayout.tsx:48-82 | Element `index` gets its index, `totalPoints` and the arc angle. It has none exactly when `totalPoints` is 0. |
| `Layout.PartialSweepLastExitDelay` | src/CircleLayoutComponent.tsx:49-53 | On a partial sweep with n ≥ 2 elements, the last element's exit delay is −gap. |
| `Layout.AllVisible` | src/CircleLayout.tsx:96-98 | True iff every ref is non-null and visible. |
| `Layout.CircleLayout.constructor` | src/CircleLayout.tsx:38-40 | There is one ref slot per element, and all are empty. |
| `Layout.CircleLayout.SetRef` | src/CircleLayout.tsx:79-81 | The callback writes slot `index` and no other. Storing the element rendered for `index` keeps every mounted slot `i` holding the element built for `i`. |
| `Layout.CircleLayout.ComponentsVisible` | src/CircleLayout.tsx:96-98 | True iff every slot holds a mounted, visible element. An empty layout is visible. |
| `Layout.CircleLayout.HideComponents` | src/CircleLayout.tsx:88-91 | Every mounted element ends hidden, with its configured values at their exit endpoints. Slot i then shows opacity 0. Its radius is 0 if animated and the layout's radius otherwise. Its angle is `startAngle` if animated and the arc angle of i otherwise. Empty slots are skipped. Unanimated values are unchanged. A non-empty layout then reports not visible. |
| `Layout.CircleLayout.ShowComponents` | src/CircleLayout.tsx:92-95 | Every mounted element ends shown, with its configured values at their entry endpoints. Slot i then shows opacity 1 at the layout's radius and the arc angle of i. Unanimated values are unchanged. Once every slot is mounted, the layout reports visible. |
| `Layout.UnmountedNotVisible` | src/CircleLayout.tsx:96-98 | A layout whose first slot is still empty is not visible. |
| `LegacyLayout.WithDefaults` | src/index.tsx:103-106 | An omitted start angle becomes 0 and an omitted sweep becomes 2π. Given props are kept. |
| `LegacyLayout.Placements` | src/index.tsx:84-94 | The first n placements carry indices 0..n−1, each at the arc angle. |
| `LegacyLayout.Render` | src/index.tsx:84-94 | One placement is rendered per component. |
| `LegacyLayout.RenderEachIndexOnce` | src/index.tsx:84-93 | The rendered keys are exactly 0..n−1, in strictly increasing order. |
| `LegacyLayout.DefaultsSpreadFullCircle` | src/index.tsx:52-65 | With default angles, `totalPoints == n`, element i is at `2π·i/n`, and every angle is in [0, 2π). |
| `LegacyLayout.DefaultMinHeight` | src/index.tsx:78 | With the default sweep, the minimum height is `2·radius`. |
| `Transitions.Seed` | src/CircleLayoutComponent.tsx:42-54 | Each held value starts at its initial value: opacity 0, radius 0, angle `startAngle`. |
| `Transitions.EffectiveAtRest` | src/CircleLayoutComponent.tsx:56-60 | At rest, the shown value of a shown element is its final value whether animated or not, and opacity is 1 when shown and 0 when hidden. Only a hidden element's radius and angle depend on whether they are animated. |
| `Transitions.Gap` | src/CircleLayoutComponent.tsx:46-51 | The gap is the config's `gap` when it has one, and the default gap when there is no config or no `gap`. |
| `Transitions.EntryDelay` | src/CircleLayoutComponent.tsx:45-48 | A config's own `delay` is the entry delay. Otherwise index 0 enters at once, and a non-negative gap gives a non-negative delay. `Transitions.StaggerWave` adds the per-index step. |
| `Transitions.ExitDelay` | src/CircleLayoutComponent.tsx:49-53 | A config's own `delay` is the exit delay. Otherwise index `totalPoints−1` exits at once, and for an index below `totalPoints` a non-negative gap gives a non-negative delay. `Transitions.StaggerWave` adds the per-index step. |
| `Transitions.Effective` | src/CircleLayoutComponent.tsx:56-60 | With a config the shown value is the held value. Without one it is the entry endpoint for radius and angle, and for opacity 1 when visible and 0 when hidden. |
| `Transitions.Settle` | src/CircleLayoutComponent.tsx:132-134 | A property no transition drives keeps its value. A driven property ends at the target of its last transition in the list. |
| `Transitions.SettleAtEndpoints` | src/CircleLayoutComponent.tsx:132-134 | After a parallel run whose targets are all endpoints, exactly the driven properties sit at the endpoint, and the others keep their values. |
| `Transitions.StaggerWave` | src/CircleLayoutComponent.tsx:45-53 | Without a `delay` override, entry of index 0 waits 0, each further index enters one gap later and exits one gap earlier, and entry + exit delay is `gap·(totalPoints−1)`. |
| `Transitions.DelayOverride` | src/CircleLayoutComponent.tsx:45-53 | A config's own `delay`, spread last, replaces both the entry and the exit delay. |
| `LayoutComponent.Translation` | src/CircleLayoutComponent.tsx:157-160 | The translation cancels the position in each coordinate. |
| `LayoutComponent.Component.constructor` | src/CircleLayoutComponent.tsx:34-54 | The element starts visible, with every held value at its initial value. |
| `LayoutComponent.Component.Configured` | src/CircleLayoutComponent.tsx:127-131 | The pushed properties are exactly the configured ones, in the order opacity, linear, circular. Their number equals the number of configs present. |
| `LayoutComponent.Component.HideList` | src/CircleLayoutComponent.tsx:127-131 | The hide list holds one exit transition per configured property, in push order. |
| `LayoutComponent.Component.ShowList` | src/CircleLayoutComponent.tsx:137-141 | The show list holds one entry transition per configured property, in push order. |
| `LayoutComponent.Component.Opacity` | src/CircleLayoutComponent.tsx:56-60 | With an opacity config the shown opacity is the held value. Without one it is 1 when visible and 0 when hidden. |
| `LayoutComponent.Component.Radius` | src/CircleLayoutComponent.tsx:83-87 | With a linear config the shown radius is the held value. Without one it is the element's radius. |
| `LayoutComponent.Component.Radians` | src/CircleLayoutComponent.tsx:111-115 | With a circular config the shown angle is the held value. Without one it is the element's angle. |
| `LayoutComponent.Component.SettleConfigured` | src/CircleLayoutComponent.tsx:132-134 | Running a built list puts every configured value at its endpoint and leaves every unconfigured one as it was. |
| `LayoutComponent.Component.HideComponent` | src/CircleLayoutComponent.tsx:126-135 | After all exit transitions, `componentVisible` is false and the configured values are at their initial values. Unconfigured held values are unchanged. Opacity shows 0, radius shows 0 if animated and `radius` otherwise, and the angle shows `startAngle` if animated and `radians` otherwise. |
| `LayoutComponent.Component.ShowComponent` | src/CircleLayoutComponent.tsx:136-145 | After all entry transitions, `componentVisible` is true, unconfigured held values are unchanged, and the element shows opacity 1 at its radius and angle whatever is configured. |
| `LayoutComponent.StaticPath` | src/CircleLayoutComponent.tsx:56-60 | Without configs, the lists are empty and opacity is 1 when visible and 0 when hidden. |
| `LayoutComponent.DefaultStagger` | src/CircleLayoutComponent.tsx:46-51 | Without a config, the gap is 1000. Entry waits `1000·index` and exit waits `1000·(totalPoints−index−1)`. |
| `LayoutComponent.LastPartExitsFirst` | src/CircleLayoutComponent.tsx:49-53 | Index `totalPoints−1` exits with delay 0. |
| `CombinedAnimation.TypeOf` | src/hooks/useCombinedAnimation.ts:145-151 | The animation types and the three properties correspond one to one. |
| `CombinedAnimation.FirstIndexOf` | src/hooks/useCombinedAnimation.ts:41-49 | It returns the first position with the type, or none if no entry has it. |
| `CombinedAnimation.FindConfig` | src/hooks/useCombinedAnimation.ts:41-49 | A found config is the `config` of the first entry of that type. When an entry of that type exists, the first one's `config` is returned. With no configs, or no entry of that type, the result is none. |
| `CombinedAnimation.TransitionFor` | src/hooks/useCombinedAnimation.ts:145-153 | A recognized type yields the transition of its property, aimed at the endpoint. An unknown type yields nothing. |
| `CombinedAnimation.AnimationList` | src/hooks/useCombinedAnimation.ts:142-184 | There is no list exactly when `animationConfigs` is undefined. A failure carries "Unrecognized config type". A built list has one transition per config. |
| `CombinedAnimation.MapConfigs` | src/hooks/useCombinedAnimation.ts:142-184 | The map succeeds iff every type is recognized, and otherwise throws "Unrecognized config type". A built list has one transition per entry, in order. |
| `CombinedAnimation.ListShape` | src/hooks/useCombinedAnimation.ts:142-184 | Undefined configs give no list. Entry and exit lists fail together, exactly when some entry's type is unknown. A built list element i drives entry i's property to its endpoint, staggered by the first config of that type. |
| `CombinedAnimation.DrivesListed` | src/hooks/useCombinedAnimation.ts:142-162 | A built list drives exactly the properties whose type appears in `animationConfigs`. |
| `CombinedAnimation.NoGapNoStagger` | src/hooks/useCombinedAnimation.ts:66-75 | With the default gap 0 and no `delay`, entry and exit delays are 0. |
| `CombinedAnimation.Animator.constructor` | src/hooks/useCombinedAnimation.ts:54 | The controller starts visible, with its held values at their initial values. |
| `CombinedAnimation.Animator.ConfigOf` | src/hooks/useCombinedAnimation.ts:41-49 | A property has a config exactly when its type is listed, and the config is the one of the first entry of that type. |
| `CombinedAnimation.Animator.Opacity` | src/hooks/useCombinedAnimation.ts:78-82 | With an opacity config the shown opacity is the held value. Without one it is 1 when visible and 0 when hidden. |
| `CombinedAnimation.Animator.Radius` | src/hooks/useCombinedAnimation.ts:108-111 | With a linear config the shown radius is the held value. Without one it is the context radius. |
| `CombinedAnimation.Animator.Radians` | src/hooks/useCombinedAnimation.ts:137-140 | With a circular config the shown angle is the held value. Without one it is the element's angle. |
| `CombinedAnimation.Animator.HideComponent` | src/hooks/useCombinedAnimation.ts:189-195 | Without configs, nothing changes. Otherwise every listed property is at its initial value, the others are unchanged, the flag is false and opacity shows 0. |
| `CombinedAnimation.Animator.ShowComponent` | src/hooks/useCombinedAnimation.ts:200-206 | Without configs, nothing changes. Otherwise every listed property is at its final value, the flag is true, and the element shows opacity 1 at its radius and angle. |
| `FadeAnimation.Animation.constructor` | src/hooks/useAnimation.ts:18-24 | The exit config defaults to the entry config and `initialValue` to 0. The held value starts there with nothing running. |
| `FadeAnimation.Animation.Cleanup` | src/hooks/useAnimation.ts:67-70 | Both transitions stop, and the value stays where it is. |
| `FadeAnimation.Animation.EntryAnimation` | src/hooks/useAnimation.ts:29-37 | It targets 1 with the native driver and spreads the exit config. |
| `FadeAnimation.Animation.ExitAnimation` | src/hooks/useAnimation.ts:42-50 | It targets 0 with the native driver and spreads the entry config. |
| `FadeAnimation.Animation.Render` | src/hooks/useAnimation.ts:56-71 | An unchanged flag does nothing. A changed flag resets the value to 0 (show) or 1 (hide), whatever `initialValue` was, and runs only the matching transition. |
| `FadeAnimation.Animation.Finish` | src/hooks/useAnimation.ts:56-70 | On completion the value reaches the target: 1 after a show, 0 after a hide. |
| `FadeAnimation.SpecBuilders` | src/hooks/useAnimation.ts:29-50 | Entry targets 1 and exit targets 0, both with the native driver. Entry uses the exit config and exit the entry config, and the two coincide when the exit config is defaulted. |
| `LinearAnimation.Animation.constructor` | src/hooks/useLinearAnimation.ts:21-28 | The held XY value starts at `initialValue`, and the exit config defaults to the entry config. |
| `LinearAnimation.Animation.Cleanup` | src/hooks/useLinearAnimation.ts:71-74 | Both transitions stop, and the value stays where it is. |
| `LinearAnimation.Animation.EntryAnimation` | src/hooks/useLinearAnimation.ts:33-41 | It targets the first render's `finalValue` with the native driver and the entry config. |
| `LinearAnimation.Animation.ExitAnimation` | src/hooks/useLinearAnimation.ts:46-54 | It targets the first render's `initialValue` with the native driver and the exit config. |
| `LinearAnimation.Animation.Render` | src/hooks/useLinearAnimation.ts:60-75 | An unchanged flag does nothing. A changed flag resets the value to the current render's `initialValue` (show) or `finalValue` (hide) and runs only the matching transition, built from the first render's props. |
| `LinearAnimation.Animation.Finish` | src/hooks/useLinearAnimation.ts:60-70 | On completion a show ends at `finalValue` and a hide at `initialValue`. |
| `LinearAnimation.SpecBuilders` | src/hooks/useLinearAnimation.ts:33-54 | Entry goes to `finalValue` with the entry config, and exit to `initialValue` with the exit config (the entry config by default). Both use the native driver. |

## Left out

- Trigonometry: `pointOnCircle` (src/utils/circle.ts), the x/y part of
  `point` in src/index.tsx and `Animated.multiply`. These are cosine and
  sine on floating point. The model keeps angles and radii, and a
  translation is stated only as the negation of a given position.
- Floating point in general. All arithmetic is on `real`, so rounding,
  infinities and NaN are not modelled. A division by a zero `totalPoints` is
  the explicit `None` case.
- `Animated` library behaviour:
  - interpolation of the sampled table, with its extrapolation;
  - easing, durations and frame timing of `Animated.timing`.

  A transition is its target and its delay only.
- Scheduling and concurrency. A parallel run followed by its completion
  callback is one atomic step (`Settle` then the flag flip), so a hide
  interrupted by a show is not modelled.
- An empty `Animated.parallel([])` completing at once. The model relies on
  this library behaviour: a component without configs still flips its flag.
- Sequential combination (`AnimationCombinationType.SEQUENCE`,
  `animationGap` in src/types.ts). No code of the core uses it.
- The parameterised `withFunction` with `startValue`/`endValue`/
  `totalIterations` and its negative-iterations error, which the tests
  exercise. That variant is not part of this model.
- The callback of `withFunction` is a total function on reals. A callback
  that throws is not modelled.
- The object-argument `useAnimation` that src/CircleLayoutComponent.tsx and
  src/hooks/useCombinedAnimation.ts call, which returns `value`,
  `entryAnimation` and `exitAnimation`. Its source is not part of this
  model; it is modelled in `Transitions` from its call sites: the value
  starts at `initialValue`, entry runs to `finalValue` and exit back to
  `initialValue`. The positional src/hooks/useAnimation.ts is modelled
  separately, as written.
- The broken prop wiring between src/CircleLayout.tsx and its elements.
  The layout passes each element only its component, index, key, angle and
  ref (src/CircleLayout.tsx:73-81). It puts `totalPoints`, the radius, the
  start angle and the three configs in a context value
  (src/CircleLayout.tsx:48-65). The element takes all of these from its
  props (src/CircleLayoutComponent.tsx:21-31) and never reads the context.
  As written, every element therefore gets them undefined: nothing is
  animated and every exit delay is NaN. The model follows the element's
  own props contract instead and supplies these values in `Element`
  (`Layout.ElementFor`).
- `Layout.CircleLayout.ComponentsVisible`: the handle's
  `componentsVisible` is computed in the `useImperativeHandle` factory,
  which has no dependency list and runs on each render of the layout. The
  value a caller reads is the one from the layout's last render, not the
  one right after a hide or show. The model states the value the next
  render of the layout reports.
- `FadeAnimation.Animation.Render`, `LinearAnimation.Animation.Render`: the
  transition builders are memoised with an empty dependency list, so they
  keep the first render's configs (and, for the linear hook, the first
  render's targets). These are the class's constants. A later change of a
  config prop has no effect in the program either. The fade hook's reset
  values are the literals 0 and 1. The linear hook's reset uses the props
  of the render that changed the flag, which `Render` takes as parameters.
- Rendering, styles, JSX, keys other than the index, and the centre
  component.
- `CombinedAnimation.Animator.constructor` requires the lists to build. A
  throw in the `default` branch happens during render, so no controller
  exists then. The throw itself is the `Thrown` outcome of
  `CombinedAnimation.AnimationList`.
- Arc rule. The sweep test follows the program: a sweep of 0 is falsy and
  counts as a full circle. One element on a partial sweep gives a NaN
  angle (`None` here); the program clamps nothing there.
- `Layout.CircleLayout.HideComponents`, `ShowComponents`: an element that
  occupies two slots is hidden or shown twice, which is harmless because
  both operations are idempotent at rest. The model states the end state,
  not the number of calls.

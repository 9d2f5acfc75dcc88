/**
 * src/index.tsx: the earlier, animation-free layout. Its props are
 * completed by `defaultProps` (start angle 0, a full-circle sweep), and it
 * renders every element once, in index order, at the angle given by the
 * shared arc rule. The x/y part of `point` (cosine and sine) is not
 * modelled.
 */
module LegacyLayout {
  import opened Types
  import Arc

  /** The props that matter to placement; `None` is an omitted prop. */
  datatype Props = Props(count: nat, radius: real, startAngle: Option<real>, sweepAngle: Option<real>)

  /** The props after `defaultProps` has filled in what was omitted. */
  datatype Resolved = Resolved(count: nat, radius: real, startAngle: real, sweepAngle: real)

  /** One rendered element: its key (the index) and the angle `point` uses. */
  datatype Placement = Placement(index: nat, radians: Option<real>)

  /** `CircleLayout.defaultProps = { startAngle: 0, sweepAngle: 2 * Math.PI }`. */
  function WithDefaults(props: Props): (r: Resolved)
    ensures r.count == props.count && r.radius == props.radius
    ensures props.startAngle.None? ==> r.startAngle == 0.0
    ensures props.sweepAngle.None? ==> r.sweepAngle == TwoPi
    ensures props.startAngle.Some? ==> r.startAngle == props.startAngle.value
    ensures props.sweepAngle.Some? ==> r.sweepAngle == props.sweepAngle.value
  {
    Resolved(props.count, props.radius, props.startAngle.GetOr(0.0), props.sweepAngle.GetOr(TwoPi))
  }

  /** The placements `components.map` yields, recursively from the first `n`. */
  function Placements(r: Resolved, n: nat): (ps: seq<Placement>)
    requires n <= r.count
    ensures |ps| == n
    ensures forall i | 0 <= i < n :: ps[i].index == i
    ensures forall i | 0 <= i < n ::
      ps[i].radians == Arc.Radians(r.startAngle, r.sweepAngle, i, Arc.TotalPoints(r.count, r.sweepAngle))
  {
    if n == 0 then []
    else Placements(r, n - 1) + [Placement(n - 1, Arc.Radians(r.startAngle, r.sweepAngle, n - 1, Arc.TotalPoints(r.count, r.sweepAngle)))]
  }

  /** What the component renders for its props, after defaults. */
  function Render(props: Props): (ps: seq<Placement>)
    ensures |ps| == props.count
  {
    var r := WithDefaults(props);
    Placements(r, r.count)
  }

  /** Every index is rendered exactly once, in order. */
  lemma RenderEachIndexOnce(props: Props)
    ensures forall k: nat :: k in RenderedIndices(props) <==> k < props.count
    ensures forall i, j | 0 <= i < j < props.count :: Render(props)[i].index < Render(props)[j].index
  {
    var ps := Render(props);
    forall k: nat | k < props.count ensures k in RenderedIndices(props) {
      assert ps[k] in ps;
    }
  }

  /** The keys of the rendered elements. */
  function RenderedIndices(props: Props): set<nat> {
    set p | p in Render(props) :: p.index
  }

  /**
   * With both angles left to their defaults the elements divide the full
   * circle into `count` equal parts: element i sits at `2π · i / count`,
   * every angle is defined and below one full turn.
   */
  lemma DefaultsSpreadFullCircle(count: nat, radius: real, i: nat)
    requires i < count
    ensures var r := WithDefaults(Props(count, radius, None, None));
      Arc.TotalPoints(r.count, r.sweepAngle) == count
    ensures Render(Props(count, radius, None, None))[i].radians == Some(TwoPi * (i as real / count as real))
    ensures 0.0 <= Render(Props(count, radius, None, None))[i].radians.value < TwoPi
  {
    Arc.FullCircleStaysBelowTurn(count, 0.0, i);
  }

  /** With the default sweep the container is always twice the radius tall. */
  lemma DefaultMinHeight(props: Props)
    requires props.sweepAngle.None?
    ensures Arc.MinHeight(WithDefaults(props).sweepAngle, props.radius) == 2.0 * props.radius
  {
  }
}

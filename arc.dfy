/**
 * The arc arithmetic of src/CircleLayout.tsx and src/index.tsx: how many
 * parts the sweep is divided into, the angle of each element, and the
 * container's minimum height. Both files use the same rule, so it is
 * defined once here.
 */
module Arc {
  import opened Types

  /**
   * `sweepAngle && sweepAngle !== 2 * Math.PI`: a sweep of 0 is falsy
   * and counts as a full circle.
   */
  predicate PartialSweep(sweepAngle: real) {
    sweepAngle != 0.0 && sweepAngle != TwoPi
  }

  /**
   * `totalPoints`: one part fewer than there are elements for a partial
   * sweep (so the last element lands at the end of the arc), as many as
   * there are elements otherwise (so the last does not land on the first).
   */
  function TotalPoints(count: nat, sweepAngle: real): (t: int)
    ensures PartialSweep(sweepAngle) ==> t == count - 1
    ensures !PartialSweep(sweepAngle) ==> t == count
  {
    if PartialSweep(sweepAngle) then count - 1 else count
  }

  /**
   * `startAngle + sweepAngle * (index / totalPoints)`. A zero
   * `totalPoints` makes JavaScript produce NaN (or an infinity); that case
   * is `None` here.
   */
  function Radians(startAngle: real, sweepAngle: real, index: nat, totalPoints: int): (r: Option<real>)
    ensures r.None? <==> totalPoints == 0
  {
    if totalPoints == 0 then None
    else Some(startAngle + sweepAngle * (index as real / totalPoints as real))
  }

  /** The angle of every element, in index order. */
  function Angles(count: nat, startAngle: real, sweepAngle: real): (angles: seq<Option<real>>)
    ensures |angles| == count
    ensures forall i | 0 <= i < count :: angles[i] == Radians(startAngle, sweepAngle, i, TotalPoints(count, sweepAngle))
  {
    seq(count, i requires 0 <= i => Radians(startAngle, sweepAngle, i, TotalPoints(count, sweepAngle)))
  }

  /** `sweepAngle >= Math.PI ? 2 * radius : radius`. */
  function MinHeight(sweepAngle: real, radius: real): (h: real)
    ensures radius >= 0.0 ==> radius <= h <= 2.0 * radius
    ensures sweepAngle >= TwoPi ==> h == 2.0 * radius
    ensures sweepAngle <= 0.0 ==> h == radius
  {
    if sweepAngle >= Pi then 2.0 * radius else radius
  }

  /** The only degenerate layout is one element on a partial sweep. */
  lemma DegenerateExactly(count: nat, sweepAngle: real)
    requires count >= 1
    ensures TotalPoints(count, sweepAngle) == 0 <==> count == 1 && PartialSweep(sweepAngle)
    ensures count == 1 && PartialSweep(sweepAngle) ==> Radians(0.0, sweepAngle, 0, TotalPoints(count, sweepAngle)).None?
  {
  }

  /** Every angle is defined unless the layout is degenerate. */
  lemma AnglesDefined(count: nat, startAngle: real, sweepAngle: real)
    requires !(count == 1 && PartialSweep(sweepAngle))
    ensures forall i | 0 <= i < count :: Angles(count, startAngle, sweepAngle)[i].Some?
  {
  }

  /** The element at index 0 sits at `startAngle`. */
  lemma FirstAngleIsStart(count: nat, startAngle: real, sweepAngle: real)
    requires count >= 1 && !(count == 1 && PartialSweep(sweepAngle))
    ensures Angles(count, startAngle, sweepAngle)[0] == Some(startAngle)
  {
  }

  /** Consecutive elements are exactly `sweepAngle / totalPoints` apart. */
  lemma ConsecutiveAngles(count: nat, startAngle: real, sweepAngle: real, i: nat)
    requires i + 1 < count
    ensures var t := TotalPoints(count, sweepAngle);
      t > 0 &&
      Angles(count, startAngle, sweepAngle)[i + 1].value - Angles(count, startAngle, sweepAngle)[i].value
        == sweepAngle / t as real
  {
    var t := TotalPoints(count, sweepAngle);
    var tr := t as real;
    assert tr > 0.0;
    calc {
      sweepAngle * ((i + 1) as real / tr) - sweepAngle * (i as real / tr);
      sweepAngle * ((i + 1) as real / tr - i as real / tr);
      { assert (i + 1) as real / tr - i as real / tr == 1.0 / tr; }
      sweepAngle * (1.0 / tr);
      sweepAngle / tr;
    }
  }

  /** On a partial sweep with two or more elements the last one ends the arc. */
  lemma PartialSweepEndsAtSweep(count: nat, startAngle: real, sweepAngle: real)
    requires count >= 2 && PartialSweep(sweepAngle)
    ensures Angles(count, startAngle, sweepAngle)[count - 1] == Some(startAngle + sweepAngle)
  {
    var t := (count - 1) as real;
    assert (count - 1) as real / t == 1.0;
  }

  /**
   * On a full circle the elements stay in `[startAngle, startAngle + 2π)`:
   * none lands back on the first.
   */
  lemma FullCircleStaysBelowTurn(count: nat, startAngle: real, i: nat)
    requires i < count
    ensures Angles(count, startAngle, TwoPi)[i].Some?
    ensures startAngle <= Angles(count, startAngle, TwoPi)[i].value < startAngle + TwoPi
  {
    var n := count as real;
    var q := i as real / n;
    assert 0.0 <= q < 1.0 by {
      assert q * n == i as real;
    }
    assert TwoPi * q < TwoPi;
    assert 0.0 <= TwoPi * q;
  }

  /** The container is twice the radius tall exactly when the sweep reaches π. */
  lemma MinHeightDoubleIff(sweepAngle: real, radius: real)
    requires radius > 0.0
    ensures MinHeight(sweepAngle, radius) == 2.0 * radius <==> sweepAngle >= Pi
    ensures MinHeight(sweepAngle, radius) == radius <==> sweepAngle < Pi
  {
  }
}

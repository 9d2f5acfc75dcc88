/**
 * The sampling table of src/utils/animation.ts: `withFunction` walks 51
 * evenly spaced inputs on [0, 1] and records the callback's value at
 * each; `interpolationWithFunction` hands that table to the library's
 * interpolation, which is not modelled.
 */
module Sampling {

  /** The number of steps the unit interval is cut into. */
  const Steps: nat := 50

  /** The pair of parallel arrays handed to `interpolate`. */
  datatype Table = Table(inputRange: seq<real>, outputRange: seq<real>)

  /** The i-th sample point, `i / steps`. */
  function SamplePoint(i: int): real {
    i as real / Steps as real
  }

  /** The table `withFunction` is meant to build, stated point by point. */
  function SampleTable(callback: real -> real): (t: Table)
    ensures |t.inputRange| == |t.outputRange| == Steps + 1
    ensures forall i | 0 <= i <= Steps :: t.inputRange[i] == SamplePoint(i)
    ensures forall i | 0 <= i <= Steps :: t.outputRange[i] == callback(t.inputRange[i])
  {
    Table(seq(Steps + 1, i => SamplePoint(i)), seq(Steps + 1, i => callback(SamplePoint(i))))
  }

  /**
   * `withFunction`: the loop pushes one input and one output per step,
   * for i = 0 up to and including `steps`.
   */
  method WithFunction(callback: real -> real) returns (inputRange: seq<real>, outputRange: seq<real>)
    ensures |inputRange| == Steps + 1 && |outputRange| == Steps + 1
    ensures forall i | 0 <= i <= Steps :: inputRange[i] == i as real / 50.0
    ensures forall i | 0 <= i <= Steps :: outputRange[i] == callback(inputRange[i])
    ensures Table(inputRange, outputRange) == SampleTable(callback)
  {
    inputRange := [];
    outputRange := [];
    var i := 0;
    while i <= Steps
      invariant 0 <= i <= Steps + 1
      invariant |inputRange| == i && |outputRange| == i
      invariant forall j | 0 <= j < i :: inputRange[j] == SamplePoint(j)
      invariant forall j | 0 <= j < i :: outputRange[j] == callback(SamplePoint(j))
    {
      var key := i as real / Steps as real;
      inputRange := inputRange + [key];
      outputRange := outputRange + [callback(key)];
      i := i + 1;
    }
    assert inputRange == SampleTable(callback).inputRange;
    assert outputRange == SampleTable(callback).outputRange;
  }

  /**
   * `interpolationWithFunction`, as far as it is modelled: it builds the
   * table and passes it on unchanged. The interpolation itself
   * (`Animated.Value.interpolate`) is library behaviour.
   */
  method InterpolationWithFunction(callback: real -> real) returns (config: Table)
    ensures |config.inputRange| == |config.outputRange| == Steps + 1
    ensures config == SampleTable(callback)
  {
    var inputRange, outputRange := WithFunction(callback);
    config := Table(inputRange, outputRange);
  }

  /** The inputs start at 0, end at 1 and strictly ascend. */
  lemma InputRangeAscends(callback: real -> real)
    ensures SampleTable(callback).inputRange[0] == 0.0
    ensures SampleTable(callback).inputRange[Steps] == 1.0
    ensures forall i, j | 0 <= i < j <= Steps ::
      SampleTable(callback).inputRange[i] < SampleTable(callback).inputRange[j]
  {
    var t := SampleTable(callback);
    forall i, j | 0 <= i < j <= Steps ensures t.inputRange[i] < t.inputRange[j] {
      assert t.inputRange[i] == i as real / 50.0;
      assert t.inputRange[j] == j as real / 50.0;
    }
  }

  /** Consecutive inputs are exactly one step, 1/50, apart. */
  lemma InputRangeEvenlySpaced(callback: real -> real, i: nat)
    requires i < Steps
    ensures SampleTable(callback).inputRange[i + 1] - SampleTable(callback).inputRange[i] == 1.0 / 50.0
  {
  }

  /**
   * With the doubling callback every output is `i / 25` and the last
   * output is 2.
   */
  lemma DoublingTable(double: real -> real)
    requires forall v :: double(v) == 2.0 * v
    ensures forall i | 0 <= i <= Steps :: SampleTable(double).outputRange[i] == i as real / 25.0
    ensures SampleTable(double).outputRange[Steps] == 2.0
  {
    var t := SampleTable(double);
    forall i | 0 <= i <= Steps ensures t.outputRange[i] == i as real / 25.0 {
      assert t.outputRange[i] == 2.0 * (i as real / 50.0);
    }
  }
}

/** `_linspace`: `num` evenly spaced points from `start` towards `stop`, including
    `stop` itself when `endpoint` is set. Doubles are modelled as reals. */
module NpyUtils {
  import opened CInt

  /** The number of steps the interval is divided into. */
  function Section(num: int, endpoint: bool): int
  {
    if endpoint then num - 1 else num
  }

  /** The loop divides by `Section` whenever it runs at least once. The only input
      for which that divisor is zero is `endpoint` with `num == 1`, where the
      double computation is `0.0 / 0` (not a number); the model leaves it out. */
  predicate Defined(num: int, endpoint: bool)
  {
    !(endpoint && num == 1)
  }

  /** Point `i` as the loop computes it: `start + i*(stop - start)/section`. */
  function Point(start: real, stop: real, section: int, i: nat): real
    requires section != 0
  {
    start + (i as real) * (stop - start) / (section as real)
  }

  /** The grid `_linspace` returns. */
  function Grid(start: real, stop: real, num: int, endpoint: bool): (r: seq<real>)
    requires Defined(num, endpoint)
  {
    if num <= 0 then []
    else seq(num, i requires 0 <= i < num => Point(start, stop, Section(num, endpoint), i))
  }

  /** The step between consecutive points. */
  function Step(start: real, stop: real, num: int, endpoint: bool): real
    requires Defined(num, endpoint) && num >= 1
  {
    (stop - start) / (Section(num, endpoint) as real)
  }

  /** `_linspace`, as the counted loop that pushes one point per iteration. */
  method Linspace(start: real, stop: real, num: int, endpoint: bool) returns (result: seq<real>)
    requires Defined(num, endpoint)
    ensures |result| == Count(num)
    ensures num <= 0 ==> result == []
    ensures forall i :: 0 <= i < |result| ==> result[i] == Point(start, stop, Section(num, endpoint), i)
    ensures result == Grid(start, stop, num, endpoint)
  {
    var section := if endpoint then num - 1 else num;
    result := [];
    var i := 0;
    while i < num
      invariant 0 <= i <= Count(num)
      invariant num >= 1 ==> section != 0
      invariant |result| == i
      invariant forall k :: 0 <= k < i ==> result[k] == Point(start, stop, section, k)
    {
      var x := start + (i as real) * (stop - start) / (section as real);
      assert x == Point(start, stop, section, i);
      result := result + [x];
      i := i + 1;
    }
  }

  /** The grid has `num` points (none for `num <= 0`), and the first is `start`. */
  lemma GridShape(start: real, stop: real, num: int, endpoint: bool)
    requires Defined(num, endpoint)
    ensures |Grid(start, stop, num, endpoint)| == Count(num)
    ensures num >= 1 ==> Grid(start, stop, num, endpoint)[0] == start
  {
  }

  /** With the endpoint and at least two points, the last point is `stop` exactly. */
  lemma GridEndsAtStop(start: real, stop: real, num: int)
    requires num >= 2
    ensures Grid(start, stop, num, true)[num - 1] == stop
  {
    var n := (num - 1) as real;
    assert n != 0.0;
    assert n * (stop - start) / n == stop - start;
  }

  /** Point `i` lies `i` steps from `start`. */
  lemma PointIsSteps(start: real, stop: real, num: int, endpoint: bool, i: nat)
    requires Defined(num, endpoint) && num >= 1 && i < num
    ensures Grid(start, stop, num, endpoint)[i] == start + (i as real) * Step(start, stop, num, endpoint)
  {
    var d := (stop - start) / (Section(num, endpoint) as real);
    assert (i as real) * (stop - start) / (Section(num, endpoint) as real) == (i as real) * d;
  }

  /** Every consecutive difference is the step `(stop - start) / section`. */
  lemma GridSteps(start: real, stop: real, num: int, endpoint: bool, i: nat)
    requires Defined(num, endpoint) && i + 1 < num
    ensures Grid(start, stop, num, endpoint)[i + 1] - Grid(start, stop, num, endpoint)[i] == Step(start, stop, num, endpoint)
  {
    PointIsSteps(start, stop, num, endpoint, i);
    PointIsSteps(start, stop, num, endpoint, i + 1);
    var d := Step(start, stop, num, endpoint);
    assert ((i + 1) as real) * d == (i as real) * d + d;
  }

  /** An increasing interval gives a strictly increasing grid. */
  lemma GridIncreasing(start: real, stop: real, num: int, endpoint: bool, i: nat, j: nat)
    requires Defined(num, endpoint) && stop > start
    requires i < j < num
    ensures Grid(start, stop, num, endpoint)[i] < Grid(start, stop, num, endpoint)[j]
  {
    PointIsSteps(start, stop, num, endpoint, i);
    PointIsSteps(start, stop, num, endpoint, j);
    StepPositive(start, stop, num, endpoint);
    StepsOrder(Grid(start, stop, num, endpoint)[i], Grid(start, stop, num, endpoint)[j],
               start, Step(start, stop, num, endpoint), i as real, j as real);
  }

  /** An increasing interval has a positive step. */
  lemma StepPositive(start: real, stop: real, num: int, endpoint: bool)
    requires Defined(num, endpoint) && num >= 1 && stop > start
    ensures Step(start, stop, num, endpoint) > 0.0
  {
    assert Section(num, endpoint) >= 1;
  }

  /** More positive steps end further along. */
  lemma StepsOrder(x: real, y: real, s: real, d: real, a: real, b: real)
    requires x == s + a * d && y == s + b * d
    requires d > 0.0 && a < b
    ensures x < y
  {
    assert b * d - a * d == (b - a) * d;
  }

  /** Without the endpoint an increasing grid stays strictly below `stop`; with it,
      it never passes `stop`. */
  lemma GridBelowStop(start: real, stop: real, num: int, endpoint: bool, i: nat)
    requires Defined(num, endpoint) && stop > start
    requires i < num
    ensures !endpoint ==> Grid(start, stop, num, endpoint)[i] < stop
    ensures endpoint ==> Grid(start, stop, num, endpoint)[i] <= stop
  {
    PointIsSteps(start, stop, num, endpoint, i);
    var d := Step(start, stop, num, endpoint);
    var sec := Section(num, endpoint);
    assert sec >= 1;
    assert (sec as real) * d == stop - start;
    assert i <= sec;
    assert (sec as real) * d - (i as real) * d == ((sec - i) as real) * d >= 0.0;
    if !endpoint {
      assert i < sec;
      assert ((sec - i) as real) * d > 0.0;
    }
  }

  /** `linspace(0, 10, 5, endpoint)` is `[0, 2.5, 5, 7.5, 10]`. */
  lemma GridExample()
    ensures Grid(0.0, 10.0, 5, true) == [0.0, 2.5, 5.0, 7.5, 10.0]
  {
  }
}

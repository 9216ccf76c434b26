/**
  Exact arithmetic over `real`: finite sums, minima, and rounding to a grid of
  multiples of a positive step.
 */
module Reals {

  type Positive = x: real | x > 0.0 witness 1.0
  type NonNegative = x: real | x >= 0.0 witness 0.0

  function Max(a: real, b: real): real { if a < b then b else a }

  function Min(a: real, b: real): real { if b < a then b else a }

  // ----- Sums

  function Sum(xs: seq<real>): real {
    if |xs| == 0 then 0.0 else Sum(xs[..|xs| - 1]) + xs[|xs| - 1]
  }

  lemma SumStep(xs: seq<real>, i: nat)
    requires i < |xs|
    ensures Sum(xs[..i + 1]) == Sum(xs[..i]) + xs[i]
  {
    assert xs[..i + 1][..i] == xs[..i];
  }

  lemma {:induction false} SumMonotone(xs: seq<real>, ys: seq<real>)
    requires |xs| == |ys|
    requires forall i :: 0 <= i < |xs| ==> xs[i] <= ys[i]
    ensures Sum(xs) <= Sum(ys)
  {
    if |xs| > 0 {
      SumMonotone(xs[..|xs| - 1], ys[..|ys| - 1]);
    }
  }

  /** One strictly larger term makes the whole sum strictly larger. */
  lemma {:induction false} SumStrict(xs: seq<real>, ys: seq<real>, k: nat)
    requires |xs| == |ys| && k < |xs|
    requires forall i :: 0 <= i < |xs| ==> xs[i] <= ys[i]
    requires xs[k] < ys[k]
    ensures Sum(xs) < Sum(ys)
  {
    var n := |xs| - 1;
    if k == n {
      SumMonotone(xs[..n], ys[..n]);
    } else {
      SumStrict(xs[..n], ys[..n], k);
    }
  }

  lemma {:induction false} SumLinear(xs: seq<real>, factor: real, ys: seq<real>, zs: seq<real>)
    requires |xs| == |ys| == |zs|
    requires forall i :: 0 <= i < |xs| ==> zs[i] == factor * xs[i] + ys[i]
    ensures Sum(zs) == factor * Sum(xs) + Sum(ys)
  {
    if |xs| > 0 {
      var n := |xs| - 1;
      SumLinear(xs[..n], factor, ys[..n], zs[..n]);
    }
  }

  lemma {:induction false} SumAdd(xs: seq<real>, ys: seq<real>, zs: seq<real>)
    requires |xs| == |ys| == |zs|
    requires forall i :: 0 <= i < |xs| ==> zs[i] == xs[i] + ys[i]
    ensures Sum(zs) == Sum(xs) + Sum(ys)
  {
    if |xs| > 0 {
      var n := |xs| - 1;
      SumAdd(xs[..n], ys[..n], zs[..n]);
    }
  }

  lemma {:induction false} SumNonNegative(xs: seq<real>)
    requires forall i :: 0 <= i < |xs| ==> xs[i] >= 0.0
    ensures Sum(xs) >= 0.0
  {
    if |xs| > 0 {
      SumNonNegative(xs[..|xs| - 1]);
    }
  }

  // ----- Least element

  function MinOf(xs: seq<real>): real
    requires |xs| > 0
  {
    if |xs| == 1 then xs[0] else Min(MinOf(xs[..|xs| - 1]), xs[|xs| - 1])
  }

  lemma MinOfStep(xs: seq<real>, i: nat)
    requires 0 < i < |xs|
    ensures MinOf(xs[..i + 1]) == Min(MinOf(xs[..i]), xs[i])
  {
    assert xs[..i + 1][..i] == xs[..i];
  }

  lemma {:induction false} MinOfIsLeast(xs: seq<real>, m: real)
    requires |xs| > 0
    ensures m <= MinOf(xs) <==> forall i :: 0 <= i < |xs| ==> m <= xs[i]
    ensures exists i :: 0 <= i < |xs| && xs[i] == MinOf(xs)
  {
    if |xs| == 1 {
      assert xs[0] == MinOf(xs);
    } else {
      var ys := xs[..|xs| - 1];
      MinOfIsLeast(ys, m);
      assert forall i :: 0 <= i < |ys| ==> xs[i] == ys[i];
      if MinOf(xs) == MinOf(ys) {
        var i :| 0 <= i < |ys| && ys[i] == MinOf(ys);
        assert xs[i] == MinOf(xs);
      } else {
        assert xs[|xs| - 1] == MinOf(xs);
      }
    }
  }

  // ----- Division by a positive number

  lemma DivideCompare(total: real, divisor: real, x: real)
    requires divisor > 0.0
    ensures x >= total / divisor <==> x * divisor >= total
    ensures x > total / divisor <==> x * divisor > total
  {
    var d := total / divisor;
    assert d * divisor == total;
    if x >= d {
      assert (x - d) * divisor >= 0.0;
    }
    if x > d {
      assert (x - d) * divisor > 0.0;
    } else {
      assert (d - x) * divisor >= 0.0;
    }
    if x < d {
      assert (d - x) * divisor > 0.0;
    }
  }

  lemma QuotientMonotone(low: real, high: real, divisor: real)
    requires divisor > 0.0
    ensures low < high ==> low / divisor < high / divisor
    ensures low <= high ==> low / divisor <= high / divisor
  {
    DivideCompare(low, divisor, high / divisor);
  }

  lemma ScaleCompare(x: real, y: real, factor: real)
    requires factor > 0.0
    ensures x < y <==> x * factor < y * factor
    ensures x <= y <==> x * factor <= y * factor
  {
    if x < y {
      assert (y - x) * factor > 0.0;
    } else if y < x {
      assert (x - y) * factor > 0.0;
    }
  }

  // ----- Rounding to multiples of a step

  function GridPoint(units: int, step: real): real { units as real * step }

  ghost predicate OnGrid(value: real, step: real) {
    exists units: int :: value == GridPoint(units, step)
  }

  /** The greatest multiple of `step` that is at most `value`. */
  function FloorToGrid(value: real, step: Positive): (r: real)
    ensures OnGrid(r, step)
    ensures r <= value < r + step
  {
    var units := (value / step).Floor;
    assert units as real <= value / step < units as real + 1.0;
    DivideCompare(value, step, units as real);
    DivideCompare(value, step, units as real + 1.0);
    GridPoint(units, step)
  }

  /** The least multiple of `step` that is at least `value`. */
  function CeilToGrid(value: real, step: Positive): (r: real)
    ensures OnGrid(r, step)
    ensures r - step < value <= r
  {
    var units := -((-(value / step)).Floor);
    assert units as real - 1.0 < value / step <= units as real;
    DivideCompare(value, step, units as real);
    DivideCompare(value, step, units as real - 1.0);
    GridPoint(units, step)
  }

  /** Two multiples of a step are equal or at least one step apart. */
  lemma GridGap(a: real, b: real, step: Positive)
    requires OnGrid(a, step) && OnGrid(b, step) && a < b
    ensures a + step <= b
  {
    var i: int :| a == GridPoint(i, step);
    var j: int :| b == GridPoint(j, step);
    ScaleCompare(i as real, j as real, step);
    assert i + 1 <= j;
    ScaleCompare((i + 1) as real, j as real, step);
  }

  lemma FloorIsGreatest(value: real, step: Positive, g: real)
    requires OnGrid(g, step)
    ensures g <= FloorToGrid(value, step) <==> g <= value
  {
    var r := FloorToGrid(value, step);
    if r < g {
      GridGap(r, g, step);
    }
  }

  lemma CeilIsLeast(value: real, step: Positive, g: real)
    requires OnGrid(g, step)
    ensures CeilToGrid(value, step) <= g <==> value <= g
  {
    var r := CeilToGrid(value, step);
    if g < r {
      GridGap(g, r, step);
    }
  }

  lemma GridShift(value: real, step: Positive)
    requires OnGrid(value, step)
    ensures OnGrid(value - step, step)
  {
    var k: int :| value == GridPoint(k, step);
    assert value - step == GridPoint(k - 1, step);
  }

  lemma StepOnGrid(step: real)
    ensures OnGrid(step, step)
  {
    assert step == GridPoint(1, step);
  }
}

/**
 * Prices reachable from a base price by whole rounds of an auto-increment.
 * A bid's starting bid, its winning price and its maximum potential bid all
 * live on the "grid" base + k * step (k a natural number).
 */
module Increments {

  /** The price reached after `k` rounds of `step` starting from `base`. */
  function Step(base: real, step: real, k: nat): real {
    base + k as real * step
  }

  /** `x` is reachable from `base` in a whole, non-negative number of increments. */
  ghost predicate OnGrid(x: real, base: real, step: real) {
    exists k: nat :: x == Step(base, step, k)
  }

  lemma MulMonotone(a: real, b: real, c: real)
    requires a <= b && 0.0 <= c
    ensures a * c <= b * c
  {
    assert b * c - a * c == (b - a) * c;
  }

  lemma MulStrict(a: real, b: real, c: real)
    requires a < b && 0.0 < c
    ensures a * c < b * c
  {
    assert b * c - a * c == (b - a) * c;
  }

  lemma GridBase(base: real, step: real)
    ensures OnGrid(base, base, step)
  {
    assert base == Step(base, step, 0);
  }

  /** Adding `j` more rounds stays on the grid. */
  lemma GridAdvance(x: real, base: real, step: real, j: nat)
    requires OnGrid(x, base, step)
    ensures OnGrid(x + j as real * step, base, step)
  {
    var k: nat :| x == Step(base, step, k);
    assert x + j as real * step == Step(base, step, k + j);
  }

  /** A grid that starts on a grid point is part of that grid. */
  lemma GridRebase(x: real, mid: real, base: real, step: real)
    requires OnGrid(mid, base, step) && OnGrid(x, mid, step)
    ensures OnGrid(x, base, step)
  {
    var j: nat :| x == Step(mid, step, j);
    GridAdvance(mid, base, step, j);
  }

  /** With a zero step the only grid point is the base itself. */
  lemma GridZeroStep(x: real, base: real)
    requires OnGrid(x, base, 0.0)
    ensures x == base
  {
    var k: nat :| x == Step(base, 0.0, k);
  }

  /** The distance between two grid points is a whole number of steps. */
  lemma StepDifference(base: real, step: real, i: nat, j: nat)
    ensures Step(base, step, j) - Step(base, step, i) == (j - i) as real * step
  {
    calc {
      Step(base, step, j) - Step(base, step, i);
      j as real * step - i as real * step;
      (j as real - i as real) * step;
      (j - i) as real * step;
    }
  }

  /** With a positive step no grid point lies strictly within one step of another. */
  lemma {:induction false} GridGap(x: real, y: real, base: real, step: real)
    requires 0.0 < step
    requires OnGrid(x, base, step) && OnGrid(y, base, step)
    requires x < y
    ensures x + step <= y
  {
    var kx: nat :| x == Step(base, step, kx);
    var ky: nat :| y == Step(base, step, ky);
    StepDifference(base, step, kx, ky);
    var d := ky - kx;
    if d <= 0 {
      MulMonotone(d as real, 0.0, step);
      assert false;
    }
    MulMonotone(1.0, d as real, step);
    calc {
      x + step;
      x + 1.0 * step;
    <= x + d as real * step;
      Step(base, step, kx) + (ky - kx) as real * step;
      Step(base, step, ky);
      y;
    }
  }
}

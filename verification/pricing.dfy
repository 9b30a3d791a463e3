/**
 * The resolver's price arithmetic: the fast dominance test, a bid's maximum
 * potential bid (a floor division) and the relative winning price (a
 * ceiling division). BigDecimal division to scale 0 with rounding DOWN or
 * UP is, on the positive operands these helpers divide, the floor or the
 * ceiling of the exact quotient.
 */
module Pricing {
  import opened Wrappers
  import opened Increments
  import opened BidModel

  /** BigDecimal division by a zero increment throws ArithmeticException. */
  datatype ArithmeticError = DivisionByZero

  /** BigDecimal.compareTo: -1, 0 or 1. */
  function CompareTo(a: real, b: real): (r: int)
    ensures -1 <= r <= 1
    ensures r < 0 <==> a < b
    ensures r == 0 <==> a == b
  {
    if a < b then -1 else if a == b then 0 else 1
  }

  /** The least integer not below x (RoundingMode.UP on a positive quotient). */
  function Ceiling(x: real): (n: int)
    ensures x <= n as real < x + 1.0
  {
    if x.Floor as real == x then x.Floor else x.Floor + 1
  }

  /**
   * Compares `left`'s lower bound on its maximum potential bid,
   * maxBid - autoIncrement, with `right`'s upper bound, maxBid.
   */
  function LowerBoundMaxPotentialSafe(left: BidTerms, right: BidTerms): (r: int)
    ensures -1 <= r <= 1
    ensures r >= 0 <==> right.maxBid <= left.maxBid - left.autoIncrement
    ensures r > 0 <==> right.maxBid < left.maxBid - left.autoIncrement
  {
    CompareTo(left.maxBid - left.autoIncrement, right.maxBid)
  }

  /**
   * The highest price a bid can reach from its starting bid in whole
   * increments without passing its maximum bid.
   */
  function MaximumPotentialBid(t: BidTerms): (r: Result<real, ArithmeticError>)
    requires t.Valid()
    ensures r.Failure? <==> t.startingBid < t.maxBid && t.autoIncrement == 0.0
    ensures r.Success? ==> t.startingBid <= r.value <= t.maxBid
  {
    var span := t.maxBid - t.startingBid;
    if span == 0.0 then Success(t.startingBid)
    else if t.autoIncrement == 0.0 then Failure(DivisionByZero)
    else
      FloorRounds(span, t.autoIncrement);
      MulMonotone(0.0, (span / t.autoIncrement).Floor as real, t.autoIncrement);
      Success((span / t.autoIncrement).Floor as real * t.autoIncrement + t.startingBid)
  }

  /**
   * The price a winner needs against a loser whose maximum potential bid is
   * `loserMaxPotential`: its current price when that is already higher, one
   * increment more on a tie, and otherwise the fewest whole increments that
   * reach the loser's potential.
   */
  function RelativeWinningPrice(winner: Standing, loserMaxPotential: real): (r: Result<real, ArithmeticError>)
    requires 0.0 <= winner.terms.autoIncrement
    ensures r.Failure? <==> winner.price < loserMaxPotential && winner.terms.autoIncrement == 0.0
    ensures r.Success? ==> winner.price <= r.value
  {
    var gap := loserMaxPotential - winner.price;
    var inc := winner.terms.autoIncrement;
    if gap < 0.0 then Success(winner.price)
    else if gap == 0.0 then Success(winner.price + inc)
    else if inc == 0.0 then Failure(DivisionByZero)
    else
      CeilingPositive(gap, inc);
      MulMonotone(0.0, Ceiling(gap / inc) as real, inc);
      Success(Ceiling(gap / inc) as real * inc + winner.price)
  }

  /** Rounding a positive quotient UP gives at least one round. */
  lemma CeilingPositive(gap: real, inc: real)
    requires 0.0 < gap && 0.0 < inc
    ensures 1 <= Ceiling(gap / inc)
  {
    assert gap / inc * inc == gap;
    if gap / inc <= 0.0 {
      MulMonotone(gap / inc, 0.0, inc);
      assert false;
    }
  }

  /**
   * The maximum potential bid is the increment-aligned ceiling of the bid:
   * the starting bid when the maximum equals it, a division error when the
   * increment is zero and the maximum is higher, and otherwise a grid point
   * between the starting and the maximum bid that is within one increment of
   * the maximum, so that no grid point up to the maximum lies above it.
   */
  lemma {:induction false} MaximumPotentialBidSpec(t: BidTerms)
    requires t.Valid()
    ensures t.maxBid == t.startingBid ==> MaximumPotentialBid(t) == Success(t.startingBid)
    ensures t.startingBid < t.maxBid && t.autoIncrement == 0.0 ==> MaximumPotentialBid(t) == Failure(DivisionByZero)
    ensures t.startingBid < t.maxBid && 0.0 < t.autoIncrement ==> MaximumPotentialBid(t).Success?
    ensures MaximumPotentialBid(t).Success? ==>
      var m := MaximumPotentialBid(t).value;
      && OnGrid(m, t.startingBid, t.autoIncrement)
      && t.startingBid <= m <= t.maxBid
      && t.maxBid - t.autoIncrement <= m
      && (0.0 < t.autoIncrement ==> t.maxBid - t.autoIncrement < m)
      && (forall k: nat :: Step(t.startingBid, t.autoIncrement, k) <= t.maxBid ==> Step(t.startingBid, t.autoIncrement, k) <= m)
  {
    var start, inc := t.startingBid, t.autoIncrement;
    var span := t.maxBid - start;
    if span == 0.0 {
      GridBase(start, inc);
      forall k: nat | Step(start, inc, k) <= t.maxBid ensures Step(start, inc, k) <= start {
      }
    } else if inc > 0.0 {
      var n := (span / inc).Floor;
      FloorRounds(span, inc);
      var m := n as real * inc + start;
      assert m == Step(start, inc, n);
      forall k: nat | Step(start, inc, k) <= t.maxBid ensures Step(start, inc, k) <= m {
        if m < Step(start, inc, k) {
          GridGap(m, Step(start, inc, k), start, inc);
        }
      }
    }
  }

  /** Rounding DOWN: the whole number of increments that fit in `span` covers it to within one increment. */
  lemma FloorRounds(span: real, inc: real)
    requires 0.0 <= span && 0.0 < inc
    ensures 0 <= (span / inc).Floor
    ensures (span / inc).Floor as real * inc <= span < (span / inc).Floor as real * inc + inc
  {
    var q := span / inc;
    var n := q.Floor;
    assert n as real <= q < n as real + 1.0;
    MulMonotone(n as real, q, inc);
    MulStrict(q, n as real + 1.0, inc);
    assert q * inc == span;
    calc {
      span;
      q * inc;
    < (n as real + 1.0) * inc;
      n as real * inc + inc;
    }
  }

  /**
   * The relative winning price is the winner's price raised by a whole
   * number of increments: none when the loser's potential is below the
   * price, one on a tie, and otherwise the fewest that reach (and so may
   * equal) the loser's potential; a zero increment is a division error then.
   */
  lemma {:induction false} RelativeWinningPriceSpec(winner: Standing, loserMaxPotential: real)
    requires 0.0 <= winner.terms.autoIncrement
    ensures var r, p, inc := RelativeWinningPrice(winner, loserMaxPotential), winner.price, winner.terms.autoIncrement;
      && (loserMaxPotential < p ==> r == Success(p))
      && (loserMaxPotential == p ==> r == Success(p + inc))
      && (p < loserMaxPotential && inc == 0.0 ==> r == Failure(DivisionByZero))
      && (p < loserMaxPotential && 0.0 < inc ==>
            && r.Success?
            && OnGrid(r.value, p, inc)
            && loserMaxPotential <= r.value
            && r.value - inc < loserMaxPotential
            && (forall k: nat :: loserMaxPotential <= Step(p, inc, k) ==> r.value <= Step(p, inc, k)))
  {
    var p, inc := winner.price, winner.terms.autoIncrement;
    var gap := loserMaxPotential - p;
    if 0.0 < gap && 0.0 < inc {
      var q := gap / inc;
      var j := Ceiling(q);
      assert 1 <= j;
      var r := j as real * inc + p;
      assert r == Step(p, inc, j);
      assert q * inc == gap;
      assert q <= j as real < q + 1.0;
      MulMonotone(q, j as real, inc);
      MulStrict(j as real - 1.0, q, inc);
      assert (j as real - 1.0) * inc == j as real * inc - inc;
      calc {
        loserMaxPotential;
        q * inc + p;
      <= j as real * inc + p;
        r;
      }
      calc {
        r - inc;
        j as real * inc - inc + p;
        (j as real - 1.0) * inc + p;
      <  q * inc + p;
        loserMaxPotential;
      }
      forall k: nat | loserMaxPotential <= Step(p, inc, k) ensures r <= Step(p, inc, k) {
        if Step(p, inc, k) < r {
          GridBase(p, inc);
          GridGap(Step(p, inc, k), r, p, inc);
        }
      }
    }
  }

  /**
   * The fast test is sound: a non-negative result proves that `left`'s
   * maximum potential bid is at least `right`'s, a positive one that it is
   * strictly greater.
   */
  lemma LowerBoundSafeSound(left: BidTerms, right: BidTerms)
    requires left.Valid() && right.Valid()
    requires MaximumPotentialBid(left).Success? && MaximumPotentialBid(right).Success?
    ensures LowerBoundMaxPotentialSafe(left, right) >= 0 ==>
              MaximumPotentialBid(left).value >= MaximumPotentialBid(right).value
    ensures LowerBoundMaxPotentialSafe(left, right) > 0 ==>
              MaximumPotentialBid(left).value > MaximumPotentialBid(right).value
  {
    MaximumPotentialBidSpec(left);
    MaximumPotentialBidSpec(right);
  }

  /** A price kept on the bid's grid and under its maximum never passes its maximum potential bid. */
  lemma PriceWithinPotential(s: Standing)
    requires s.terms.Valid() && PriceOk(s)
    requires MaximumPotentialBid(s.terms).Success?
    ensures s.price <= MaximumPotentialBid(s.terms).value
  {
    MaximumPotentialBidSpec(s.terms);
    var k: nat :| s.price == Step(s.terms.startingBid, s.terms.autoIncrement, k);
  }
}

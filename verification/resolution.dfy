/**
 * The decision processBid makes for a new bid, as a pure function of the
 * auction's current winner (if any) and the new bid. The service applies the
 * decision to its winner table.
 */
module Resolution {
  import opened Wrappers
  import opened Increments
  import opened BidModel
  import opened Pricing

  datatype Decision =
    | Install                     // first bid for the auction: stored as it is
    | Duplicate                   // equal to the stored winner: nothing changes
    | OutOfReach                  // the winner's price already meets the new bid's maximum: nothing changes
    | KeepIncumbent(price: real)  // the winner stays and its winning price becomes `price`
    | Overtake(price: real)       // the new bid becomes the winner, with winning price `price`

  /** Whether the decision leaves the new bid as the auction's winner. */
  predicate ChallengerWins(d: Decision) {
    d.Install? || d.Overtake?
  }

  function Resolve(incumbent: Option<Standing>, challenger: Standing): (r: Result<Decision, ArithmeticError>)
    requires challenger.terms.Valid()
    requires incumbent.Some? ==> incumbent.value.terms.Valid()
    // the first bid of an auction is installed, and only the first
    ensures r == Success(Install) <==> incumbent.None?
    // a bid equal to the winner is dropped as a duplicate
    ensures r == Success(Duplicate) <==> incumbent.Some? && SameOffer(incumbent.value.terms, challenger.terms)
    // an ArithmeticException needs a zero increment on one of the two bids
    ensures r.Failure? ==>
      incumbent.Some? && (incumbent.value.terms.autoIncrement == 0.0 || challenger.terms.autoIncrement == 0.0)
  {
    match incumbent
    case None => Success(Install)
    case Some(winner) =>
      if SameOffer(winner.terms, challenger.terms) then Success(Duplicate)
      else if winner.price >= challenger.terms.maxBid then Success(OutOfReach)
      else if LowerBoundMaxPotentialSafe(winner.terms, challenger.terms) >= 0 then
        // the winner clearly dominates: it outbids the challenger's potential
        var challengerMax :- MaximumPotentialBid(challenger.terms);
        var price :- RelativeWinningPrice(winner, challengerMax);
        Success(KeepIncumbent(price))
      else if LowerBoundMaxPotentialSafe(challenger.terms, winner.terms) > 0 then
        // the challenger clearly dominates; a tie with the winner's potential costs one more increment
        var winnerMax :- MaximumPotentialBid(winner.terms);
        var price :- RelativeWinningPrice(challenger, winnerMax);
        Success(Overtake(if price == winnerMax then price + challenger.terms.autoIncrement else price))
      else
        // too close to call: compare the exact potentials, the winner keeps ties
        var winnerMax :- MaximumPotentialBid(winner.terms);
        var challengerMax :- MaximumPotentialBid(challenger.terms);
        if challengerMax > winnerMax then Success(Overtake(challengerMax))
        else Success(KeepIncumbent(winnerMax))
  }

  /** Whether both bids are well formed and the winner's price satisfies the resolver's invariant. */
  ghost predicate Contest(winner: Standing, challenger: Standing) {
    winner.terms.Valid() && challenger.terms.Valid() && PriceOk(winner) && PriceOk(challenger)
  }

  /**
   * Whenever both maximum potential bids exist, the new bid ends up the
   * winner exactly when its potential is strictly greater: the fast paths
   * agree with the exact comparison and the incumbent keeps ties.
   */
  lemma ResolveAgreesWithExactComparison(winner: Standing, challenger: Standing)
    requires Contest(winner, challenger)
    requires Resolve(Some(winner), challenger).Success?
    requires MaximumPotentialBid(winner.terms).Success? && MaximumPotentialBid(challenger.terms).Success?
    ensures ChallengerWins(Resolve(Some(winner), challenger).value)
        <==> MaximumPotentialBid(challenger.terms).value > MaximumPotentialBid(winner.terms).value
  {
    var w, c := winner.terms, challenger.terms;
    MaximumPotentialBidSpec(c);
    PriceWithinPotential(winner);
    LowerBoundSafeSound(w, c);
    LowerBoundSafeSound(c, w);
  }

  /**
   * The decided price keeps the resolver's invariant for the bid that holds
   * it, never lowers the auction's displayed price, and covers the losing
   * bid's maximum potential bid; an overtake with a positive increment beats
   * the old winner's potential strictly.
   */
  lemma ResolvePriceProperties(winner: Standing, challenger: Standing)
    requires Contest(winner, challenger)
    requires Resolve(Some(winner), challenger).Success?
    ensures var d := Resolve(Some(winner), challenger).value;
      && (d.KeepIncumbent? ==>
            && PriceOk(Standing(winner.terms, d.price))
            && winner.price <= d.price
            && (MaximumPotentialBid(challenger.terms).Success? ==> MaximumPotentialBid(challenger.terms).value <= d.price))
      && (d.Overtake? ==>
            && PriceOk(Standing(challenger.terms, d.price))
            && winner.price <= d.price
            && MaximumPotentialBid(winner.terms).Success?
            && MaximumPotentialBid(winner.terms).value <= d.price
            && (0.0 < challenger.terms.autoIncrement ==> MaximumPotentialBid(winner.terms).value < d.price))
  {
    var w, c := winner.terms, challenger.terms;
    var d := Resolve(Some(winner), challenger).value;
    if SameOffer(w, c) || winner.price >= c.maxBid {
    } else if LowerBoundMaxPotentialSafe(w, c) >= 0 {
      KeepIncumbentPrice(winner, challenger);
    } else if LowerBoundMaxPotentialSafe(c, w) > 0 {
      OvertakePrice(winner, challenger);
      PriceWithinPotential(winner);
    } else {
      ExactComparisonPrice(winner, challenger);
    }
  }

  /** The branch where the bounds are too close and both potentials are computed. */
  lemma ExactComparisonPrice(winner: Standing, challenger: Standing)
    requires Contest(winner, challenger)
    requires !SameOffer(winner.terms, challenger.terms) && winner.price < challenger.terms.maxBid
    requires LowerBoundMaxPotentialSafe(winner.terms, challenger.terms) < 0
    requires LowerBoundMaxPotentialSafe(challenger.terms, winner.terms) <= 0
    requires Resolve(Some(winner), challenger).Success?
    ensures var d := Resolve(Some(winner), challenger).value;
      var wm, cm := MaximumPotentialBid(winner.terms).value, MaximumPotentialBid(challenger.terms).value;
      && (d == if cm > wm then Overtake(cm) else KeepIncumbent(wm))
      && winner.price <= wm
      && PriceOk(Standing(winner.terms, wm))
      && PriceOk(Standing(challenger.terms, cm))
  {
    MaximumPotentialBidSpec(winner.terms);
    MaximumPotentialBidSpec(challenger.terms);
    PriceWithinPotential(winner);
  }

  /** The clear-dominance branch that keeps the winner. */
  lemma KeepIncumbentPrice(winner: Standing, challenger: Standing)
    requires Contest(winner, challenger)
    requires !SameOffer(winner.terms, challenger.terms) && winner.price < challenger.terms.maxBid
    requires LowerBoundMaxPotentialSafe(winner.terms, challenger.terms) >= 0
    requires Resolve(Some(winner), challenger).Success?
    ensures var d := Resolve(Some(winner), challenger).value;
      && d.KeepIncumbent?
      && PriceOk(Standing(winner.terms, d.price))
      && winner.price <= d.price
      && MaximumPotentialBid(challenger.terms).value <= d.price
  {
    var w, c := winner.terms, challenger.terms;
    var cm := MaximumPotentialBid(c).value;
    var price := RelativeWinningPrice(winner, cm).value;
    MaximumPotentialBidSpec(c);
    RelativeWinningPriceSpec(winner, cm);
    if cm < winner.price {
    } else if cm == winner.price {
      GridAdvance(winner.price, w.startingBid, w.autoIncrement, 1);
    } else {
      GridRebase(price, winner.price, w.startingBid, w.autoIncrement);
    }
  }

  /** The clear-dominance branch that installs the challenger. */
  lemma OvertakePrice(winner: Standing, challenger: Standing)
    requires Contest(winner, challenger)
    requires !SameOffer(winner.terms, challenger.terms) && winner.price < challenger.terms.maxBid
    requires LowerBoundMaxPotentialSafe(winner.terms, challenger.terms) < 0
    requires LowerBoundMaxPotentialSafe(challenger.terms, winner.terms) > 0
    requires Resolve(Some(winner), challenger).Success?
    ensures var d := Resolve(Some(winner), challenger).value;
      && d.Overtake?
      && PriceOk(Standing(challenger.terms, d.price))
      && MaximumPotentialBid(winner.terms).value <= d.price
      && (0.0 < challenger.terms.autoIncrement ==> MaximumPotentialBid(winner.terms).value < d.price)
  {
    var w, c := winner.terms, challenger.terms;
    var wm := MaximumPotentialBid(w).value;
    var price := RelativeWinningPrice(challenger, wm).value;
    MaximumPotentialBidSpec(w);
    RelativeWinningPriceSpec(challenger, wm);
    var start, inc := c.startingBid, c.autoIncrement;
    if wm < challenger.price {
    } else if wm == challenger.price {
      GridAdvance(challenger.price, start, inc, 1);
      if inc == 0.0 {
      } else {
        assert price != wm;
      }
    } else {
      GridRebase(price, challenger.price, start, inc);
      if price == wm {
        GridAdvance(price, start, inc, 1);
      }
    }
  }

  /** A bid as it leaves the constructor: its price is its starting bid. */
  function Fresh(t: BidTerms): Standing {
    Standing(t, t.startingBid)
  }

  /**
   * When a's lower bound passes b's maximum, a wins whichever of the two is
   * submitted first: as the incumbent it is kept (or b is out of reach), as
   * the challenger it overtakes strictly above b's maximum potential bid.
   */
  lemma DominanceEitherOrder(a: BidTerms, b: BidTerms)
    requires a.Valid() && b.Valid()
    requires a.maxBid - a.autoIncrement > b.maxBid
    requires 0.0 < a.autoIncrement && MaximumPotentialBid(b).Success?
    ensures var ab := Resolve(Some(Fresh(a)), Fresh(b));
      || ab == Success(OutOfReach)
      || (ab.Success? && ab.value.KeepIncumbent? && MaximumPotentialBid(b).value <= ab.value.price)
    ensures var ba := Resolve(Some(Fresh(b)), Fresh(a));
      ba.Success? && ba.value.Overtake? && MaximumPotentialBid(b).value < ba.value.price
  {
    GridBase(a.startingBid, a.autoIncrement);
    GridBase(b.startingBid, b.autoIncrement);
    var bm := MaximumPotentialBid(b).value;
    RelativeWinningPriceSpec(Fresh(a), bm);
    if a.startingBid < b.maxBid {
      KeepIncumbentPrice(Fresh(a), Fresh(b));
    }
    OvertakePrice(Fresh(b), Fresh(a));
  }

  /**
   * Dominance needs increments: when the dominant bid's increment is zero,
   * or the other bid's potential is undefined, the source throws
   * ArithmeticException instead of choosing a winner, in either order.
   * Here a = (1, 10, 0) against b = (2, 5, 1), and a' = (1, 10, 1) against
   * b' = (1, 5, 0).
   */
  lemma DominanceNeedsIncrements()
    ensures var a, b := BidTerms("a", 1.0, 10.0, 0.0, 1), BidTerms("b", 2.0, 5.0, 1.0, 1);
      && a.maxBid - a.autoIncrement > b.maxBid
      && Resolve(Some(Fresh(b)), Fresh(a)) == Failure(DivisionByZero)
      && Resolve(Some(Fresh(a)), Fresh(b)) == Failure(DivisionByZero)
    ensures var a, b := BidTerms("a", 1.0, 10.0, 1.0, 1), BidTerms("b", 1.0, 5.0, 0.0, 1);
      && a.maxBid - a.autoIncrement > b.maxBid
      && MaximumPotentialBid(b) == Failure(DivisionByZero)
      && Resolve(Some(Fresh(a)), Fresh(b)) == Failure(DivisionByZero)
  {
    var a, b := BidTerms("a", 1.0, 10.0, 0.0, 1), BidTerms("b", 2.0, 5.0, 1.0, 1);
    assert MaximumPotentialBid(b) == Success(5.0);
    assert RelativeWinningPrice(Fresh(a), 5.0) == Failure(DivisionByZero);
  }

  /**
   * With a zero increment the forced extra round adds nothing, so a new bid
   * (starting 6, maximum 7, increment 0) overtakes a winner (2, 6, 2) at 6,
   * exactly the old winner's maximum potential bid.
   */
  lemma ZeroIncrementOvertakesAtTie()
    ensures var winner := Fresh(BidTerms("w", 2.0, 6.0, 2.0, 1));
            var challenger := Fresh(BidTerms("c", 6.0, 7.0, 0.0, 1));
      && MaximumPotentialBid(winner.terms) == Success(6.0)
      && Resolve(Some(winner), challenger) == Success(Overtake(6.0))
  {
  }

  /**
   * Submitting the same losing bid twice is not idempotent: against a
   * winner (2, 10, 2) the bid (0, 5, 4) first raises the price to 4, equal
   * to its potential, and the identical resubmission raises it again to 6.
   */
  lemma ResubmittedLoserRaisesPrice()
    ensures var w := BidTerms("w", 2.0, 10.0, 2.0, 1);
            var loser := Fresh(BidTerms("l", 0.0, 5.0, 4.0, 1));
      && Resolve(Some(Standing(w, 2.0)), loser) == Success(KeepIncumbent(4.0))
      && Resolve(Some(Standing(w, 4.0)), loser) == Success(KeepIncumbent(6.0))
  {
  }
}

/**
 * The auction service: a table from auction id to the current winning Bid
 * object, read by GetWinner and updated in place by ProcessBid, which stores
 * the caller's Bid reference and later writes the stored bids' winning price.
 */
module Service {
  import opened Wrappers
  import opened BidModel
  import opened Pricing
  import opened Resolution

  /** A null or negative auction id in a lookup (HTTP 400 Bad Request). */
  datatype ServiceError = BadRequest

  /** The placeholder GetWinner returns for an auction without bids. */
  function NoEntries(auctionId: int): BidTerms {
    BidTerms("No entries.", 0.0, 0.0, 0.0, auctionId)
  }

  class AuctionService {
    var auctionWinners: map<int, Bid>

    /** Every entry is a well-formed bid for the auction it is stored under. */
    ghost predicate Valid()
      reads this, auctionWinners.Values
    {
      forall k :: k in auctionWinners ==> auctionWinners[k].auctionId == k && auctionWinners[k].Valid()
    }

    constructor ()
      ensures auctionWinners == map[] && Valid()
    {
      auctionWinners := map[];
    }

    /** The stored winner of an auction, as a value. */
    function Incumbent(auctionId: int): Option<Standing>
      reads this, auctionWinners.Values
    {
      if auctionId in auctionWinners then Some(auctionWinners[auctionId].View()) else None
    }

    /** What processing `b` decides in the current state. */
    ghost function Outcome(b: Bid): Result<Decision, ArithmeticError>
      reads this, auctionWinners.Values, b
      requires Valid() && b.Valid()
    {
      Resolve(Incumbent(b.auctionId), b.View())
    }

    method GetWinner(auctionId: Option<int>) returns (r: Result<Bid, ServiceError>)
      ensures auctionId.None? || auctionId.value < 0 ==> r == Failure(BadRequest)
      ensures auctionId.Some? && 0 <= auctionId.value && auctionId.value in auctionWinners ==>
                r == Success(auctionWinners[auctionId.value])
      ensures auctionId.Some? && 0 <= auctionId.value && auctionId.value !in auctionWinners ==>
                && r.Success? && fresh(r.value)
                && r.value.Terms() == NoEntries(auctionId.value) && r.value.winningPrice == 0.0
    {
      if auctionId.None? || auctionId.value < 0 {
        return Failure(BadRequest);
      }
      var id := auctionId.value;
      if id in auctionWinners {
        return Success(auctionWinners[id]);
      }
      NoEntriesConstructs(id);
      var made := Bid.Create(Some("No entries."), Some("0"), Some("0"), Some("0"), Some(id));
      return Success(made.value);
    }

    method ProcessBid(newBid: Bid?) returns (thrown: Option<ArithmeticError>)
      requires Valid()
      requires newBid != null ==> newBid.Valid()
      modifies this, newBid, auctionWinners.Values
      ensures Valid()
      ensures newBid != null ==> newBid.Valid()
      // a null bid is ignored
      ensures newBid == null ==> thrown == None && auctionWinners == old(auctionWinners)
      // the error, the new table and the new bid's price follow the decision
      ensures newBid != null ==>
        var d := old(Outcome(newBid));
        && thrown == (if d.Failure? then Some(d.error) else None)
        && auctionWinners == (if d.Success? && ChallengerWins(d.value)
                              then old(auctionWinners)[newBid.auctionId := newBid]
                              else old(auctionWinners))
        && newBid.winningPrice == (if d.Success? && d.value.Overtake? then d.value.price
                                   else old(newBid.winningPrice))
      // the previous winner (kept or displaced) changes price only when it is kept at a new price
      ensures newBid != null && newBid.auctionId in old(auctionWinners) && old(auctionWinners[newBid.auctionId]) != newBid ==>
        var w := old(auctionWinners[newBid.auctionId]);
        var d := old(Outcome(newBid));
        w.winningPrice == (if d.Success? && d.value.KeepIncumbent? then d.value.price else old(w.winningPrice))
      // no other auction's entry changes
      ensures forall k :: k in old(auctionWinners) && (newBid == null || k != newBid.auctionId) ==>
        && k in auctionWinners && auctionWinners[k] == old(auctionWinners[k])
        && auctionWinners[k].winningPrice == old(auctionWinners[k].winningPrice)
      // the auction's displayed price never falls
      ensures newBid != null && newBid.auctionId in old(auctionWinners) ==>
        && newBid.auctionId in auctionWinners
        && old(auctionWinners[newBid.auctionId].winningPrice) <= auctionWinners[newBid.auctionId].winningPrice
    {
      thrown := None;
      if newBid == null {
        return;
      }
      var id := newBid.auctionId;
      if id !in auctionWinners {
        auctionWinners := auctionWinners[id := newBid];
        return;
      }
      if auctionWinners[id].Equals(newBid) {
        return;
      }
      var winningBid := auctionWinners[id];
      if winningBid.winningPrice >= newBid.maxBid {
        return;
      }

      if LowerBoundMaxPotentialSafe(winningBid.Terms(), newBid.Terms()) >= 0 {
        var newBidMaxPotential := MaximumPotentialBid(newBid.Terms());
        if newBidMaxPotential.Failure? {
          return Some(newBidMaxPotential.error);
        }
        var price := RelativeWinningPrice(winningBid.View(), newBidMaxPotential.value);
        if price.Failure? {
          return Some(price.error);
        }
        ResolvePriceProperties(winningBid.View(), newBid.View());
        winningBid.SetWinningPrice(price.value);
        return;
      }

      if LowerBoundMaxPotentialSafe(newBid.Terms(), winningBid.Terms()) > 0 {
        var winningBidMaxPotential := MaximumPotentialBid(winningBid.Terms());
        if winningBidMaxPotential.Failure? {
          return Some(winningBidMaxPotential.error);
        }
        var price := RelativeWinningPrice(newBid.View(), winningBidMaxPotential.value);
        if price.Failure? {
          return Some(price.error);
        }
        var relative := price.value;
        if relative == winningBidMaxPotential.value {
          relative := relative + newBid.autoIncrement;
        }
        ResolvePriceProperties(winningBid.View(), newBid.View());
        newBid.SetWinningPrice(relative);
        auctionWinners := auctionWinners[id := newBid];
        return;
      }

      var winningBidMaxPotential := MaximumPotentialBid(winningBid.Terms());
      if winningBidMaxPotential.Failure? {
        return Some(winningBidMaxPotential.error);
      }
      var newBidMaxPotential := MaximumPotentialBid(newBid.Terms());
      if newBidMaxPotential.Failure? {
        return Some(newBidMaxPotential.error);
      }
      ResolvePriceProperties(winningBid.View(), newBid.View());
      if newBidMaxPotential.value > winningBidMaxPotential.value {
        newBid.SetWinningPrice(newBidMaxPotential.value);
        auctionWinners := auctionWinners[id := newBid];
      } else {
        winningBid.SetWinningPrice(winningBidMaxPotential.value);
      }
    }
  }

  /** The placeholder's arguments always pass the Bid constructor's checks. */
  lemma NoEntriesConstructs(auctionId: int)
    requires 0 <= auctionId
    ensures CheckTerms(Some("No entries."), Some("0"), Some("0"), Some("0"), Some(auctionId)) == Success(NoEntries(auctionId))
  {
  }
}

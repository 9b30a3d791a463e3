/**
 * Concrete runs of the service: each method drives a fresh AuctionService
 * through the calls of one unit test and promises the outcome that test
 * expects. Amounts are given as numbers; the parsing of the tests' strings
 * ("$1,000", "$.50") is covered by the lemmas of module BidExamples.
 */
module Scenarios {
  import opened Wrappers
  import opened BidModel
  import opened Pricing
  import opened Resolution
  import opened Service

  /** The first bid of an auction is stored and returned by GetWinner as the same object. */
  method WinnerAfterFirstBid() returns (found: bool, price: real)
    ensures found && price == 200.0
  {
    var service := new AuctionService();
    var bid := new Bid(BidTerms("Tom", 200.0, 1000.0, 10.51, 1));
    var _ := service.ProcessBid(bid);
    var result := service.GetWinner(Some(1));
    found := result == Success(bid);
    price := result.value.winningPrice;
  }

  /** An auction without bids answers with the "No entries." placeholder, which is not stored. */
  method WinnerOfEmptyAuction() returns (placeholder: bool, stored: bool)
    ensures placeholder && !stored
  {
    var service := new AuctionService();
    var noWinnerBid := new Bid(NoEntries(28));
    var result := service.GetWinner(Some(28));
    placeholder := result.Success? && result.value.Equals(noWinnerBid) && result.value.winningPrice == 0.0;
    stored := 28 in service.auctionWinners;
  }

  /** A missing or negative auction id is a bad request. */
  method WinnerOfInvalidAuction() returns (missing: Result<Bid, ServiceError>, negative: Result<Bid, ServiceError>)
    ensures missing == Failure(BadRequest) && negative == Failure(BadRequest)
  {
    var service := new AuctionService();
    missing := service.GetWinner(None);
    negative := service.GetWinner(Some(-3));
  }

  /** Before the first bid the placeholder answers; afterwards the bid itself. */
  method InitializeWinner() returns (before: bool, after: bool)
    ensures before && after
  {
    var service := new AuctionService();
    var noWinnerBid := new Bid(NoEntries(4));
    var bid := new Bid(BidTerms("Jane", 200.0, 1000.0, 10.51, 4));
    var original := service.GetWinner(Some(4));
    var _ := service.ProcessBid(bid);
    var winner := service.GetWinner(Some(4));
    before := original.Success? && original.value.Equals(noWinnerBid);
    after := winner == Success(bid);
  }

  /** The same Bid submitted twice leaves the winner and its price as they were. */
  method DuplicateBid() returns (first: bool, changed: bool, same: bool, price: real)
    ensures first && changed && same && price == 2.0
  {
    var service := new AuctionService();
    var sameBid := new Bid(BidTerms("Alex132", 2.0, 6.0, 0.5, 5));
    var one := service.GetWinner(Some(5));
    first := one.Success? && one.value.id == "No entries.";
    var _ := service.ProcessBid(sameBid);
    var two := service.GetWinner(Some(5));
    changed := !two.value.Equals(one.value);
    var _ := service.ProcessBid(sameBid);
    var three := service.GetWinner(Some(5));
    same := three == two;
    price := three.value.winningPrice;
  }

  /**
   * A bidder raising their own maximum replaces their earlier bid. The fast
   * test cannot decide (8 - 2 is not above 6), so the exact potentials 8 and
   * 6 are compared and the new bid wins at its own potential 8.
   */
  method SameBidderNewTerms() returns (firstPrice: real, replaced: bool, sameBidder: bool, price: real)
    ensures firstPrice == 2.0 && replaced && sameBidder && price == 8.0
  {
    var original := BidTerms("John", 2.0, 6.0, 0.5, 6);
    var updated := BidTerms("John", 2.0, 8.0, 2.0, 6);
    assert Resolve(Some(Fresh(original)), Fresh(updated)) == Success(Overtake(8.0));
    var service := new AuctionService();
    var originalBid := new Bid(original);
    var _ := service.ProcessBid(originalBid);
    var two := service.GetWinner(Some(6));
    firstPrice := two.value.winningPrice;
    var updatedBid := new Bid(updated);
    var _ := service.ProcessBid(updatedBid);
    assert service.auctionWinners == map[6 := updatedBid];
    var three := service.GetWinner(Some(6));
    replaced := !three.value.Equals(two.value);
    sameBidder := three.value.id == two.value.id && three.value.startingBid == two.value.startingBid;
    price := three.value.winningPrice;
  }

  /**
   * A challenger whose maximum does not exceed the current price is ignored;
   * GetWinner returns the stored object itself, so its price is the winner's.
   */
  method ChallengerOutOfReach() returns (kept: bool, samePrice: bool, price: real)
    ensures kept && samePrice && price == 100.0
  {
    var service := new AuctionService();
    var winningBid := new Bid(BidTerms("Winner7", 100.0, 500.0, 2.0, 7));
    var smallBid := new Bid(BidTerms("Loser7", 50.0, 90.0, 25.0, 7));
    var _ := service.ProcessBid(winningBid);
    var _ := service.ProcessBid(smallBid);
    var result := service.GetWinner(Some(7));
    kept := result.value.Equals(winningBid);
    samePrice := result.value.winningPrice == winningBid.winningPrice;
    price := result.value.winningPrice;
  }

  /** A challenger whose maximum potential bid 4 falls short: the winner stays, at 4. */
  method SameWinnerRelativePrice() returns (firstPrice: real, kept: bool, price: real)
    ensures firstPrice == 2.0 && kept && price == 4.0
  {
    var w := BidTerms("Winner8", 2.0, 10.0, 2.0, 8);
    var c := BidTerms("Loser8", 0.0, 4.0, 4.0, 8);
    assert Resolve(Some(Fresh(w)), Fresh(c)) == Success(KeepIncumbent(4.0));
    var service := new AuctionService();
    var winningBid := new Bid(w);
    var _ := service.ProcessBid(winningBid);
    var first := service.GetWinner(Some(8));
    firstPrice := first.value.winningPrice;
    var smallBid := new Bid(c);
    var _ := service.ProcessBid(smallBid);
    assert winningBid.winningPrice == 4.0;
    var result := service.GetWinner(Some(8));
    kept := result == Success(winningBid);
    price := result.value.winningPrice;
  }

  /** The challenger's potential 4 is a price the winner can reach: the winner stays, at 4. */
  method TieSameWinnerRelativePrice() returns (kept: bool, price: real)
    ensures kept && price == 4.0
  {
    var w := BidTerms("Winner9", 2.0, 6.0, 2.0, 9);
    var c := BidTerms("Loser9", 2.0, 4.0, 2.0, 9);
    assert Resolve(Some(Fresh(w)), Fresh(c)) == Success(KeepIncumbent(4.0));
    var service := new AuctionService();
    var winningBid := new Bid(w);
    var _ := service.ProcessBid(winningBid);
    assert service.auctionWinners == map[9 := winningBid];
    var smallBid := new Bid(c);
    var _ := service.ProcessBid(smallBid);
    assert winningBid.winningPrice == 4.0;
    var result := service.GetWinner(Some(9));
    kept := result == Success(winningBid);
    price := result.value.winningPrice;
  }

  /** A challenger that surely outbids the winner's potential 6 takes the auction at 8. */
  method ReplaceWinnerRelativePrice() returns (replaced: bool, price: real)
    ensures replaced && price == 8.0
  {
    var w := BidTerms("Winner10", 2.0, 6.0, 2.0, 10);
    var c := BidTerms("newBid10", 2.0, 15.0, 2.0, 10);
    assert MaximumPotentialBid(w) == Success(6.0);
    assert RelativeWinningPrice(Fresh(c), 6.0) == Success(6.0);
    assert Resolve(Some(Fresh(w)), Fresh(c)) == Success(Overtake(8.0));
    var service := new AuctionService();
    var winningBid := new Bid(w);
    var _ := service.ProcessBid(winningBid);
    assert service.auctionWinners == map[10 := winningBid];
    var newBid := new Bid(c);
    var _ := service.ProcessBid(newBid);
    assert service.auctionWinners == map[10 := newBid];
    var result := service.GetWinner(Some(10));
    replaced := result == Success(newBid);
    price := result.value.winningPrice;
  }

  /** Potentials 16 against 14: the winner stays, at its own potential 16. */
  method SameWinnerMaximumPrice() returns (kept: bool, price: real)
    ensures kept && price == 16.0
  {
    var w := BidTerms("Winner11", 2.0, 16.0, 2.0, 11);
    var c := BidTerms("newBid11", 2.0, 15.0, 2.0, 11);
    assert Resolve(Some(Fresh(w)), Fresh(c)) == Success(KeepIncumbent(16.0));
    var service := new AuctionService();
    var winningBid := new Bid(w);
    var _ := service.ProcessBid(winningBid);
    assert service.auctionWinners == map[11 := winningBid];
    var newBid := new Bid(c);
    var _ := service.ProcessBid(newBid);
    assert winningBid.winningPrice == 16.0;
    var result := service.GetWinner(Some(11));
    kept := result == Success(winningBid);
    price := result.value.winningPrice;
  }

  /** Equal potentials 16: the earlier bid stays, at 16. */
  method TieSameWinnerMaximumPrice() returns (kept: bool, price: real)
    ensures kept && price == 16.0
  {
    var w := BidTerms("Winner12", 2.0, 16.0, 2.0, 12);
    var c := BidTerms("newBid12", 2.0, 16.0, 2.0, 12);
    assert Resolve(Some(Fresh(w)), Fresh(c)) == Success(KeepIncumbent(16.0));
    var service := new AuctionService();
    var winningBid := new Bid(w);
    var _ := service.ProcessBid(winningBid);
    assert service.auctionWinners == map[12 := winningBid];
    var newBid := new Bid(c);
    var _ := service.ProcessBid(newBid);
    assert winningBid.winningPrice == 16.0;
    var result := service.GetWinner(Some(12));
    kept := result == Success(winningBid);
    price := result.value.winningPrice;
  }

  /** Potentials 17 against 16: the challenger wins, at its own potential 17. */
  method NewWinnerMaximumPrice() returns (firstPrice: real, replaced: bool, price: real)
    ensures firstPrice == 6.0 && replaced && price == 17.0
  {
    var w := BidTerms("Winner11", 6.0, 17.0, 2.0, 11);
    var c := BidTerms("newBid11", 1.0, 18.0, 2.0, 11);
    assert Resolve(Some(Fresh(w)), Fresh(c)) == Success(Overtake(17.0));
    var service := new AuctionService();
    var winningBid := new Bid(w);
    var _ := service.ProcessBid(winningBid);
    var first := service.GetWinner(Some(11));
    firstPrice := first.value.winningPrice;
    var newBid := new Bid(c);
    var _ := service.ProcessBid(newBid);
    assert service.auctionWinners == map[11 := newBid];
    var result := service.GetWinner(Some(11));
    replaced := result == Success(newBid);
    price := result.value.winningPrice;
  }

  /**
   * GetWinner hands out the stored object, so a reference obtained before a
   * later bid sees the price that bid sets on the winner.
   */
  method HeldWinnerSeesNewPrice() returns (before: real, after: real)
    ensures before == 2.0 && after == 4.0
  {
    var w := BidTerms("Winner8", 2.0, 10.0, 2.0, 8);
    var c := BidTerms("Loser8", 0.0, 4.0, 4.0, 8);
    assert Resolve(Some(Fresh(w)), Fresh(c)) == Success(KeepIncumbent(4.0));
    var service := new AuctionService();
    var winningBid := new Bid(w);
    var _ := service.ProcessBid(winningBid);
    var held := service.GetWinner(Some(8));
    before := held.value.winningPrice;
    var smallBid := new Bid(c);
    var _ := service.ProcessBid(smallBid);
    after := held.value.winningPrice;
  }
}

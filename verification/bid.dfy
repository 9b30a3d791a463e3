/**
 * The Bid entity: one bidder's validated offer for one auction, plus the one
 * mutable field the resolver writes, the currently displayed winning price.
 */
module BidModel {
  import opened Wrappers
  import opened Currency
  import opened Increments

  /** The immutable part of a bid: what the bidder submitted. */
  datatype BidTerms = BidTerms(
    id: string,
    startingBid: real,
    maxBid: real,
    autoIncrement: real,
    auctionId: int)
  {
    /** What a successful construction guarantees. */
    predicate Valid() {
      0.0 <= startingBid <= maxBid && 0.0 <= autoIncrement && 0 <= auctionId
    }
  }

  /** A bid's terms together with its current winning price. */
  datatype Standing = Standing(terms: BidTerms, price: real)

  /**
   * The reasons construction fails: a null argument (NullPointerException),
   * an amount that is not a decimal numeral (NumberFormatException), and the
   * five IOException messages.
   */
  datatype BidError =
    | NullField
    | MalformedAmount
    | NegativeStartingBid
    | NegativeMaxBid
    | MaxBelowStart
    | NegativeAutoIncrement
    | NegativeAuctionId

  /** Reads one currency-formatted amount, failing as `new BigDecimal` does. */
  function Amount(raw: string): Result<real, BidError> {
    match ParseAmount(raw)
    case Some(v) => Success(v)
    case None => Failure(MalformedAmount)
  }

  /**
   * The checks of the Bid constructor, in the order it makes them: nulls,
   * then the starting bid (parsed, not negative), the maximum bid (parsed,
   * not negative, not below the starting bid), the increment (parsed, not
   * negative) and finally the auction id. A Java null is None.
   */
  function CheckTerms(id: Option<string>, startingBid: Option<string>, maxBid: Option<string>,
                      autoIncrement: Option<string>, auctionId: Option<int>): (r: Result<BidTerms, BidError>)
    // any null is reported before any amount is parsed
    ensures (id.None? || startingBid.None? || maxBid.None? || autoIncrement.None? || auctionId.None?)
            <==> r == Failure(NullField)
    // success exactly when every check passes, and then the fields are the parsed amounts
    ensures r.Success? <==>
      && id.Some? && auctionId.Some?
      && startingBid.Some? && ParseAmount(startingBid.value).Some?
      && maxBid.Some? && ParseAmount(maxBid.value).Some?
      && autoIncrement.Some? && ParseAmount(autoIncrement.value).Some?
      && 0.0 <= ParseAmount(startingBid.value).value <= ParseAmount(maxBid.value).value
      && 0.0 <= ParseAmount(autoIncrement.value).value
      && 0 <= auctionId.value
    ensures r.Success? ==>
      && r.value.Valid()
      && r.value.id == id.value
      && ParseAmount(startingBid.value) == Some(r.value.startingBid)
      && ParseAmount(maxBid.value) == Some(r.value.maxBid)
      && ParseAmount(autoIncrement.value) == Some(r.value.autoIncrement)
      && r.value.auctionId == auctionId.value
    // the first failing check decides the error, whatever the later fields hold
    ensures id.Some? && startingBid.Some? && maxBid.Some? && autoIncrement.Some? && auctionId.Some? ==>
      var start, max, inc := ParseAmount(startingBid.value), ParseAmount(maxBid.value), ParseAmount(autoIncrement.value);
      && (start.None? ==> r == Failure(MalformedAmount))
      && (start.Some? && start.value < 0.0 ==> r == Failure(NegativeStartingBid))
      && (start.Some? && 0.0 <= start.value ==>
            && (max.None? ==> r == Failure(MalformedAmount))
            && (max.Some? && max.value < 0.0 ==> r == Failure(NegativeMaxBid))
            && (max.Some? && 0.0 <= max.value < start.value ==> r == Failure(MaxBelowStart))
            && (max.Some? && 0.0 <= start.value <= max.value ==>
                  && (inc.None? ==> r == Failure(MalformedAmount))
                  && (inc.Some? && inc.value < 0.0 ==> r == Failure(NegativeAutoIncrement))
                  && (inc.Some? && 0.0 <= inc.value && auctionId.value < 0 ==> r == Failure(NegativeAuctionId))))
  {
    if id.None? || startingBid.None? || maxBid.None? || autoIncrement.None? || auctionId.None? then
      Failure(NullField)
    else
      var start :- Amount(startingBid.value);
      if start < 0.0 then Failure(NegativeStartingBid)
      else
        var max :- Amount(maxBid.value);
        if max < 0.0 then Failure(NegativeMaxBid)
        else if max < start then Failure(MaxBelowStart)
        else
          var inc :- Amount(autoIncrement.value);
          if inc < 0.0 then Failure(NegativeAutoIncrement)
          else if auctionId.value < 0 then Failure(NegativeAuctionId)
          else Success(BidTerms(id.value, start, max, inc, auctionId.value))
  }

  /**
   * Bid equality: the same bidder id and numerically the same starting bid,
   * maximum bid and increment; the auction id and the winning price play no part.
   */
  predicate SameOffer(a: BidTerms, b: BidTerms) {
    a.id == b.id && a.startingBid == b.startingBid && a.maxBid == b.maxBid && a.autoIncrement == b.autoIncrement
  }

  /** Bid equality is an equivalence relation. */
  lemma SameOfferIsEquivalence(a: BidTerms, b: BidTerms, c: BidTerms)
    ensures SameOffer(a, a)
    ensures SameOffer(a, b) <==> SameOffer(b, a)
    ensures SameOffer(a, b) && SameOffer(b, c) ==> SameOffer(a, c)
  {
  }

  /**
   * The invariant the resolver keeps for every bid's winning price: it is
   * the starting bid raised by a whole number of increments, and it never
   * exceeds the maximum bid.
   */
  ghost predicate PriceOk(s: Standing) {
    && s.terms.startingBid <= s.price <= s.terms.maxBid
    && OnGrid(s.price, s.terms.startingBid, s.terms.autoIncrement)
  }

  class Bid {
    const id: string
    const startingBid: real
    const maxBid: real
    const autoIncrement: real
    const auctionId: int
    var winningPrice: real

    function Terms(): BidTerms {
      BidTerms(id, startingBid, maxBid, autoIncrement, auctionId)
    }

    function View(): Standing
      reads this
    {
      Standing(Terms(), winningPrice)
    }

    ghost predicate Valid()
      reads this
    {
      Terms().Valid() && PriceOk(View())
    }

    /** Field initialisation of a bid whose checks have passed; the price starts at the starting bid. */
    constructor (t: BidTerms)
      requires t.Valid()
      ensures Terms() == t && winningPrice == t.startingBid
      ensures Valid()
    {
      id, startingBid, maxBid, autoIncrement, auctionId := t.id, t.startingBid, t.maxBid, t.autoIncrement, t.auctionId;
      winningPrice := t.startingBid;
      new;
      GridBase(t.startingBid, t.autoIncrement);
    }

    /** The constructor from raw arguments: either a fresh valid bid or the first failing check. */
    static method Create(id: Option<string>, startingBid: Option<string>, maxBid: Option<string>,
                         autoIncrement: Option<string>, auctionId: Option<int>) returns (r: Result<Bid, BidError>)
      ensures var checked := CheckTerms(id, startingBid, maxBid, autoIncrement, auctionId);
        && (checked.Failure? ==> r == Failure(checked.error))
        && (checked.Success? ==> r.Success? && fresh(r.value) && r.value.Valid()
                                 && r.value.Terms() == checked.value
                                 && r.value.winningPrice == checked.value.startingBid)
    {
      var checked := CheckTerms(id, startingBid, maxBid, autoIncrement, auctionId);
      if checked.Failure? {
        return Failure(checked.error);
      }
      var b := new Bid(checked.value);
      return Success(b);
    }

    /** Java equals: false for null, otherwise the terms agree in everything but the auction id. */
    predicate Equals(other: Bid?)
      ensures Equals(other) <==> other != null && Terms().(auctionId := other.auctionId) == other.Terms()
    {
      other != null && SameOffer(Terms(), other.Terms())
    }

    method SetWinningPrice(price: real)
      modifies this
      ensures winningPrice == price
    {
      winningPrice := price;
    }
  }
}

# Proxy-bidding auction service in Dafny

A model of the bid-resolution core of a small auction service. A bidder submits
a `Bid` made of a bidder id, a starting bid, a maximum bid, an auto-increment
and an auction id. The service keeps one winning `Bid` per auction. When a new
bid arrives for an auction, the service decides two things:

- whether the new bid takes over the auction;
- what the displayed winning price becomes.

It acts as if both bidders had raised their offers one auto-increment at a
time, up to their maximum bids.

Modules, one per concern of the source:

| module | file | models |
|---|---|---|
| `Wrappers` | `wrappers.dfy` | `Option` and `Result` |
| `Increments` | `increments.dfy` | prices reachable by whole increments (the grid `start + k*inc`) |
| `Currency` | `currency.dfy` | stripping `$` and `,` and reading the rest as `new BigDecimal(String)` does |
| `BidModel` | `bid.dfy` | the `Bid` entity: constructor checks, equality, the mutable winning price |
| `Pricing` | `pricing.dfy` | `lowerBoundMaxPotentialSafe`, `maximumPotentialBid`, `relativeWinningPrice` |
| `Resolution` | `resolution.dfy` | the decision `processBid` takes, as a pure function `Resolve` |
| `Service` | `service.dfy` | `AuctionService`: the winner table and `getWinner` / `processBid` |
| `BidExamples` | `bid_examples.dfy` | the `Bid` unit tests, as lemmas about the constructor checks |
| `Scenarios` | `scenarios.dfy` | the service unit tests, as methods that drive an `AuctionService` |

How the model is built:

- **Amounts** are exact rationals (`real`). `BigDecimal.divide(x, 0, DOWN)` and
  `divide(x, 0, UP)` only ever divide positive operands here, so they become the
  floor and the ceiling of the exact quotient.
- **Division by zero.** A zero auto-increment makes these divisions throw
  `ArithmeticException`. In the model that is the error `DivisionByZero`. In the
  source every such division happens before any write, so an error leaves the
  state untouched; `ProcessBid` states this.
- **`Bid` is a class.** Its terms are `const` fields and `winningPrice` is a `var`.
- **`AuctionService` is a class.** It holds a `map<int, Bid>` of references, so the
  model captures the source's aliasing:
  - `GetWinner` returns the stored object itself;
  - `ProcessBid` stores the caller's object;
  - a later bid can change the price that an earlier caller's reference shows
    (`Scenarios.HeldWinnerSeesNewPrice`).
- **`ProcessBid` against its specification.** Its postcondition ties the new table
  and prices to `Resolve` in the old state. The properties of `Resolve` are
  proved as lemmas:
  - the fast dominance test agrees with the exact comparison;
  - the incumbent keeps ties;
  - prices stay on the increment grid within `[startingBid, maxBid]`;
  - the displayed price never falls;
  - the new price covers the loser's maximum potential bid.

Where the source's own comments and its code differ, the model follows the code
(paths below are under `src/main/java/com/auction/services/`):

- **The price only has to reach the loser's potential, not pass it.** The
  comments at `AuctionService.java:92-93` and `:111-112` call the relative
  winning price the increment-aligned value *greater than* the loser's maximum
  potential bid. The helper's own comment at `:204-207` asks only for `>=`, and
  the code rounds up, so the result can equal that potential: a winner
  (2, 10, 2) against a loser with potential 4 is priced at 4, which the unit
  test expects. `Pricing.RelativeWinningPriceSpec` states the code's behaviour:
  the least grid value that is at least the potential.
- **Resubmitting a losing bid raises the price again.** The duplicate check
  (`AuctionService.java:45-49`) only skips a bid equal to the *current winner*.
  The table of references stays unchanged when a losing bid is resubmitted, but
  the winner's price can rise a second time: a winner at 4 facing the loser's
  potential 4 again is treated as a tie and gets one more increment
  (`Resolution.ResubmittedLoserRaisesPrice`). Resubmitting the winning bid
  changes nothing.
- **A zero-increment challenger can win on a tie.** The comments at
  `AuctionService.java:115-116` and `:221-222` promise an extra round "so there
  is no tie". That round adds the challenger's increment, and when that is zero
  the challenger takes the auction at a price equal to the old winner's maximum
  potential bid (`Resolution.ZeroIncrementOvertakesAtTie`). So "an overtake
  strictly exceeds the old potential" holds only for a positive increment, which
  is how `Resolution.ResolvePriceProperties` states it.
- **A zero increment can make a clear decision throw.** Both fast branches
  (`AuctionService.java:87-127`) call the pricing helpers, which divide by an
  increment (`:195`, `:235`). When the dominant bid has a zero increment, or the
  other bid's potential needs a division by zero, `processBid` throws an
  `ArithmeticException` instead of deciding, even though one bid clearly
  dominates (`Resolution.DominanceNeedsIncrements`). The model returns
  `Failure(DivisionByZero)` and leaves the table unchanged.

## Model

Paths are relative to the repository root. `AuctionService.java` is
`src/main/java/com/auction/services/AuctionService.java`, `Bid.java` is
`src/main/java/com/auction/model/Bid.java`, and the tests are under
`src/test/java/com/auction/`.

| member | source | states |
|---|---|---|
| Currency.StripCurrency | src/main/java/com/auction/model/Bid.java:78 | the result holds no `$` or `,`, is no longer than the input, and is exactly as long only when the input had no marks to remove |
| Currency.StripCurrencyConcat | src/main/java/com/auction/model/Bid.java:78 | removing marks works character by character: it distributes over concatenation |
| Currency.StripCurrencyKeepsPlain | src/main/java/com/auction/model/Bid.java:78 | a string without marks is left unchanged, so stripping twice is stripping once |
| Currency.ParseDigits | src/main/java/com/auction/model/Bid.java:78 | a non-empty run of digits parses to its natural value |
| Currency.ParseFixedPoint | src/main/java/com/auction/model/Bid.java:78 | `whole.fraction` parses to whole + fraction / 10^(number of fraction digits) |
| Currency.ParseNegated | src/main/java/com/auction/model/Bid.java:78-81 | a leading `-` negates the parsed value and leaves a malformed numeral malformed |
| BidModel.CheckTerms | src/main/java/com/auction/model/Bid.java:68-99 | any null field gives the null error, and only then. Success holds exactly when every amount parses and 0 <= start <= max, inc >= 0 and auctionId >= 0; the fields are then the parsed amounts. Otherwise the first failing check in source order decides the error |
| BidModel.SameOfferIsEquivalence | src/main/java/com/auction/model/Bid.java:103-132 | bid equality (id, starting, maximum, increment) is reflexive, symmetric and transitive |
| BidModel.Bid.constructor | src/main/java/com/auction/model/Bid.java:68-101 | a bid built from checked terms carries those terms, and its winning price starts at the starting bid |
| BidModel.Bid.Create | src/main/java/com/auction/model/Bid.java:68-101 | the constructor from strings either fails with the error `CheckTerms` gives, or yields a fresh, well-formed bid with the checked terms, priced at its starting bid |
| BidModel.Bid.Equals | src/main/java/com/auction/model/Bid.java:103-132 | false for null; otherwise true exactly when the two bids' terms agree in everything but the auction id (the winning price plays no part) |
| BidModel.Bid.SetWinningPrice | src/main/java/com/auction/model/Bid.java:64-66 | the winning price becomes the given value, and nothing else changes |
| Pricing.CompareTo | src/main/java/com/auction/services/AuctionService.java:170 | `BigDecimal.compareTo`: the result is -1, 0 or 1, negative exactly when a < b and zero exactly when a == b |
| Pricing.Ceiling | src/main/java/com/auction/services/AuctionService.java:234-235 | rounding UP to scale 0: the least integer not below x |
| Pricing.MaximumPotentialBidSpec | src/main/java/com/auction/services/AuctionService.java:189-197 | the starting bid when the maximum equals it. A division error when the increment is zero and the maximum is higher. Otherwise a grid point within [start, max], more than max - inc, and at least every grid point up to max |
| Pricing.RelativeWinningPriceSpec | src/main/java/com/auction/services/AuctionService.java:224-237 | the current price when the loser's potential is below it; one increment more on a tie; a division error for a zero increment; otherwise the least grid point above the current price that is at least the potential |
| Pricing.LowerBoundSafeSound | src/main/java/com/auction/services/AuctionService.java:151-171 | a non-negative fast comparison proves left's maximum potential bid is at least right's, and a positive one proves it is strictly greater |
| Pricing.PriceWithinPotential | src/main/java/com/auction/services/AuctionService.java:174-197 | a price on the bid's grid that does not pass its maximum never exceeds its maximum potential bid |
| Resolution.ResolveAgreesWithExactComparison | src/main/java/com/auction/services/AuctionService.java:87-146 | whenever both potentials exist, the new bid wins exactly when its maximum potential bid is strictly greater than the winner's, whichever branch decides it; the incumbent keeps ties |
| Resolution.ResolvePriceProperties | src/main/java/com/auction/services/AuctionService.java:87-146 | the price decided keeps the grid-and-bounds invariant of the bid that holds it and is no lower than the previous price. It covers the loser's maximum potential bid, and with a positive increment an overtake beats it strictly |
| Resolution.KeepIncumbentPrice | src/main/java/com/auction/services/AuctionService.java:87-99 | in the clear-incumbent branch the winner's new price is on its grid, within its maximum, at least its old price, and at least the challenger's potential |
| Resolution.OvertakePrice | src/main/java/com/auction/services/AuctionService.java:106-127 | in the clear-overtake branch the new bid's price is on its grid, within its maximum, at least the old winner's potential, and strictly above it when the increment is positive |
| Resolution.ExactComparisonPrice | src/main/java/com/auction/services/AuctionService.java:130-146 | in the close branch the decision is the larger exact potential, the incumbent on ties, and each potential keeps its bid's invariant |
| Resolution.DominanceEitherOrder | src/main/java/com/auction/services/AuctionService.java:87-127 | when the dominant bid has a positive increment and the other bid's maximum potential bid is defined, a bid whose lower bound passes the other's maximum wins in either submission order: kept (or out of reach) as incumbent, overtaking strictly above the other's potential as challenger |
| Resolution.DominanceNeedsIncrements | src/main/java/com/auction/services/AuctionService.java:87-127 | without those two conditions dominance is not decided: a=(1, 10, 0) against b=(2, 5, 1) fails with a division by zero in both orders, and a=(1, 10, 1) as incumbent against b=(1, 5, 0) fails the same way |
| Resolution.Resolve | src/main/java/com/auction/services/AuctionService.java:36-146 | an empty auction installs the bid, and only then; an offer equal to the winner's is a duplicate, and only then; a failure needs a zero increment on one side. The branches are specified further by `ResolveAgreesWithExactComparison` and `ResolvePriceProperties` |
| Pricing.LowerBoundMaxPotentialSafe | src/main/java/com/auction/services/AuctionService.java:151-171 | the fast comparison is -1, 0 or 1; it is non-negative exactly when right's maximum is at most left's maximum less one increment, and positive exactly when strictly less (soundness in `LowerBoundSafeSound`) |
| Pricing.MaximumPotentialBid | src/main/java/com/auction/services/AuctionService.java:189-197 | fails exactly when the maximum is above the start and the increment is zero; otherwise lies between the starting bid and the maximum (full characterisation in `MaximumPotentialBidSpec`) |
| Pricing.RelativeWinningPrice | src/main/java/com/auction/services/AuctionService.java:224-237 | fails exactly when the loser's potential is above the current price and the increment is zero; otherwise never below the current price (full characterisation in `RelativeWinningPriceSpec`) |
| Currency.ParseDecimal | src/main/java/com/auction/model/Bid.java:78-81 | only a leading `-` yields a negative amount, which the constructor then rejects (the digit, fixed-point and sign cases are stated by `ParseDigits`, `ParseFixedPoint` and `ParseNegated`) |
| Currency.ParseAmount | src/main/java/com/auction/model/Bid.java:78-91 | the three amounts are read after removing `$` and `,`; an amount written without them is read as a plain numeral |
| Resolution.ZeroIncrementOvertakesAtTie | src/main/java/com/auction/services/AuctionService.java:115-119 | with a zero increment the tie round adds nothing: the challenger takes the auction at exactly the old winner's maximum potential bid |
| Resolution.ResubmittedLoserRaisesPrice | src/main/java/com/auction/services/AuctionService.java:45-99 | the same losing bid submitted twice raises the winner's price twice (2 to 4, then 4 to 6) |
| Service.NoEntriesConstructs | src/main/java/com/auction/services/AuctionService.java:22-30 | the placeholder's arguments ("No entries.", "0", "0", "0", id) pass every constructor check for any id >= 0, so the internal-server-error path cannot be taken |
| Service.AuctionService.constructor | src/main/java/com/auction/services/AuctionService.java:15 | the winner table starts empty |
| Service.AuctionService.GetWinner | src/main/java/com/auction/services/AuctionService.java:17-31 | a missing or negative id is a bad request. A stored winner is returned as the same object. Otherwise a fresh "No entries." bid with zero amounts, which is not stored |
| Service.AuctionService.ProcessBid | src/main/java/com/auction/services/AuctionService.java:33-147 | a null bid is ignored. Otherwise the decision `Resolve` takes in the old state fixes the thrown error, the new table (new bid stored only when it wins) and the new prices of the bid and of the previous winner. Other auctions are untouched, the auction's price never falls, and every stored bid stays on its grid within its bounds |
| BidExamples.ConstructAllProperties | src/test/java/com/auction/model/BidTest.java:29-41 | "$2.00", "$14.00", "$1.50" and auction 1 make a bid of 2 to 14 in steps of 1.5 |
| BidExamples.NullInput | src/test/java/com/auction/model/BidTest.java:43-46 | all-null arguments give the null error |
| BidExamples.NegativeInput | src/test/java/com/auction/model/BidTest.java:48-51 | "-$11.00" as starting bid is rejected as negative |
| BidExamples.EqualAndUnequalBids | src/test/java/com/auction/model/BidTest.java:53-63 | bids from the same strings are equal; an increment of "$1.00" instead of "$1.50" makes them unequal |
| BidExamples.MaximumBidLessThanStartingBid | src/test/java/com/auction/model/BidTest.java:65-68 | a maximum of "$1.00" under a starting bid of "$2.00" is rejected |
| BidExamples.NegativeAuctionIdRejected | src/test/java/com/auction/model/BidTest.java:70-73 | auction id -1 is rejected after all amounts pass |
| BidExamples.AmountThousand | src/test/java/com/auction/services/AuctionServiceTest.java:31 | "$1,000" reads as 1000 |
| Scenarios.WinnerAfterFirstBid | src/test/java/com/auction/services/AuctionServiceTest.java:28-53 | after the first bid of an auction, GetWinner returns that very bid, priced at its starting bid |
| Scenarios.WinnerOfEmptyAuction | src/test/java/com/auction/services/AuctionServiceTest.java:55-61 | an auction without bids answers with a bid equal to the placeholder, priced 0, and nothing is stored |
| Scenarios.WinnerOfInvalidAuction | src/test/java/com/auction/services/AuctionServiceTest.java:63-73 | a null and a negative auction id are bad requests |
| Scenarios.InitializeWinner | src/test/java/com/auction/services/AuctionServiceTest.java:79-89 | the placeholder before the first bid, the bid itself after it |
| Scenarios.DuplicateBid | src/test/java/com/auction/services/AuctionServiceTest.java:91-105 | submitting the same bid twice leaves the same winner at the same price |
| Scenarios.SameBidderNewTerms | src/test/java/com/auction/services/AuctionServiceTest.java:108-127 | a bidder's raised offer (2, 8, 2) replaces their first one (2, 6, 0.5) at price 8 |
| Scenarios.ChallengerOutOfReach | src/test/java/com/auction/services/AuctionServiceTest.java:130-143 | a maximum of 90 against a price of 100 leaves the winner and its price as they were |
| Scenarios.SameWinnerRelativePrice | src/test/java/com/auction/services/AuctionServiceTest.java:145-162 | winner (2, 10, 2) against (0, 4, 4): the winner stays, at 4 |
| Scenarios.TieSameWinnerRelativePrice | src/test/java/com/auction/services/AuctionServiceTest.java:165-182 | winner (2, 6, 2) against (2, 4, 2): the winner stays, at 4 |
| Scenarios.ReplaceWinnerRelativePrice | src/test/java/com/auction/services/AuctionServiceTest.java:184-201 | winner (2, 6, 2) against (2, 15, 2): the challenger wins at 8 (potential 6, plus the tie round) |
| Scenarios.SameWinnerMaximumPrice | src/test/java/com/auction/services/AuctionServiceTest.java:203-221 | potentials 16 against 14: the winner stays, at 16 |
| Scenarios.TieSameWinnerMaximumPrice | src/test/java/com/auction/services/AuctionServiceTest.java:223-241 | equal potentials 16: the earlier bid stays, at 16 |
| Scenarios.NewWinnerMaximumPrice | src/test/java/com/auction/services/AuctionServiceTest.java:243-260 | potentials 17 against 16: the challenger wins, at 17 |
| Scenarios.HeldWinnerSeesNewPrice | src/main/java/com/auction/services/AuctionService.java:21-27 | a winner reference obtained from GetWinner shows the price a later bid sets (2, then 4), because the table hands out the stored object |

## Left out

- Concurrency: the source keeps its table in a `ConcurrentHashMap` and does nothing else to guard it. The model is sequential, so interleavings of two `processBid` calls are not modelled.
- HTTP resources, JSON (de)serialisation, validation annotations, the health check, the application class, and the `Winner` / `ProcessedBid` response records. These are transport around the core.
- BigDecimal scale and precision: amounts are exact rationals. `2.0` and `2.00` are the same value here, and they also compare equal with `compareTo` in the source, which is all the core uses.
- Currency.ParseDecimal: reads only ASCII digits, and its exponent has no 32-bit bound. BigDecimal also accepts other Unicode digits and rejects exponents beyond the int range.
- Service.AuctionService.ProcessBid: requires every bid it meets to be well formed, its price included (`Bid.Valid`). That holds for bids built by the constructor and for bids whose price only the service has set. Fields are never null, so the null-field test reduces to `newBid == null`.
- Service.AuctionService.GetWinner: has no internal-server-error result, because `Service.NoEntriesConstructs` proves that branch unreachable.
- Resolution.DominanceEitherOrder: requires a positive increment on the dominant bid and a defined maximum potential bid for the other, because without them `processBid` throws an `ArithmeticException` (`AuctionService.java:195`, `:235`) rather than deciding; `Resolution.DominanceNeedsIncrements` shows both failures.
- BidModel.Bid.SetWinningPrice: accepts any value, as the public setter does. The grid invariant is kept by `ProcessBid`, not by the setter.
- The getters are plain field reads and have no members of their own.

/**
 * The Bid constructor on the amounts of its unit tests: currency marks are
 * removed, the rest is read exactly, and the first failing check decides the
 * error. Each amount is read in two steps, stripping then parsing.
 */
module BidExamples {
  import opened Wrappers
  import opened Currency
  import opened BidModel

  /** A leading '$' before plain text is all that is removed. */
  lemma StripDollar(s: string)
    requires NoCurrencyMarks(s)
    ensures StripCurrency("$" + s) == s
  {
    StripCurrencyConcat("$", s);
    StripCurrencyKeepsPlain(s);
  }

  lemma StripTwo() ensures StripCurrency("$2.00") == "2.00" {
    assert "$2.00" == "$" + "2.00";
    StripDollar("2.00");
  }

  lemma StripFourteen() ensures StripCurrency("$14.00") == "14.00" {
    assert "$14.00" == "$" + "14.00";
    StripDollar("14.00");
  }

  lemma StripOneFifty() ensures StripCurrency("$1.50") == "1.50" {
    assert "$1.50" == "$" + "1.50";
    StripDollar("1.50");
  }

  lemma StripOne() ensures StripCurrency("$1.00") == "1.00" {
    assert "$1.00" == "$" + "1.00";
    StripDollar("1.00");
  }

  lemma StripMinusEleven() ensures StripCurrency("-$11.00") == "-" + "11.00" {
    assert "-$11.00" == "-" + ("$" + "11.00");
    StripDollar("11.00");
    StripCurrencyConcat("-", "$" + "11.00");
    StripCurrencyKeepsPlain("-");
  }

  /** A leading currency mark is dropped and the rest is stripped as it was. */
  lemma StripMark(c: char, s: string)
    requires IsCurrencyMark(c)
    ensures StripCurrency([c] + s) == StripCurrency(s)
  {
    var t := [c] + s;
    assert t[0] == c && t[1..] == s;
  }

  /** A ',' between two plain parts is all that is removed. */
  lemma StripComma(a: string, b: string)
    requires NoCurrencyMarks(a) && NoCurrencyMarks(b)
    ensures StripCurrency(a + ([','] + b)) == a + b
  {
    StripCurrencyConcat(a, [','] + b);
    StripMark(',', b);
    StripCurrencyKeepsPlain(a);
    StripCurrencyKeepsPlain(b);
  }

  lemma StripThousand() ensures StripCurrency("$1,000") == "1000" {
    assert "$1,000" == ['$'] + ("1" + ([','] + "000"));
    StripMark('$', "1" + ([','] + "000"));
    StripComma("1", "000");
    assert "1" + "000" == "1000";
  }

  /** A fixed-point numeral whose value is already known. */
  lemma ParseKnownFixed(whole: string, fraction: string, v: real)
    requires AllDigits(whole) && AllDigits(fraction) && whole != []
    requires FixedValue(whole, fraction) == v
    ensures ParseDecimal(whole + "." + fraction) == Some(v)
  {
    ParseFixedPoint(whole, fraction);
  }

  lemma ParseTwo() ensures ParseDecimal("2.00") == Some(2.0) {
    assert "2.00" == "2" + "." + "00";
    assert DigitsValue("00") == 0 by { assert "00"[..1] == "0"; }
    ParseKnownFixed("2", "00", 2.0);
  }

  lemma ParseFourteen() ensures ParseDecimal("14.00") == Some(14.0) {
    assert "14.00" == "14" + "." + "00";
    assert FixedValue("14", "00") == 14.0 by {
      assert DigitsValue("14") == 14 by { assert "14"[..1] == "1"; }
      assert DigitsValue("00") == 0 by { assert "00"[..1] == "0"; }
    }
    ParseKnownFixed("14", "00", 14.0);
  }

  lemma ParseOneFifty() ensures ParseDecimal("1.50") == Some(1.5) {
    assert "1.50" == "1" + "." + "50";
    assert FixedValue("1", "50") == 1.5 by {
      assert DigitsValue("50") == 50 by { assert "50"[..1] == "5"; }
      assert Pow10(2) == 100;
    }
    ParseKnownFixed("1", "50", 1.5);
  }

  lemma ParseOne() ensures ParseDecimal("1.00") == Some(1.0) {
    assert "1.00" == "1" + "." + "00";
    assert DigitsValue("00") == 0 by { assert "00"[..1] == "0"; }
    ParseKnownFixed("1", "00", 1.0);
  }

  lemma ParseEleven() ensures ParseDecimal("11.00") == Some(11.0) {
    assert "11.00" == "11" + "." + "00";
    assert FixedValue("11", "00") == 11.0 by {
      assert DigitsValue("11") == 11 by { assert "11"[..1] == "1"; }
      assert DigitsValue("00") == 0 by { assert "00"[..1] == "0"; }
    }
    ParseKnownFixed("11", "00", 11.0);
  }

  lemma ParseMinusEleven() ensures ParseDecimal("-" + "11.00") == Some(-11.0) {
    ParseEleven();
    ParseNegated("11.00");
  }

  lemma ParseThousand() ensures ParseDecimal("1000") == Some(1000.0) {
    ParseDigits("1000");
    assert DigitsValue("10") == 10 by { assert "10"[..1] == "1"; }
    assert DigitsValue("100") == 100 by { assert "100"[..2] == "10"; }
    assert DigitsValue("1000") == 1000 by { assert "1000"[..3] == "100"; }
  }

  lemma AmountTwo() ensures ParseAmount("$2.00") == Some(2.0) { StripTwo(); ParseTwo(); }
  lemma AmountFourteen() ensures ParseAmount("$14.00") == Some(14.0) { StripFourteen(); ParseFourteen(); }
  lemma AmountOneFifty() ensures ParseAmount("$1.50") == Some(1.5) { StripOneFifty(); ParseOneFifty(); }
  lemma AmountOne() ensures ParseAmount("$1.00") == Some(1.0) { StripOne(); ParseOne(); }
  lemma AmountMinusEleven() ensures ParseAmount("-$11.00") == Some(-11.0) { StripMinusEleven(); ParseMinusEleven(); }
  lemma AmountThousand() ensures ParseAmount("$1,000") == Some(1000.0) { StripThousand(); ParseThousand(); }

  /** "$2.00", "$14.00", "$1.50" make a bid of 2 to 14 in steps of 1.5. */
  lemma ConstructAllProperties()
    ensures CheckTerms(Some("JohnDoe123"), Some("$2.00"), Some("$14.00"), Some("$1.50"), Some(1))
            == Success(BidTerms("JohnDoe123", 2.0, 14.0, 1.5, 1))
  {
    AmountTwo();
    AmountFourteen();
    AmountOneFifty();
  }

  /** All fields null: the null check fires first. */
  lemma NullInput()
    ensures CheckTerms(None, None, None, None, None) == Failure(NullField)
  {
  }

  /** "-$11.00" strips to a negative starting bid. */
  lemma NegativeInput()
    ensures CheckTerms(Some("JohnDoe123"), Some("-$11.00"), Some("$14.00"), Some("$1.50"), Some(1))
            == Failure(NegativeStartingBid)
  {
    AmountMinusEleven();
  }

  /** A maximum of 1 below a starting bid of 2. */
  lemma MaximumBidLessThanStartingBid()
    ensures CheckTerms(Some("JohnDoe123"), Some("$2.00"), Some("$1.00"), Some("$1.50"), Some(1))
            == Failure(MaxBelowStart)
  {
    AmountTwo();
    AmountOne();
  }

  /** Valid amounts but auction id -1. */
  lemma NegativeAuctionIdRejected()
    ensures CheckTerms(Some("JohnDoe123"), Some("$2.00"), Some("$14.00"), Some("$1.50"), Some(-1))
            == Failure(NegativeAuctionId)
  {
    AmountTwo();
    AmountFourteen();
    AmountOneFifty();
  }

  /** "$1.00" as the increment gives a step of 1. */
  lemma SmallerIncrement()
    ensures CheckTerms(Some("JohnDoe123"), Some("$2.00"), Some("$14.00"), Some("$1.00"), Some(1))
            == Success(BidTerms("JohnDoe123", 2.0, 14.0, 1.0, 1))
  {
    AmountTwo();
    AmountFourteen();
    AmountOne();
  }

  /** Bids built from the same strings are equal; a different increment ("$1.00") makes them unequal. */
  method EqualAndUnequalBids() returns (equal: bool, unequal: bool)
    ensures equal && !unequal
  {
    ConstructAllProperties();
    SmallerIncrement();
    var bid := Bid.Create(Some("JohnDoe123"), Some("$2.00"), Some("$14.00"), Some("$1.50"), Some(1));
    var other := Bid.Create(Some("JohnDoe123"), Some("$2.00"), Some("$14.00"), Some("$1.50"), Some(1));
    var bad := Bid.Create(Some("JohnDoe123"), Some("$2.00"), Some("$14.00"), Some("$1.00"), Some(1));
    equal := bid.value.Equals(other.value);
    unequal := bid.value.Equals(bad.value);
  }
}

/**
  Concrete pages for Obramat's structured-data branch: a pack price divided
  down to a unit price, and three ways this branch differs from
  `extractPrice` (only the first comma is touched, there is no upper bound,
  and rounding can turn a positive offer into 0).
*/
module ObramatCases {
  import opened Wrappers
  import opened NumericText
  import opened Patterns
  import opened Obramat
  import CaptureCases
  import PriceExtractor

  /** A page none of whose quantity phrasings match: the quantity is 1. */
  lemma NoQuantityMatch(html: string, engine: Engine)
    requires forall i :: 0 <= i < |QUANTITY_PATTERNS| ==> engine(QUANTITY_PATTERNS[i], html).None?
    ensures DetectQuantity(html, engine) == Some(1)
  {
  }

  /**
    An offer of "12,50" on a page whose first quantity phrasing is "pack de 5"
    is a unit price of 2.50, whatever the pattern fall-through would say.
  */
  lemma OfferTwelveFifty(html: string, engine: Engine)
    requires engine(OFFERS_PATTERN, html) == Some("12,50")
    ensures OfferPrice(html, engine) == Some(12.5)
  {
    CaptureCases.ReplaceTwelveFifty();
    CaptureCases.ParseTwelveFifty();
  }

  lemma PackDeFive(html: string, engine: Engine)
    requires engine(QUANTITY_PATTERNS[0], html).None? && engine(QUANTITY_PATTERNS[1], html).None?
    requires engine(QUANTITY_PATTERNS[2], html) == Some("5")
    ensures DetectQuantity(html, engine) == Some(5)
  {
    assert IsFirstMatch(html, QUANTITY_PATTERNS, engine, 2);
    QuantityFirstPatternWins(html, engine, 2);
    ParseIntDigits("5");
    assert NatOf("5") == 5;
  }

  lemma TwelveFiftyOverFive()
    ensures ToFixed2(UnitPrice(12.5, Some(5))) == 2.5
  {
    assert UnitPrice(12.5, Some(5)) == Cents(250);
    ToFixed2OfCents(250);
  }

  lemma PackOfFive(html: string, engine: Engine, extract: HtmlExtractor)
    requires engine(OFFERS_PATTERN, html) == Some("12,50")
    requires engine(QUANTITY_PATTERNS[0], html).None? && engine(QUANTITY_PATTERNS[1], html).None?
    requires engine(QUANTITY_PATTERNS[2], html) == Some("5")
    ensures OfferPrice(html, engine) == Some(12.5)
    ensures DetectQuantity(html, engine) == Some(5)
    ensures PriceFromPage(html, engine, extract) == Some(2.5)
  {
    OfferTwelveFifty(html, engine);
    PackDeFive(html, engine);
    TwelveFiftyOverFive();
  }

  lemma ReplaceThousandsOfferComma()
    ensures ReplaceFirstComma("1.234,56") == "1.234.56"
  {
    ReplaceFirstCommaAt("1.234,56", 5);
    assert "1.234,56"[..5] == "1.234" && "1.234,56"[6..] == "56";
  }

  lemma ParseThousandsOfferDecimal()
    ensures ParseFloat("1.234.56") == Some(DecimalValue("1", "234"))
  {
    assert "1.234.56" == "1" + "." + "234" + ".56";
    ParseFloatDecimal("1", "234", ".56");
  }

  lemma OnePoint234()
    ensures DecimalValue("1", "234") == 1.234
  {
    assert "234"[..2] == "23";
    assert "23"[..1] == "2";
    assert NatOf("1") == 1 && NatOf("234") == 234 && Pow10(3) == 1000;
  }

  lemma ParseThousandsOffer()
    ensures ParseFloat("1.234.56") == Some(1.234)
  {
    ParseThousandsOfferDecimal();
    OnePoint234();
  }

  /**
    The offer branch only turns the first comma into a dot and keeps the
    thousands dot, so "1.234,56" is read as 1.234 and reported as 1.23, where
    `extractPrice`'s clean-up reads the same text as 1234.56.
  */
  lemma OfferThousandsReadAsDecimal(html: string, engine: Engine, extract: HtmlExtractor)
    requires engine(OFFERS_PATTERN, html) == Some("1.234,56")
    requires forall i :: 0 <= i < |QUANTITY_PATTERNS| ==> engine(QUANTITY_PATTERNS[i], html).None?
    ensures PriceFromPage(html, engine, extract) == Some(1.23)
    ensures PriceExtractor.CapturePrice(Some("1.234,56")) == Some(1234.56)
  {
    ReplaceThousandsOfferComma();
    ParseThousandsOffer();
    NoQuantityMatch(html, engine);
    ToFixed2Unique(1.234, 123);
    CaptureCases.CaptureThousandsDot();
  }

  lemma ParseFiftyThousandInteger()
    ensures ParseFloat("50000") == Some(NatOf("50000") as real)
  {
    ParseFloatInteger("50000", "");
    assert "50000" + "" == "50000";
  }

  lemma NatOfFiftyThousand()
    ensures NatOf("50000") == 50000
  {
    assert "50000"[..4] == "5000";
    assert "5000"[..3] == "500";
    assert "500"[..2] == "50";
    assert "50"[..1] == "5";
  }

  lemma ParseFiftyThousand()
    ensures ParseFloat("50000") == Some(50000.0)
  {
    ParseFiftyThousandInteger();
    NatOfFiftyThousand();
  }

  /** The offer branch has no upper bound: 50000 passes, where `extractPrice` would skip it. */
  lemma OfferHasNoUpperBound(html: string, engine: Engine, extract: HtmlExtractor)
    requires engine(OFFERS_PATTERN, html) == Some("50000")
    requires forall i :: 0 <= i < |QUANTITY_PATTERNS| ==> engine(QUANTITY_PATTERNS[i], html).None?
    ensures PriceFromPage(html, engine, extract) == Some(50000.0)
  {
    assert ',' !in "50000";
    ParseFiftyThousand();
    NoQuantityMatch(html, engine);
    assert Cents(5000000) == 50000.0;
    ToFixed2OfCents(5000000);
  }

  lemma ReplaceTinyOfferComma()
    ensures ReplaceFirstComma("0,004") == "0.004"
  {
    ReplaceFirstCommaAt("0,004", 1);
    assert "0,004"[..1] == "0" && "0,004"[2..] == "004";
  }

  lemma ParseTinyOfferDecimal()
    ensures ParseFloat("0.004") == Some(DecimalValue("0", "004"))
  {
    assert "0.004" == "0" + "." + "004" + "";
    ParseFloatDecimal("0", "004", "");
  }

  lemma TinyOfferValue()
    ensures DecimalValue("0", "004") == 0.004
  {
    assert "004"[..2] == "00";
    assert "00"[..1] == "0";
    assert NatOf("0") == 0 && NatOf("004") == 4 && Pow10(3) == 1000;
  }

  lemma ParseTinyOffer()
    ensures ParseFloat("0.004") == Some(0.004)
  {
    ParseTinyOfferDecimal();
    TinyOfferValue();
  }

  /** A positive offer below half a cent is rounded to 0, and 0 (not `None`) is returned. */
  lemma TinyOfferRoundsToZero(html: string, engine: Engine, extract: HtmlExtractor)
    requires engine(OFFERS_PATTERN, html) == Some("0,004")
    requires forall i :: 0 <= i < |QUANTITY_PATTERNS| ==> engine(QUANTITY_PATTERNS[i], html).None?
    ensures OfferPrice(html, engine) == Some(0.004)
    ensures PriceFromPage(html, engine, extract) == Some(0.0)
  {
    ReplaceTinyOfferComma();
    ParseTinyOffer();
    NoQuantityMatch(html, engine);
    ToFixed2Unique(0.004, 0);
  }
}

/**
  Concrete captures run through `extractPrice`'s clean-and-parse step. They
  show how the clean-up reads the two decimal conventions a retailer page may
  use: a comma is a decimal separator, a dot is deleted like any other
  character, so a dot-decimal capture is read a hundred times too large.
  Each step (delete, replace, parse, evaluate) is its own small lemma.
*/
module CaptureCases {
  import opened Wrappers
  import opened NumericText
  import opened PriceExtractor

  /** Connects the three steps: a non-empty capture, its cleaned text, the number parsed from it. */
  lemma CapturePriceOf(capture: string, cleaned: string, value: real)
    requires capture != "" && CleanPriceText(capture) == cleaned && ParseFloat(cleaned) == Some(value)
    ensures CapturePrice(Some(capture)) == if InRange(value) then Some(value) else None
  {
  }

  // "12,50 €": a European decimal comma with a currency suffix.

  lemma DropEuroSuffix()
    ensures KeepDigitsAndCommas(" €") == ""
  {
    assert " €"[1..] == "€";
    assert KeepDigitsAndCommas("€") == "";
  }

  lemma KeepTwelveFifty()
    ensures KeepDigitsAndCommas("12,50") == "12,50"
  {
    KeepDigitsAndCommasFixpoint("12,50");
  }

  lemma KeepEuroSuffix()
    ensures KeepDigitsAndCommas("12,50 €") == "12,50"
  {
    DropEuroSuffix();
    KeepTwelveFifty();
    KeepDigitsAndCommasAppend("12,50", " €");
    assert "12,50" + " €" == "12,50 €";
  }

  lemma ReplaceTwelveFifty()
    ensures ReplaceFirstComma("12,50") == "12.50"
  {
    ReplaceFirstCommaAt("12,50", 2);
    assert "12,50"[..2] == "12" && "12,50"[3..] == "50";
  }

  lemma ParseTwelveFiftyDecimal()
    ensures ParseFloat("12.50") == Some(DecimalValue("12", "50"))
  {
    assert "12.50" == "12" + "." + "50" + "";
    ParseFloatDecimal("12", "50", "");
  }

  lemma TwelveFiftyValue()
    ensures DecimalValue("12", "50") == 12.5
  {
    assert "12"[..1] == "1";
    assert "50"[..1] == "5";
    assert NatOf("12") == 12 && NatOf("50") == 50 && Pow10(2) == 100;
  }

  lemma ParseTwelveFifty()
    ensures ParseFloat("12.50") == Some(12.5)
  {
    ParseTwelveFiftyDecimal();
    TwelveFiftyValue();
  }

  lemma CaptureEuropeanDecimal()
    ensures CapturePrice(Some("12,50 €")) == Some(12.5)
  {
    KeepEuroSuffix();
    ReplaceTwelveFifty();
    ParseTwelveFifty();
    CapturePriceOf("12,50 €", "12.50", 12.5);
  }

  // "1.234,56": a European thousands dot, deleted by the clean-up.

  lemma KeepAfterThousandsDot()
    ensures KeepDigitsAndCommas("." + "234,56") == "234,56"
  {
    KeepDigitsAndCommasAppend(".", "234,56");
    KeepDigitsAndCommasFixpoint("234,56");
    assert KeepDigitsAndCommas(".") == "";
  }

  lemma KeepThousandsDot()
    ensures KeepDigitsAndCommas("1.234,56") == "1234,56"
  {
    KeepAfterThousandsDot();
    assert "1.234,56" == "1" + ("." + "234,56");
    KeepDigitsAndCommasAppend("1", "." + "234,56");
    KeepDigitsAndCommasFixpoint("1");
    assert "1" + "234,56" == "1234,56";
  }

  lemma ReplaceThousandsComma()
    ensures ReplaceFirstComma("1234,56") == "1234.56"
  {
    ReplaceFirstCommaAt("1234,56", 4);
    assert "1234,56"[..4] == "1234" && "1234,56"[5..] == "56";
  }

  lemma NatOfThousands()
    ensures NatOf("1234") == 1234
  {
    assert "1234"[..3] == "123";
    assert "123"[..2] == "12";
    assert "12"[..1] == "1";
    assert NatOf("12") == 12;
    assert NatOf("123") == 123;
  }

  lemma ThousandsValue()
    ensures DecimalValue("1234", "56") == 1234.56
  {
    NatOfThousands();
    assert "56"[..1] == "5";
    assert NatOf("56") == 56 && Pow10(2) == 100;
  }

  lemma ParseThousandsDecimal()
    ensures ParseFloat("1234.56") == Some(DecimalValue("1234", "56"))
  {
    assert "1234.56" == "1234" + "." + "56" + "";
    ParseFloatDecimal("1234", "56", "");
  }

  lemma CaptureThousandsDot()
    ensures CapturePrice(Some("1.234,56")) == Some(1234.56)
  {
    KeepThousandsDot();
    ReplaceThousandsComma();
    ParseThousandsDecimal();
    ThousandsValue();
    CapturePriceOf("1.234,56", "1234.56", 1234.56);
  }

  // "12.50": a decimal dot, which the clean-up also deletes.

  lemma KeepAfterDecimalDot()
    ensures KeepDigitsAndCommas("." + "50") == "50"
  {
    KeepDigitsAndCommasAppend(".", "50");
    KeepDigitsAndCommasFixpoint("50");
    assert KeepDigitsAndCommas(".") == "";
  }

  lemma KeepDecimalDot()
    ensures KeepDigitsAndCommas("12.50") == "1250"
  {
    KeepAfterDecimalDot();
    assert "12.50" == "12" + ("." + "50");
    KeepDigitsAndCommasAppend("12", "." + "50");
    KeepDigitsAndCommasFixpoint("12");
    assert "12" + "50" == "1250";
  }

  lemma ReplaceWithoutComma()
    ensures ReplaceFirstComma("1250") == "1250"
  {
    assert ',' !in "1250";
  }

  lemma ParseTwelveHundredFiftyInteger()
    ensures ParseFloat("1250") == Some(NatOf("1250") as real)
  {
    ParseFloatInteger("1250", "");
    assert "1250" + "" == "1250";
  }

  lemma NatOfTwelveHundredFifty()
    ensures NatOf("1250") == 1250
  {
    assert "1250"[..3] == "125";
    assert "125"[..2] == "12";
    assert "12"[..1] == "1";
  }

  lemma CaptureDecimalDotIsDeleted()
    ensures CapturePrice(Some("12.50")) == Some(1250.0)
  {
    KeepDecimalDot();
    ReplaceWithoutComma();
    ParseTwelveHundredFiftyInteger();
    NatOfTwelveHundredFifty();
    CapturePriceOf("12.50", "1250", 1250.0);
  }

  // "1,2,3": only the first comma becomes a dot; parseFloat stops at the second.

  lemma KeepLaterCommas()
    ensures KeepDigitsAndCommas("1,2,3") == "1,2,3"
  {
    KeepDigitsAndCommasFixpoint("1,2,3");
  }

  lemma ReplaceLaterCommas()
    ensures ReplaceFirstComma("1,2,3") == "1.2,3"
  {
    ReplaceFirstCommaAt("1,2,3", 1);
    assert "1,2,3"[..1] == "1" && "1,2,3"[2..] == "2,3";
  }

  lemma ParseStopsAtCommaDecimal()
    ensures ParseFloat("1.2,3") == Some(DecimalValue("1", "2"))
  {
    assert "1.2,3" == "1" + "." + "2" + ",3";
    ParseFloatDecimal("1", "2", ",3");
  }

  lemma OnePointTwoValue()
    ensures DecimalValue("1", "2") == 1.2
  {
    assert NatOf("1") == 1 && NatOf("2") == 2 && Pow10(1) == 10;
  }

  lemma CaptureLaterCommasSurvive()
    ensures CleanPriceText("1,2,3") == "1.2,3"
    ensures CapturePrice(Some("1,2,3")) == Some(1.2)
  {
    KeepLaterCommas();
    ReplaceLaterCommas();
    ParseStopsAtCommaDecimal();
    OnePointTwoValue();
    CapturePriceOf("1,2,3", "1.2,3", 1.2);
  }

  // Values at or beyond the bounds are skipped.

  lemma CleanTwelveThousand()
    ensures CleanPriceText("12000") == "12000"
  {
    KeepDigitsAndCommasFixpoint("12000");
    assert ',' !in "12000";
  }

  lemma ParseTwelveThousandInteger()
    ensures ParseFloat("12000") == Some(NatOf("12000") as real)
  {
    ParseFloatInteger("12000", "");
    assert "12000" + "" == "12000";
  }

  lemma NatOfTwelveThousand()
    ensures NatOf("12000") == 12000
  {
    assert "12000"[..4] == "1200";
    assert "1200"[..3] == "120";
    assert "120"[..2] == "12";
    assert "12"[..1] == "1";
  }

  lemma CaptureTooLarge()
    ensures CapturePrice(Some("12000")) == None
  {
    CleanTwelveThousand();
    ParseTwelveThousandInteger();
    NatOfTwelveThousand();
    CapturePriceOf("12000", "12000", 12000.0);
  }

  lemma KeepZero()
    ensures KeepDigitsAndCommas("0,00") == "0,00"
  {
    KeepDigitsAndCommasFixpoint("0,00");
  }

  lemma ReplaceZero()
    ensures ReplaceFirstComma("0,00") == "0.00"
  {
    ReplaceFirstCommaAt("0,00", 1);
    assert "0,00"[..1] == "0" && "0,00"[2..] == "00";
  }

  lemma ParseZeroDecimal()
    ensures ParseFloat("0.00") == Some(DecimalValue("0", "00"))
  {
    assert "0.00" == "0" + "." + "00" + "";
    ParseFloatDecimal("0", "00", "");
  }

  lemma ZeroValue()
    ensures DecimalValue("0", "00") == 0.0
  {
    assert "00"[..1] == "0";
    assert NatOf("0") == 0 && NatOf("00") == 0;
  }

  lemma CaptureZero()
    ensures CapturePrice(Some("0,00")) == None
  {
    KeepZero();
    ReplaceZero();
    ParseZeroDecimal();
    ZeroValue();
    CapturePriceOf("0,00", "0.00", 0.0);
  }
}

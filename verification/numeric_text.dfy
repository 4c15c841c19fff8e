/**
  The text-to-number steps of the scrapers: the capture clean-up of
  `extractPrice`, the first-comma replacement, and the parts of JavaScript's
  `parseFloat`, `parseInt` and `Number.prototype.toFixed(2)` that the
  scrapers rely on. Numbers are exact reals; IEEE-754 rounding is not modelled.
*/
module NumericText {
  import opened Wrappers

  predicate IsDigit(c: char) {
    '0' <= c <= '9'
  }

  predicate AllDigits(s: string) {
    forall i :: 0 <= i < |s| ==> IsDigit(s[i])
  }

  /** Characters that survive the global replace of `[^\d,]` by nothing. */
  predicate IsDigitOrComma(c: char) {
    IsDigit(c) || c == ','
  }

  // ---------------------------------------------------------------------------
  // Cleaning a capture
  // ---------------------------------------------------------------------------

  /** Deletes every character that is neither an ASCII digit nor a comma. */
  function KeepDigitsAndCommas(s: string): (r: string)
    ensures forall i :: 0 <= i < |r| ==> IsDigitOrComma(r[i])
    ensures |r| <= |s|
  {
    if |s| == 0 then ""
    else if IsDigitOrComma(s[0]) then [s[0]] + KeepDigitsAndCommas(s[1..])
    else KeepDigitsAndCommas(s[1..])
  }

  /** The deletion works character by character: it commutes with concatenation. */
  lemma {:induction false} KeepDigitsAndCommasAppend(a: string, b: string)
    ensures KeepDigitsAndCommas(a + b) == KeepDigitsAndCommas(a) + KeepDigitsAndCommas(b)
    decreases |a|
  {
    if |a| == 0 {
      assert a + b == b;
    } else {
      assert (a + b)[1..] == a[1..] + b;
      KeepDigitsAndCommasAppend(a[1..], b);
    }
  }

  /** A string of digits and commas only is left as it is, and nothing else is. */
  lemma {:induction false} KeepDigitsAndCommasFixpoint(s: string)
    ensures KeepDigitsAndCommas(s) == s <==> forall i :: 0 <= i < |s| ==> IsDigitOrComma(s[i])
    decreases |s|
  {
    if |s| > 0 {
      KeepDigitsAndCommasFixpoint(s[1..]);
      if !IsDigitOrComma(s[0]) {
        assert |KeepDigitsAndCommas(s)| < |s|;
      }
    }
  }

  /** Each digit and comma keeps its number of occurrences; every other character disappears. */
  lemma {:induction false} KeepDigitsAndCommasCounts(s: string, c: char)
    ensures multiset(KeepDigitsAndCommas(s))[c] == if IsDigitOrComma(c) then multiset(s)[c] else 0
    decreases |s|
  {
    if |s| > 0 {
      KeepDigitsAndCommasCounts(s[1..], c);
      assert s == [s[0]] + s[1..];
    }
  }

  /** Position of the first occurrence of `c` in `s`. */
  function IndexOf(s: string, c: char): (i: nat)
    requires c in s
    ensures i < |s| && s[i] == c
    ensures c !in s[..i]
  {
    if s[0] == c then 0
    else
      var j := IndexOf(s[1..], c);
      assert s[..j + 1] == [s[0]] + s[1..][..j];
      j + 1
  }

  /** `s.replace(',', '.')`: a string pattern replaces only its first occurrence. */
  function ReplaceFirstComma(s: string): (r: string)
    ensures |r| == |s|
    ensures ',' !in s ==> r == s
  {
    if ',' in s then
      var i := IndexOf(s, ',');
      s[..i] + "." + s[i + 1..]
    else s
  }

  /** The replacement exactly: the text before the first comma and the text after it are untouched. */
  lemma ReplaceFirstCommaSplit(a: string, b: string)
    requires ',' !in a
    ensures ReplaceFirstComma(a + "," + b) == a + "." + b
  {
    var s := a + "," + b;
    assert s[|a|] == ',';
    assert s[..|a|] == a;
    var i := IndexOf(s, ',');
    assert i == |a|;
    assert s[..i] == a;
    assert s[i + 1..] == b;
  }

  /** The same, located by position: when the comma at `k` is the first one, it alone becomes a dot. */
  lemma ReplaceFirstCommaAt(s: string, k: nat)
    requires k < |s| && s[k] == ',' && ',' !in s[..k]
    ensures ReplaceFirstComma(s) == s[..k] + "." + s[k + 1..]
  {
    assert s == s[..k] + "," + s[k + 1..];
    ReplaceFirstCommaSplit(s[..k], s[k + 1..]);
  }

  /** The capture clean-up of `extractPrice`: keep digits and commas, then turn the first comma into a dot. */
  function CleanPriceText(s: string): string {
    ReplaceFirstComma(KeepDigitsAndCommas(s))
  }

  /**
    What a cleaned capture looks like: digits and commas with at most one dot,
    which stands where the first comma was, so no comma precedes it. Further
    commas survive (`"1,2,3"` cleans to `"1.2,3"`).
  */
  lemma CleanPriceTextShape(s: string)
    ensures var r := CleanPriceText(s);
      && (forall i :: 0 <= i < |r| ==> IsDigitOrComma(r[i]) || r[i] == '.')
      && multiset(r)['.'] <= 1
      && (forall i :: 0 <= i < |r| && r[i] == '.' ==> ',' !in r[..i])
      && ('.' in r <==> ',' in KeepDigitsAndCommas(s))
  {
    var k := KeepDigitsAndCommas(s);
    assert '.' !in k by {
      assert !IsDigitOrComma('.');
    }
    ReplaceFirstCommaChars(k);
    ReplaceFirstCommaDot(k);
  }

  /** Every character of the replacement is the original one or the new dot. */
  lemma ReplaceFirstCommaChars(k: string)
    ensures var r := ReplaceFirstComma(k);
      forall j :: 0 <= j < |r| ==> r[j] == k[j] || r[j] == '.'
  {
    if ',' in k {
      var i := IndexOf(k, ',');
      var r := k[..i] + "." + k[i + 1..];
      assert forall j :: 0 <= j < |r| && j != i ==> r[j] == k[j];
    }
  }

  /**
    In a text without dots, the replacement has one dot exactly when the text
    has a comma, and no comma stands before it.
  */
  lemma ReplaceFirstCommaDot(k: string)
    requires '.' !in k
    ensures var r := ReplaceFirstComma(k);
      && multiset(r)['.'] == (if ',' in k then 1 else 0)
      && (forall j :: 0 <= j < |r| && r[j] == '.' ==> ',' !in r[..j])
  {
    assert multiset(k)['.'] == 0;
    if ',' in k {
      var i := IndexOf(k, ',');
      var r := k[..i] + "." + k[i + 1..];
      assert '.' !in k[..i] && '.' !in k[i + 1..];
      assert multiset(r) == multiset(k[..i]) + multiset{'.'} + multiset(k[i + 1..]);
      assert forall j :: 0 <= j < |r| && r[j] == '.' ==> j == i;
      assert r[..i] == k[..i];
    }
  }

  // ---------------------------------------------------------------------------
  // parseFloat and parseInt
  // ---------------------------------------------------------------------------

  /** Length of the run of digits that starts `s`. */
  function DigitRun(s: string): (n: nat)
    ensures n <= |s|
    ensures AllDigits(s[..n])
    ensures n < |s| ==> !IsDigit(s[n])
  {
    if |s| > 0 && IsDigit(s[0]) then
      var m := DigitRun(s[1..]);
      assert s[..m + 1] == [s[0]] + s[1..][..m];
      m + 1
    else 0
  }

  function DigitValue(c: char): (d: nat)
    requires IsDigit(c)
    ensures d < 10
  {
    (c as int - '0' as int) as nat
  }

  /** The natural number a string of decimal digits denotes (most significant first). */
  function NatOf(ds: string): nat
    requires AllDigits(ds)
  {
    if |ds| == 0 then 0
    else NatOf(ds[..|ds| - 1]) * 10 + DigitValue(ds[|ds| - 1])
  }

  function Pow10(n: nat): (p: nat)
    ensures p >= 1
  {
    if n == 0 then 1 else 10 * Pow10(n - 1)
  }

  /** Digits and fraction digits as a decimal value: `int.frac`. */
  function DecimalValue(intPart: string, fracPart: string): (v: real)
    requires AllDigits(intPart) && AllDigits(fracPart)
    ensures v >= 0.0
  {
    NatOf(intPart) as real + NatOf(fracPart) as real / Pow10(|fracPart|) as real
  }

  /** Length of the fraction digits that follow a dot standing right after the integer digits. */
  function FractionRun(s: string, i: nat): (f: nat)
    requires i <= |s|
    ensures f > 0 ==> i + 1 + f <= |s| && s[i] == '.' && AllDigits(s[i + 1..i + 1 + f])
  {
    if i < |s| && s[i] == '.' then
      var f := DigitRun(s[i + 1..]);
      assert s[i + 1..][..f] == s[i + 1..i + 1 + f];
      f
    else 0
  }

  /**
    `parseFloat` on the strings the scrapers hand it: the longest prefix of the
    form digits, optional dot, optional digits, with at least one digit. `None`
    stands for `NaN`. Leading white space, signs, exponents and `Infinity` are
    not modelled.
  */
  function ParseFloat(s: string): (r: Option<real>)
    ensures r.Some? <==> DigitRun(s) > 0 || (|s| >= 2 && s[0] == '.' && IsDigit(s[1]))
    ensures r.Some? ==> r.value >= 0.0
  {
    var i := DigitRun(s);
    var f := FractionRun(s, i);
    if i == 0 && f == 0 then None
    else Some(DecimalValue(s[..i], if f > 0 then s[i + 1..i + 1 + f] else ""))
  }

  /**
    `parseInt` with no radix on the strings the scrapers hand it: the leading
    run of digits; `None` stands for `NaN`.
  */
  function ParseInt(s: string): (r: Option<nat>)
    ensures r.Some? <==> |s| > 0 && IsDigit(s[0])
  {
    var n := DigitRun(s);
    if n == 0 then None else Some(NatOf(s[..n]))
  }

  /** The digits an integer part and fraction part render to, ending in a non-digit. */
  lemma DigitRunOfDigits(ds: string, t: string)
    requires AllDigits(ds)
    requires |t| == 0 || !IsDigit(t[0])
    ensures DigitRun(ds + t) == |ds|
    decreases |ds|
  {
    var s := ds + t;
    if |ds| == 0 {
      assert s == t;
    } else {
      assert s[0] == ds[0] && IsDigit(s[0]);
      assert s[1..] == ds[1..] + t;
      assert AllDigits(ds[1..]) by {
        assert forall i :: 0 <= i < |ds| - 1 ==> ds[1..][i] == ds[i + 1];
      }
      DigitRunOfDigits(ds[1..], t);
      assert DigitRun(s) == DigitRun(s[1..]) + 1;
    }
  }

  /** parseFloat reads `int.frac` followed by anything that is not a digit as exactly that decimal. */
  lemma ParseFloatDecimal(intPart: string, fracPart: string, rest: string)
    requires AllDigits(intPart) && AllDigits(fracPart)
    requires |intPart| + |fracPart| > 0
    requires |rest| == 0 || !IsDigit(rest[0])
    ensures ParseFloat(intPart + "." + fracPart + rest) == Some(DecimalValue(intPart, fracPart))
  {
    var s := intPart + "." + fracPart + rest;
    DotSplit(intPart, fracPart + rest);
    assert s == intPart + "." + (fracPart + rest);
    DigitRunOfDigits(intPart, "." + (fracPart + rest));
    FractionRunOfDigits(s, |intPart|, fracPart, rest);
    ParseFloatRuns(s, |intPart|, |fracPart|);
  }

  /** The pieces of `a + "." + b`. */
  lemma DotSplit(a: string, b: string)
    ensures var s := a + "." + b;
      && s == a + ("." + b)
      && s[..|a|] == a
      && s[|a|] == '.'
      && s[|a| + 1..] == b
  {
  }

  /** `ParseFloat` once the digit run and the fraction run are known. */
  lemma ParseFloatRuns(s: string, i: nat, f: nat)
    requires DigitRun(s) == i && FractionRun(s, i) == f && i + f > 0
    ensures i + 1 + f <= |s| || f == 0
    ensures ParseFloat(s) == Some(DecimalValue(s[..i], if f > 0 then s[i + 1..i + 1 + f] else ""))
  {
  }

  /** The fraction digits after a dot at `i`, ending before a non-digit, are exactly the fraction run. */
  lemma FractionRunOfDigits(s: string, i: nat, fracPart: string, rest: string)
    requires i < |s| && s[i] == '.' && s[i + 1..] == fracPart + rest
    requires AllDigits(fracPart)
    requires |rest| == 0 || !IsDigit(rest[0])
    ensures FractionRun(s, i) == |fracPart|
    ensures s[i + 1..i + 1 + |fracPart|] == fracPart
  {
    DigitRunOfDigits(fracPart, rest);
    assert s[i + 1..][..|fracPart|] == fracPart;
  }

  /** parseFloat reads digits followed by anything but a digit or a dot as their integer value. */
  lemma ParseFloatInteger(intPart: string, rest: string)
    requires AllDigits(intPart) && |intPart| > 0
    requires |rest| == 0 || (!IsDigit(rest[0]) && rest[0] != '.')
    ensures ParseFloat(intPart + rest) == Some(NatOf(intPart) as real)
  {
    var s := intPart + rest;
    DigitRunOfDigits(intPart, rest);
    assert s[..|intPart|] == intPart;
    assert FractionRun(s, |intPart|) == 0 by {
      if |rest| > 0 {
        assert s[|intPart|] == rest[0];
      }
    }
    assert NatOf("") == 0 && Pow10(0) == 1;
    assert DecimalValue(intPart, "") == NatOf(intPart) as real;
  }

  /** parseInt reads a string of digits as the number it denotes. */
  lemma ParseIntDigits(ds: string)
    requires AllDigits(ds) && |ds| > 0
    ensures ParseInt(ds) == Some(NatOf(ds))
  {
    DigitRunOfDigits(ds, "");
    assert ds + "" == ds;
    assert ds[..|ds|] == ds;
  }

  // ---------------------------------------------------------------------------
  // toFixed(2)
  // ---------------------------------------------------------------------------

  /** `n` cents as an amount. */
  function Cents(n: int): real {
    n as real / 100.0
  }

  /** An amount that is a whole number of cents. */
  ghost predicate IsWholeCents(r: real) {
    exists n: int :: Cents(n) == r
  }

  /**
    `x.toFixed(2)` read back as a number: the whole number of cents nearest
    to `x`, a tie going away from zero (upwards for `x >= 0`). The two ranges
    are half-open intervals one cent wide, so they pin the result down.
  */
  function ToFixed2(x: real): (r: real)
    ensures IsWholeCents(r)
    ensures x >= 0.0 ==> x - 0.005 < r <= x + 0.005
    ensures x < 0.0 ==> x - 0.005 <= r < x + 0.005
    ensures x >= 0.0 ==> r >= 0.0
  {
    if x < 0.0 then
      var n := CentsHalfUp(-x);
      assert -RoundHalfUp2(-x) == Cents(-n);
      -RoundHalfUp2(-x)
    else
      assert RoundHalfUp2(x) == Cents(CentsHalfUp(x));
      RoundHalfUp2(x)
  }

  /** Nearest multiple of 0.01 to a non-negative value, ties upwards. */
  function RoundHalfUp2(x: real): (r: real)
    requires x >= 0.0
    ensures x - 0.005 < r <= x + 0.005
    ensures r >= 0.0
  {
    CentsHalfUp(x) as real / 100.0
  }

  /** The whole number of cents nearest to `x`, ties upwards. */
  function CentsHalfUp(x: real): int {
    (x * 100.0 + 0.5).Floor
  }

  /**
    The rounding is the only whole-cent amount in its window: any amount of
    whole cents in `(x - 0.005, x + 0.005]` (for `x >= 0`), or in
    `[x - 0.005, x + 0.005)` (for `x < 0`), is the rounded value.
  */
  lemma ToFixed2Unique(x: real, n: int)
    requires x >= 0.0 ==> x - 0.005 < Cents(n) <= x + 0.005
    requires x < 0.0 ==> x - 0.005 <= Cents(n) < x + 0.005
    ensures ToFixed2(x) == Cents(n)
  {
    var m :| Cents(m) == ToFixed2(x);
    assert -1.0 < (m - n) as real < 1.0;
  }

  /** Rounding an amount already in whole cents leaves it alone. */
  lemma ToFixed2OfCents(n: int)
    ensures ToFixed2(Cents(n)) == Cents(n)
  {
    ToFixed2Unique(Cents(n), n);
  }

  /** Rounding to cents is idempotent. */
  lemma ToFixed2Idempotent(x: real)
    ensures ToFixed2(ToFixed2(x)) == ToFixed2(x)
  {
    var n :| Cents(n) == ToFixed2(x);
    ToFixed2OfCents(n);
  }
}

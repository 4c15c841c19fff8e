/**
  `extractPrice(html, patterns)` of the Cloudflare worker: walk the patterns in
  order and return the first capture that cleans and parses to a number
  strictly between 0 and 10000; `null` (here `None`) when there is none.
*/
module PriceExtractor {
  import opened Wrappers
  import opened NumericText
  import opened Patterns

  const MAX_PRICE: real := 10000.0

  /** A price strictly inside (0, MAX_PRICE): the only values `extractPrice` accepts. */
  predicate InRange(p: real) {
    0.0 < p < MAX_PRICE
  }

  /**
    What one pattern contributes: its capture must be a non-empty string
    (`match && match[1]`), its cleaned text must parse to a number, and that
    number must be in range. Anything else is skipped, never fatal.
  */
  function CapturePrice(capture: Option<string>): (r: Option<real>)
    ensures r.Some? ==> InRange(r.value)
    ensures r.Some? <==>
      && capture.Some? && capture.value != ""
      && ParseFloat(CleanPriceText(capture.value)).Some?
      && InRange(ParseFloat(CleanPriceText(capture.value)).value)
    ensures r.Some? ==> r.value == ParseFloat(CleanPriceText(capture.value)).value
  {
    if capture.Some? && capture.value != "" then
      var price := ParseFloat(CleanPriceText(capture.value));
      if price.Some? && InRange(price.value) then price else None
    else None
  }

  /** Pattern `i` is the first whose capture yields an accepted price. */
  ghost predicate IsFirstValid(html: string, patterns: seq<Regex>, engine: Engine, i: int) {
    && 0 <= i < |patterns|
    && CapturePrice(engine(patterns[i], html)).Some?
    && forall j :: 0 <= j < i ==> CapturePrice(engine(patterns[j], html)).None?
  }

  function ExtractPrice(html: string, patterns: seq<Regex>, engine: Engine): (r: Option<real>)
    ensures r.Some? ==> InRange(r.value)
  {
    if |patterns| == 0 then None
    else
      var candidate := CapturePrice(engine(patterns[0], html));
      if candidate.Some? then candidate else ExtractPrice(html, patterns[1..], engine)
  }

  /**
    The result is the price of the first accepted pattern, and `None` exactly
    when no pattern yields an accepted price (in particular for no patterns).
  */
  lemma {:induction false} ExtractPriceIsFirstValid(html: string, patterns: seq<Regex>, engine: Engine)
    ensures ExtractPrice(html, patterns, engine).None? <==>
      forall i :: 0 <= i < |patterns| ==> CapturePrice(engine(patterns[i], html)).None?
    ensures forall i :: IsFirstValid(html, patterns, engine, i) ==>
      ExtractPrice(html, patterns, engine) == CapturePrice(engine(patterns[i], html))
    ensures ExtractPrice(html, patterns, engine).Some? ==>
      exists i :: IsFirstValid(html, patterns, engine, i)
    decreases |patterns|
  {
    if |patterns| > 0 {
      var tail := patterns[1..];
      ExtractPriceIsFirstValid(html, tail, engine);
      assert forall i :: 0 <= i < |tail| ==> tail[i] == patterns[i + 1];
      if CapturePrice(engine(patterns[0], html)).Some? {
        assert IsFirstValid(html, patterns, engine, 0);
        assert forall i :: IsFirstValid(html, patterns, engine, i) ==> i == 0;
      } else {
        forall i | IsFirstValid(html, patterns, engine, i)
          ensures IsFirstValid(html, tail, engine, i - 1)
        {
          IsFirstValidShift(html, patterns, engine, i);
        }
        if ExtractPrice(html, tail, engine).Some? {
          var k :| IsFirstValid(html, tail, engine, k);
          IsFirstValidShift(html, patterns, engine, k + 1);
        }
      }
    }
  }

  /** When the first pattern yields nothing, the first valid pattern is found one place later in the tail. */
  lemma IsFirstValidShift(html: string, patterns: seq<Regex>, engine: Engine, i: int)
    requires |patterns| > 0 && CapturePrice(engine(patterns[0], html)).None?
    ensures IsFirstValid(html, patterns, engine, i) <==> IsFirstValid(html, patterns[1..], engine, i - 1)
  {
    var tail := patterns[1..];
    assert forall j :: 0 <= j < |tail| ==> tail[j] == patterns[j + 1];
    if IsFirstValid(html, tail, engine, i - 1) {
      forall j | 0 <= j < i
        ensures CapturePrice(engine(patterns[j], html)).None?
      {
        if j > 0 {
          assert patterns[j] == tail[j - 1];
        }
      }
    }
  }

  /**
    Later patterns are never consulted: extracting over `first + rest` gives
    the result over `first` whenever that is a price.
  */
  lemma {:induction false} ExtractPriceAppend(html: string, first: seq<Regex>, rest: seq<Regex>, engine: Engine)
    ensures ExtractPrice(html, first + rest, engine) ==
      if ExtractPrice(html, first, engine).Some? then ExtractPrice(html, first, engine)
      else ExtractPrice(html, rest, engine)
    decreases |first|
  {
    if |first| == 0 {
      assert first + rest == rest;
    } else {
      assert (first + rest)[0] == first[0];
      assert (first + rest)[1..] == first[1..] + rest;
      ExtractPriceAppend(html, first[1..], rest, engine);
    }
  }

  /** The `for ... of` loop of the source, with its early `return`. */
  method ExtractPriceLoop(html: string, patterns: seq<Regex>, engine: Engine) returns (r: Option<real>)
    ensures r == ExtractPrice(html, patterns, engine)
    ensures r.Some? ==> InRange(r.value)
  {
    var k := 0;
    while k < |patterns|
      invariant 0 <= k <= |patterns|
      invariant ExtractPrice(html, patterns, engine) == ExtractPrice(html, patterns[k..], engine)
    {
      var candidate := CapturePrice(engine(patterns[k], html));
      assert patterns[k..][1..] == patterns[k + 1..];
      if candidate.Some? {
        return candidate;
      }
      k := k + 1;
    }
    return None;
  }
}

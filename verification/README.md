# Solar-components price scraper: a Dafny model of its price decisions

The repository is a Cloudflare worker that reports prices for a fixed
catalogue of solar-mounting parts (`s02_3`, `s10`, `g1_1230`, …) from Spanish
retailers, plus a stand-alone Obramat scraper. This project models the parts
that decide which number comes back:

- `extractPrice`: walk an ordered list of regexes over a page, clean each
  capture (keep digits and commas, turn the first comma into a dot), read it
  with `parseFloat`, and return the first value strictly between 0 and 10000,
  or `null`.
- `scrapeLeroyMerlin` and `scrapeGoogleShopping`: look up the product's search
  term (`PRODUCT_SEARCH_TERMS`), give up before fetching when there is none,
  fetch the search page, give up on a failed fetch, then run `extractPrice`.
- The `/prices` branch of `handleRequest`: the source defaults to `obramat`.
  With a product, only `leroy` is scraped. A missing or zero scrape falls back
  to `FALLBACK_PRICES[source][product]`, and a missing entry gives `0`. Without
  a product, the source's whole fallback table is returned, or the `obramat`
  table when the source is unknown.
- `scrapeObramat`: pick the direct product URL or a search URL, fetch it, and
  prefer the schema.org `"offers" … "price"` value. That value is divided by
  the pack quantity, which comes from the first of `N UDS`, `N unidad(es)`,
  `pack de N` and `bolsa de N` that matches anywhere on the page, with 1 as
  the default. The unit price is then rounded to cents. Failing that, the page
  goes to `extractPriceFromHTML` with Obramat's pattern list.

Regex matching and HTTP are oracles the model does not interpret:

- An `Engine` maps a regex and a page to the text of capture group 1.
- A `Fetcher` maps a URL to a response or a thrown error.
- The regexes are kept as data (`Regex(source, ignoreCase)`), with the same
  source text as the JavaScript literals, so every pattern list and its order
  is the program's own.
- Prices are exact reals.

Modules follow the program's structure:

- `NumericText`: cleaning, `parseFloat`, `parseInt`, `toFixed(2)`.
- `Patterns`: regexes, the engine, first match.
- `Fetching`: URLs and fetch outcomes.
- `PriceExtractor`: `extractPrice`.
- `Worker`: scrapers, fallback table, `/prices`.
- `Obramat`: `scrapeObramat`.
- `CaptureCases` and `ObramatCases`: worked inputs.

Facts about the code that shape the model:

- Quantity detection scans the whole page.
- No quantity range check or VAT adjustment is applied. Quantity 0 or `NaN`
  leaves the price alone.
- The structured-data branch checks only `> 0`, with no upper bound.
- The worker sets no timeout.
- The `/prices` reply has no `methods` field.

Two behaviours of the code are worth knowing, and both are proved on concrete
inputs:

1. `extractPrice` deletes every dot. `"1.234,56"` reads as 1234.56, but
   `"12.50"` reads as 1250. Commas after the first survive the clean-up:
   `"1,2,3"` cleans to `"1.2,3"` and reads as 1.2. So a cleaned capture has
   at most one dot and no comma before it, but it may still contain commas.
2. Obramat's offer branch only replaces the first comma. It reads
   `"1.234,56"` as 1.234 and reports 1.23. Its rounding can turn a positive
   offer of 0.004 into `0`, which is returned as a price, not as `null`.

## Model

| member | source | states |
|---|---|---|
| NumericText.KeepDigitsAndCommas | cloudflare-worker-price-scraper.js:34 | `replace(/[^\d,]/g, '')`: the result holds only ASCII digits and commas and is no longer than the capture. Its partners are the three lemmas below. |
| NumericText.KeepDigitsAndCommasAppend | cloudflare-worker-price-scraper.js:34 | The global delete of non-digit, non-comma characters works character by character: it distributes over concatenation. |
| NumericText.KeepDigitsAndCommasFixpoint | cloudflare-worker-price-scraper.js:34 | A string is left unchanged by the delete exactly when it consists of digits and commas only. |
| NumericText.KeepDigitsAndCommasCounts | cloudflare-worker-price-scraper.js:34 | Every digit and comma keeps its number of occurrences; every other character occurs zero times afterwards. |
| NumericText.ReplaceFirstComma | cloudflare-worker-price-scraper.js:34 | `replace(',', '.')` keeps the length, and a text without a comma comes back unchanged. The comma case is stated by the two lemmas below. |
| NumericText.ReplaceFirstCommaSplit | cloudflare-worker-price-scraper.js:34 | `replace(',', '.')` turns only the first comma into a dot and leaves the text before and after it unchanged. |
| NumericText.ReplaceFirstCommaAt | cloudflare-worker-price-scraper.js:34 | The same, stated by position: when the comma at position k is the first comma, the result is the text with that one character made a dot. |
| NumericText.CleanPriceText | cloudflare-worker-price-scraper.js:34 | The clean-up is the delete followed by the first-comma replacement. What it produces is stated by the lemma below. |
| NumericText.CleanPriceTextShape | cloudflare-worker-price-scraper.js:34 | A cleaned capture holds only digits, commas and at most one dot. No comma precedes the dot. A dot is present exactly when the kept text had a comma. |
| NumericText.ParseFloat | cloudflare-worker-price-scraper.js:35 | `parseFloat` gives a number exactly when the text starts with a digit, or with a dot followed by a digit. Any number it gives is non-negative. Its value is stated by the two lemmas below. |
| NumericText.ParseFloatDecimal | cloudflare-worker-price-scraper.js:35 | parseFloat reads `int.frac` followed by a non-digit as exactly that decimal value, ignoring the rest (prefix semantics). |
| NumericText.ParseFloatInteger | cloudflare-worker-price-scraper.js:35 | parseFloat reads digits followed by neither a digit nor a dot as their integer value. |
| NumericText.ParseInt | scraper-obramat-temp.js:44 | `parseInt` gives a number exactly when the text starts with a digit. |
| NumericText.ParseIntDigits | scraper-obramat-temp.js:44 | parseInt reads a digit capture as the number it denotes. |
| NumericText.ToFixed2 | scraper-obramat-temp.js:47 | `toFixed(2)` read back by `parseFloat` gives a whole number of cents. For x ≥ 0 it lies in (x − 0.005, x + 0.005], so a tie goes up. For x < 0 it lies in [x − 0.005, x + 0.005), so a tie goes away from zero. A non-negative value stays non-negative. |
| NumericText.ToFixed2Unique | scraper-obramat-temp.js:47 | Any whole-cent amount inside that one-cent window is the rounded value, so the window determines the rounding. |
| NumericText.ToFixed2OfCents | scraper-obramat-temp.js:47 | A value already in whole cents survives rounding unchanged. |
| NumericText.ToFixed2Idempotent | scraper-obramat-temp.js:47 | Rounding to cents twice equals rounding once. |
| PriceExtractor.CapturePrice | cloudflare-worker-price-scraper.js:32-37 | A pattern contributes a price exactly when its capture is non-empty and the cleaned capture parses to a value in (0, 10000). The price is that parsed value. Any other capture is skipped, never fatal. |
| PriceExtractor.ExtractPrice | cloudflare-worker-price-scraper.js:29-42 | Any non-null result lies strictly between 0 and 10000. |
| PriceExtractor.ExtractPriceIsFirstValid | cloudflare-worker-price-scraper.js:30-41 | The result is null exactly when no pattern yields an accepted price, including for an empty list. Otherwise it is the price of the first such pattern in list order. |
| PriceExtractor.ExtractPriceAppend | cloudflare-worker-price-scraper.js:30-38 | Later patterns are never consulted: over `first + rest`, a price from `first` wins, and `rest` is used only when `first` yields none. |
| PriceExtractor.ExtractPriceLoop | cloudflare-worker-price-scraper.js:29-42 | The `for…of` loop with its early return computes the same first-valid price, within bounds. |
| Patterns.FirstMatch | scraper-obramat-temp.js:40-43 | The or-chain of matches (`html.match(a) or html.match(b) or …`) is null exactly when no regex in the list matches. |
| Patterns.FirstMatchIsFirst | scraper-obramat-temp.js:40-43 | The first regex that matches decides the chain's result, even when later regexes would also match. |
| Worker.SearchAndExtract | cloudflare-worker-price-scraper.js:57-69 | A thrown error or non-OK response gives null. An OK response gives exactly `extractPrice` of its body. |
| Worker.LeroyTarget | cloudflare-worker-price-scraper.js:46-50 | The Leroy scraper fetches only when the product has a search term, and then fetches the Leroy search URL for that term. |
| Worker.ScrapeLeroyMerlin | cloudflare-worker-price-scraper.js:45-74 | The result is null for a product without a search term. Any price it returns is in (0, 10000) and came from an OK response. After an OK response it is exactly `extractPrice` of the body over the Leroy pattern list. |
| Worker.ScrapeGoogleShopping | cloudflare-worker-price-scraper.js:77-105 | The same, for the Google Shopping query and URL: after an OK response the result is exactly `extractPrice` of the body over the Google pattern list. |
| Worker.LeroyUnknownProductFetchesNothing | cloudflare-worker-price-scraper.js:46-47 | A product missing from the search terms gives null before any fetch, whatever the network would answer. |
| Fetching.IsOk | cloudflare-worker-price-scraper.js:57 | `response.ok`: a response with a status in 200..299. A thrown error is never OK. |
| Worker.Truthy | cloudflare-worker-price-scraper.js:159-163 | A price counts as present for `!price` and `price || 0` unless it is null or 0. |
| Worker.SourceParam | cloudflare-worker-price-scraper.js:144 | A missing or empty `source` parameter means `obramat`; any other value is used as given. |
| Worker.FallbackLookup | cloudflare-worker-price-scraper.js:159-160 | The fallback lookup is defined exactly when both the source and the product are in the table, and then it is the table entry. |
| Worker.ScrapeFor | cloudflare-worker-price-scraper.js:152-156 | Only source `leroy` invokes a scraper; any scraped value is in range. |
| Worker.SinglePrice | cloudflare-worker-price-scraper.js:150-163 | A truthy scrape wins. Otherwise the fallback entry is used, else 0. An unknown source gives 0 and does not borrow the obramat table. |
| Worker.HandlePrices | cloudflare-worker-price-scraper.js:143-167 | With a product, the price map has exactly that one key. Without one, the map is the source's table, or the obramat table for an unknown source. |
| Worker.FallbackPricesWellFormed | cloudflare-worker-price-scraper.js:108-124 | Every fallback price is positive, and the default and scraped sources both have tables. |
| Worker.SinglePriceNonNegative | cloudflare-worker-price-scraper.js:150-163 | A resolved single price is never negative. It is 0 exactly when there is neither a scrape nor a fallback entry. |
| Worker.HandlePricesNonNegative | cloudflare-worker-price-scraper.js:148-167 | Every price the endpoint reports is non-negative. |
| Worker.OnlyLeroyScrapes | cloudflare-worker-price-scraper.js:150-167 | Unless the source is `leroy` and a product is given, the reply does not depend on the network. |
| Worker.SingleProductWithoutScrape | cloudflare-worker-price-scraper.js:154-163 | For a source that is not scraped, the single-product reply is the table entry, or 0. |
| Worker.LeroySingleProduct | cloudflare-worker-price-scraper.js:154-163 | For `leroy`, a scraped price is reported as-is. Otherwise Leroy's fallback entry is reported, or 0. |
| Worker.LeroyFetchFailureFallsBack | cloudflare-worker-price-scraper.js:57 | A thrown error or non-OK status on the Leroy search page leads to Leroy's fallback price. |
| Worker.GUnionUsesLeroyFallback | cloudflare-worker-price-scraper.js:159-163 | `g_union` has no search term, so for `leroy` it always resolves to its fallback price 5.99. |
| Worker.UnknownSourceSingleProductIsZero | cloudflare-worker-price-scraper.js:159-163 | An unknown source with product `s10` gives 0, although the obramat table prices `s10`. |
| Worker.WholeTableDefaults | cloudflare-worker-price-scraper.js:164-167 | Without a product, a missing, empty or unknown source gets the obramat table. |
| Worker.WholeTableOfKnownSource | cloudflare-worker-price-scraper.js:164-167 | Without a product (or with an empty one), a known source such as `alacen` or `leroy` gets its own table and nothing is scraped. |
| Obramat.ObramatTarget | scraper-obramat-temp.js:9-10 | A non-empty direct product URL is fetched when present. Otherwise the Obramat search URL for the product's search text is fetched. |
| Obramat.OfferPrice | scraper-obramat-temp.js:35-38 | The structured-data price exists exactly when the offer regex matches and its capture, with the first comma made a dot, parses to a value > 0. It is then that parsed value. There is no upper bound. |
| Obramat.DetectQuantity | scraper-obramat-temp.js:40-44 | The quantity is parseInt of the first matching quantity phrasing, or 1 when none matches. |
| Obramat.UnitPrice | scraper-obramat-temp.js:45 | With quantity > 1 the unit price times the quantity is the price. Otherwise the price is unchanged. A positive price gives a positive unit price no larger than it. |
| Obramat.PriceFromPage | scraper-obramat-temp.js:35-73 | A positive offer gives the rounded unit price. Otherwise `extractPriceFromHTML`'s unit price is used when present, else null. |
| Obramat.ScrapeObramat | scraper-obramat-temp.js:4-78 | An unknown product gives null. A thrown error or non-OK response gives null. An OK response is decided by its page. |
| Obramat.UnknownProductFetchesNothing | scraper-obramat-temp.js:5-6 | An unknown product key gives null, whatever the network would answer. |
| Obramat.OfferTakesPrecedence | scraper-obramat-temp.js:35-48 | With a positive offer price, the pattern fall-through plays no part. The result is non-negative and a whole number of cents. It lies in (u − 0.005, u + 0.005] for the unit price u, and rounding it again changes nothing. |
| Obramat.QuantityFirstPatternWins | scraper-obramat-temp.js:40-44 | The first quantity phrasing that matches, in the fixed order, decides the quantity. |
| Obramat.NoPackKeepsPrice | scraper-obramat-temp.js:45-47 | Quantity 0, 1 or `NaN` leaves the rounded price equal to the rounded offer. |
| CaptureCases.CaptureEuropeanDecimal | cloudflare-worker-price-scraper.js:34-37 | The capture `12,50 €` is accepted as 12.5. |
| CaptureCases.CaptureThousandsDot | cloudflare-worker-price-scraper.js:34-37 | The capture `1.234,56` is accepted as 1234.56, because the thousands dot is deleted. |
| CaptureCases.CaptureDecimalDotIsDeleted | cloudflare-worker-price-scraper.js:34-37 | The capture `12.50` is accepted as 1250, because a decimal dot is deleted too. |
| CaptureCases.CaptureLaterCommasSurvive | cloudflare-worker-price-scraper.js:34-35 | The capture `1,2,3` cleans to `1.2,3` and reads as 1.2. |
| CaptureCases.CaptureTooLarge | cloudflare-worker-price-scraper.js:36 | The capture `12000` is out of range and skipped. |
| CaptureCases.CaptureZero | cloudflare-worker-price-scraper.js:36 | The capture `0,00` parses to 0 and is skipped. |
| ObramatCases.PackOfFive | scraper-obramat-temp.js:35-47 | An offer of `12,50` with `pack de 5` as the first quantity phrasing gives quantity 5 and unit price 2.50. |
| ObramatCases.OfferThousandsReadAsDecimal | scraper-obramat-temp.js:37 | The offer `1.234,56` is read as 1.234 and reported as 1.23, where the worker's clean-up reads 1234.56. |
| ObramatCases.OfferHasNoUpperBound | scraper-obramat-temp.js:38 | An offer of 50000 is returned as-is. |
| ObramatCases.TinyOfferRoundsToZero | scraper-obramat-temp.js:47 | A positive offer of 0.004 is returned as 0, not null. |

## Left out

- Regex matching: every regex is an uninterpreted `Engine`. The Obramat
  patterns written `[\\d,\\.]` match a literal backslash and `d` as written,
  and the model gives them no other meaning.
- `extractPriceFromHTML` and `PRODUCT_DATABASE` are not part of this model.
  The first is an uninterpreted `HtmlExtractor`. The second is a parameter
  holding only the fields the scraper reads (`search`, `obramat.url`).
- HTTP: `fetch`, `fetchWithTimeout`, request headers, `response.text()` and
  the timeout/abort are an uninterpreted `Fetcher` returning a status and
  body, or a thrown error.
- `encodeURIComponent`: search URLs keep the query unencoded, and encoding
  (including its `URIError`) is left to the fetcher.
- async/await, try/catch and console logging are not modelled. Every error
  inside the scrapers is modelled as the `null` result the catch blocks give.
- JavaScript number semantics are not modelled: prices are exact reals.
  `parseFloat` and `parseInt` are modelled only on the digit/dot prefix
  grammar; leading white space, signs, exponents, `Infinity` and hex prefixes
  are not. The captures reaching them cannot contain those, by the regexes.
- NumericText.ToFixed2: does not model the exponential rendering `toFixed`
  uses at or above 1e21, or binary floating-point rounding, because prices
  are exact reals.
- Property lookups that hit `Object.prototype` (a product or source named
  `constructor`, `__proto__`, …) are not modelled; lookups are own-key map
  lookups.
- Worker.HandlePrices: models only the success reply's `source` and `prices`.
  The `success`, `timestamp` and `cached` fields, CORS and cache headers, JSON
  serialisation, the `OPTIONS` preflight, the info endpoint and the HTTP 500
  handler are plumbing. Nothing in the modelled path throws, so the 500 reply
  is unreachable here.
- `addEventListener` and `js/main.js`, a DOM/localStorage language toggle, are
  user interface.

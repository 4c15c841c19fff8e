/**
  The Cloudflare worker's `/prices` endpoint: the Leroy Merlin and Google
  Shopping scrapers, the manually maintained fallback table, and the rule
  that turns a source, an optional product and a scrape into a price map.
*/
module Worker {
  import opened Wrappers
  import opened Patterns
  import opened Fetching
  import opened PriceExtractor

  // ---------------------------------------------------------------------------
  // Configuration
  // ---------------------------------------------------------------------------

  /** Search terms of the products the scrapers know; `g_union` is deliberately absent. */
  const PRODUCT_SEARCH_TERMS: map<string, string> := map[
    "s02_3" := "soporte teja solar S02.3 Sunfer",
    "s10" := "presor lateral solar S10",
    "s11" := "presor central solar S11",
    "ug1" := "union perfil UG1 Sunfer",
    "g1_1230" := "perfil aluminio solar 1230mm",
    "g1_1800" := "perfil aluminio solar 1800mm",
    "g1_2350" := "perfil aluminio solar 2350mm",
    "g1_3600" := "perfil aluminio solar 3600mm",
    "g1_4400" := "perfil aluminio solar 4400mm",
    "tapa" := "tapa terminal perfil solar",
    "s13" := "tornilleria acero inoxidable M8"
  ]

  type PriceTable = map<string, real>

  const OBRAMAT_PRICES: PriceTable := map[
    "s02_3" := 8.50, "s10" := 1.80, "s11" := 1.80, "ug1" := 3.50, "g_union" := 3.50,
    "g1_1230" := 8.99, "g1_1800" := 14.00, "g1_2350" := 17.95, "g1_3600" := 30.99, "g1_4400" := 35.00,
    "tapa" := 0.75, "s13" := 0.30
  ]

  const LEROY_PRICES: PriceTable := map[
    "s02_3" := 14.99, "s10" := 2.50, "s11" := 2.50, "ug1" := 5.99, "g_union" := 5.99,
    "g1_1230" := 12.50, "g1_1800" := 18.00, "g1_2350" := 22.95, "g1_3600" := 38.00, "g1_4400" := 45.00,
    "tapa" := 1.20, "s13" := 0.50
  ]

  const ALACEN_PRICES: PriceTable := map[
    "s02_3" := 7.90, "s10" := 1.65, "s11" := 1.65, "ug1" := 3.20, "g_union" := 3.20,
    "g1_1230" := 7.50, "g1_1800" := 12.50, "g1_2350" := 16.50, "g1_3600" := 28.00, "g1_4400" := 33.00,
    "tapa" := 0.60, "s13" := 0.25
  ]

  /** The source used when the request names none, and whose table stands in for an unknown source. */
  const DEFAULT_SOURCE: string := "obramat"

  /** The only source the handler scrapes. */
  const SCRAPED_SOURCE: string := "leroy"

  const FALLBACK_PRICES: map<string, PriceTable> := map[
    "obramat" := OBRAMAT_PRICES,
    "leroy" := LEROY_PRICES,
    "alacen" := ALACEN_PRICES
  ]

  const LEROY_SEARCH_PREFIX: string := "https://www.leroymerlin.es/search?q="

  const LEROY_PATTERNS: seq<Regex> := [
    Regex("\"price\":\\s*\"?(\\d+[,.]?\\d*)\"?", false),
    Regex("data-price=\"(\\d+[,.]?\\d*)\"", false),
    Regex("class=\"price[^\"]*\"[^>]*>(\\d+[,.]?\\d*)", false),
    Regex("<span[^>]*price[^>]*>(\\d+[,.]?\\d*)", false)
  ]

  const GOOGLE_SEARCH_PREFIX: string := "https://www.google.com/search?q="
  const GOOGLE_QUERY_SUFFIX: string := " precio españa"
  const GOOGLE_URL_SUFFIX: string := "&tbm=shop"

  const GOOGLE_PATTERNS: seq<Regex> := [
    Regex("aria-label=\"[^\"]*(\\d+[,.]?\\d*)\\s*€", false),
    Regex("\"price\":\\s*\"(\\d+[,.]?\\d*)\"", false),
    Regex("\\$(\\d+[,.]?\\d*)", false)
  ]

  // ---------------------------------------------------------------------------
  // Scrapers
  // ---------------------------------------------------------------------------

  /**
    The shared shape of the two search scrapers: fetch the search page, give
    up on a thrown error or a non-OK status, otherwise run `extractPrice`.
  */
  function SearchAndExtract(url: Url, patterns: seq<Regex>, engine: Engine, fetch: Fetcher): (r: Option<real>)
    ensures r.Some? ==> InRange(r.value)
    ensures !IsOk(fetch(url)) ==> r.None?
    ensures IsOk(fetch(url)) ==> r == ExtractPrice(fetch(url).body, patterns, engine)
  {
    var outcome := fetch(url);
    if !IsOk(outcome) then None else ExtractPrice(outcome.body, patterns, engine)
  }

  /** The URL `scrapeLeroyMerlin` fetches, or `None` when it returns before fetching. */
  function LeroyTarget(productKey: string): (u: Option<Url>)
    ensures u.Some? <==> productKey in PRODUCT_SEARCH_TERMS && PRODUCT_SEARCH_TERMS[productKey] != ""
    ensures u.Some? ==> u.value == SearchUrl(LEROY_SEARCH_PREFIX, PRODUCT_SEARCH_TERMS[productKey], "")
  {
    if productKey !in PRODUCT_SEARCH_TERMS || PRODUCT_SEARCH_TERMS[productKey] == "" then None
    else Some(SearchUrl(LEROY_SEARCH_PREFIX, PRODUCT_SEARCH_TERMS[productKey], ""))
  }

  function ScrapeLeroyMerlin(productKey: string, engine: Engine, fetch: Fetcher): (r: Option<real>)
    ensures r.Some? ==> InRange(r.value)
    ensures productKey !in PRODUCT_SEARCH_TERMS ==> r.None?
    ensures r.Some? ==> LeroyTarget(productKey).Some? && IsOk(fetch(LeroyTarget(productKey).value))
    ensures LeroyTarget(productKey).Some? && IsOk(fetch(LeroyTarget(productKey).value)) ==>
      r == ExtractPrice(fetch(LeroyTarget(productKey).value).body, LEROY_PATTERNS, engine)
  {
    match LeroyTarget(productKey)
    case None => None
    case Some(url) => SearchAndExtract(url, LEROY_PATTERNS, engine, fetch)
  }

  /** `scrapeGoogleShopping`: the same shape, with its own query, URL and patterns. It is never called by the handler. */
  function ScrapeGoogleShopping(productKey: string, engine: Engine, fetch: Fetcher): (r: Option<real>)
    ensures r.Some? ==> InRange(r.value)
    ensures productKey !in PRODUCT_SEARCH_TERMS ==> r.None?
    ensures r.Some? ==>
      IsOk(fetch(SearchUrl(GOOGLE_SEARCH_PREFIX, PRODUCT_SEARCH_TERMS[productKey] + GOOGLE_QUERY_SUFFIX, GOOGLE_URL_SUFFIX)))
    ensures productKey in PRODUCT_SEARCH_TERMS && PRODUCT_SEARCH_TERMS[productKey] != "" ==>
      var url := SearchUrl(GOOGLE_SEARCH_PREFIX, PRODUCT_SEARCH_TERMS[productKey] + GOOGLE_QUERY_SUFFIX, GOOGLE_URL_SUFFIX);
      IsOk(fetch(url)) ==> r == ExtractPrice(fetch(url).body, GOOGLE_PATTERNS, engine)
  {
    if productKey !in PRODUCT_SEARCH_TERMS || PRODUCT_SEARCH_TERMS[productKey] == "" then None
    else
      var url := SearchUrl(GOOGLE_SEARCH_PREFIX, PRODUCT_SEARCH_TERMS[productKey] + GOOGLE_QUERY_SUFFIX, GOOGLE_URL_SUFFIX);
      SearchAndExtract(url, GOOGLE_PATTERNS, engine, fetch)
  }

  /** A product without a search term makes the Leroy scraper return `None` whatever the network would have said. */
  lemma LeroyUnknownProductFetchesNothing(productKey: string, engine: Engine, f1: Fetcher, f2: Fetcher)
    requires productKey !in PRODUCT_SEARCH_TERMS
    ensures LeroyTarget(productKey).None?
    ensures ScrapeLeroyMerlin(productKey, engine, f1) == ScrapeLeroyMerlin(productKey, engine, f2) == None
  {
  }

  // ---------------------------------------------------------------------------
  // The /prices endpoint
  // ---------------------------------------------------------------------------

  /** `searchParams.get('source') || 'obramat'`: a missing or empty parameter means the default source. */
  function SourceParam(raw: Option<string>): (source: string)
    ensures source != ""
    ensures raw.Some? && raw.value != "" ==> source == raw.value
    ensures raw.None? || raw.value == "" ==> source == DEFAULT_SOURCE
  {
    if raw.Some? && raw.value != "" then raw.value else DEFAULT_SOURCE
  }

  /** JavaScript truthiness of a price that may be `null`: `null` and `0` are false. */
  predicate Truthy(price: Option<real>) {
    price.Some? && price.value != 0.0
  }

  /** `FALLBACK_PRICES[source][product]`, `None` for `undefined` (unknown source or product). */
  function FallbackLookup(table: map<string, PriceTable>, source: string, product: string): (r: Option<real>)
    ensures r.Some? <==> source in table && product in table[source]
    ensures r.Some? ==> r.value == table[source][product]
  {
    if source in table && product in table[source] then Some(table[source][product]) else None
  }

  /** The scrape the handler runs for a source: only `leroy` invokes a scraper. */
  function ScrapeFor(source: string, product: string, engine: Engine, fetch: Fetcher): (r: Option<real>)
    ensures source != SCRAPED_SOURCE ==> r.None?
    ensures r.Some? ==> InRange(r.value)
  {
    if source == SCRAPED_SOURCE then ScrapeLeroyMerlin(product, engine, fetch) else None
  }

  /**
    The single-product price: a truthy scrape wins; otherwise the fallback
    entry for (source, product); otherwise `0` (`price || 0`). An unknown
    source does not borrow the default source's table here.
  */
  function SinglePrice(source: string, product: string, scraped: Option<real>, table: map<string, PriceTable>): (price: real)
    ensures Truthy(scraped) ==> price == scraped.value
    ensures !Truthy(scraped) && FallbackLookup(table, source, product).Some? ==>
      price == FallbackLookup(table, source, product).value
    ensures !Truthy(scraped) && FallbackLookup(table, source, product).None? ==> price == 0.0
  {
    if Truthy(scraped) then scraped.value
    else if source in table then FallbackLookup(table, source, product).GetOr(0.0)
    else 0.0
  }

  /** Every entry of a table of tables is a positive price. */
  ghost predicate AllPositive(table: map<string, PriceTable>) {
    forall source, product :: source in table && product in table[source] ==> table[source][product] > 0.0
  }

  /** The shape of a successful `/prices` reply: the resolved source and its price map. */
  datatype PriceResponse = PriceResponse(source: string, prices: map<string, real>)

  /**
    `handleRequest` on `/prices`: with a (non-empty) product, one price under
    that key; without one, the source's whole fallback table, or the default
    source's table when the source is unknown.
  */
  function HandlePrices(sourceParam: Option<string>, productParam: Option<string>, engine: Engine, fetch: Fetcher): (resp: PriceResponse)
    ensures resp.source == SourceParam(sourceParam)
    ensures productParam.Some? && productParam.value != "" ==>
      resp.prices.Keys == {productParam.value}
    ensures productParam.None? || productParam.value == "" ==>
      resp.prices == if resp.source in FALLBACK_PRICES then FALLBACK_PRICES[resp.source] else FALLBACK_PRICES[DEFAULT_SOURCE]
  {
    var source := SourceParam(sourceParam);
    if productParam.Some? && productParam.value != "" then
      var product := productParam.value;
      var scraped := ScrapeFor(source, product, engine, fetch);
      PriceResponse(source, map[product := SinglePrice(source, product, scraped, FALLBACK_PRICES)])
    else
      PriceResponse(source, if source in FALLBACK_PRICES then FALLBACK_PRICES[source] else FALLBACK_PRICES[DEFAULT_SOURCE])
  }

  // ---------------------------------------------------------------------------
  // Properties of the endpoint
  // ---------------------------------------------------------------------------

  /** Every fallback price is positive, and the default source has a table. */
  lemma FallbackPricesWellFormed()
    ensures AllPositive(FALLBACK_PRICES)
    ensures DEFAULT_SOURCE in FALLBACK_PRICES
    ensures SCRAPED_SOURCE in FALLBACK_PRICES
  {
    forall source, product | source in FALLBACK_PRICES && product in FALLBACK_PRICES[source]
      ensures FALLBACK_PRICES[source][product] > 0.0
    {
      assert source == "obramat" || source == "leroy" || source == "alacen";
    }
  }

  /** A resolved single price is never negative: it is a scraped price in range, a fallback entry, or 0. */
  lemma SinglePriceNonNegative(source: string, product: string, engine: Engine, fetch: Fetcher)
    ensures SinglePrice(source, product, ScrapeFor(source, product, engine, fetch), FALLBACK_PRICES) >= 0.0
    ensures SinglePrice(source, product, ScrapeFor(source, product, engine, fetch), FALLBACK_PRICES) == 0.0 <==>
      FallbackLookup(FALLBACK_PRICES, source, product).None? && ScrapeFor(source, product, engine, fetch).None?
  {
    FallbackPricesWellFormed();
  }

  /** Every price the endpoint reports is non-negative. */
  lemma HandlePricesNonNegative(sourceParam: Option<string>, productParam: Option<string>, engine: Engine, fetch: Fetcher)
    ensures forall k :: k in HandlePrices(sourceParam, productParam, engine, fetch).prices ==>
      HandlePrices(sourceParam, productParam, engine, fetch).prices[k] >= 0.0
  {
    FallbackPricesWellFormed();
    var source := SourceParam(sourceParam);
    if productParam.Some? && productParam.value != "" {
      SinglePriceNonNegative(source, productParam.value, engine, fetch);
    } else {
      var table := if source in FALLBACK_PRICES then FALLBACK_PRICES[source] else FALLBACK_PRICES[DEFAULT_SOURCE];
      assert forall k :: k in table ==> table[k] > 0.0;
    }
  }

  /**
    Only `leroy` with a product touches the network: for every other request
    the reply is the same whatever the fetcher does.
  */
  lemma OnlyLeroyScrapes(sourceParam: Option<string>, productParam: Option<string>, engine: Engine, f1: Fetcher, f2: Fetcher)
    requires SourceParam(sourceParam) != SCRAPED_SOURCE || productParam.None? || productParam.value == ""
    ensures HandlePrices(sourceParam, productParam, engine, f1) == HandlePrices(sourceParam, productParam, engine, f2)
  {
  }

  /**
    For a single product of a source that is not scraped, the reply is the
    table entry, or 0 when the source or the product is unknown.
  */
  lemma SingleProductWithoutScrape(sourceParam: Option<string>, product: string, engine: Engine, fetch: Fetcher)
    requires SourceParam(sourceParam) != SCRAPED_SOURCE && product != ""
    ensures HandlePrices(sourceParam, Some(product), engine, fetch).prices ==
      map[product := FallbackLookup(FALLBACK_PRICES, SourceParam(sourceParam), product).GetOr(0.0)]
  {
  }

  /** A successful Leroy scrape is reported as-is; a failed one falls back to Leroy's table, or 0. */
  lemma LeroySingleProduct(product: string, engine: Engine, fetch: Fetcher)
    requires product != ""
    ensures var scraped := ScrapeLeroyMerlin(product, engine, fetch);
      HandlePrices(Some(SCRAPED_SOURCE), Some(product), engine, fetch).prices ==
        map[product := if scraped.Some? then scraped.value else if product in LEROY_PRICES then LEROY_PRICES[product] else 0.0]
  {
  }

  /** A failed Leroy fetch (thrown error or non-OK status) falls back to Leroy's table, or 0. */
  lemma LeroyFetchFailureFallsBack(product: string, engine: Engine, fetch: Fetcher)
    requires product in PRODUCT_SEARCH_TERMS
    requires !IsOk(fetch(SearchUrl(LEROY_SEARCH_PREFIX, PRODUCT_SEARCH_TERMS[product], "")))
    ensures HandlePrices(Some(SCRAPED_SOURCE), Some(product), engine, fetch).prices ==
      map[product := if product in LEROY_PRICES then LEROY_PRICES[product] else 0.0]
  {
    assert product != "";
  }

  /** `g_union` has no search term, so for Leroy it always resolves to its fallback price 5.99. */
  lemma GUnionUsesLeroyFallback(engine: Engine, fetch: Fetcher)
    ensures HandlePrices(Some("leroy"), Some("g_union"), engine, fetch).prices == map["g_union" := 5.99]
  {
    assert "g_union" !in PRODUCT_SEARCH_TERMS;
  }

  /** An unknown source in single-product mode yields 0, even for a product the default table prices. */
  lemma UnknownSourceSingleProductIsZero(engine: Engine, fetch: Fetcher)
    ensures "s10" in FALLBACK_PRICES[DEFAULT_SOURCE]
    ensures HandlePrices(Some("bricodepot"), Some("s10"), engine, fetch).prices == map["s10" := 0.0]
  {
    FallbackSources("bricodepot");
  }

  /** The sources the fallback table knows. */
  lemma FallbackSources(source: string)
    ensures source in FALLBACK_PRICES <==> source == "obramat" || source == "leroy" || source == "alacen"
  {
  }

  /** Without a product the default source's table answers for a missing, empty or unknown source. */
  lemma WholeTableDefaults(engine: Engine, fetch: Fetcher)
    ensures HandlePrices(None, None, engine, fetch) == PriceResponse("obramat", OBRAMAT_PRICES)
    ensures HandlePrices(Some(""), Some(""), engine, fetch) == PriceResponse("obramat", OBRAMAT_PRICES)
    ensures HandlePrices(Some("bricodepot"), None, engine, fetch) == PriceResponse("bricodepot", OBRAMAT_PRICES)
  {
    FallbackSources("bricodepot");
    assert FALLBACK_PRICES[DEFAULT_SOURCE] == OBRAMAT_PRICES;
  }

  /** Without a product a known source answers with its own table. */
  lemma WholeTableOfKnownSource(engine: Engine, fetch: Fetcher)
    ensures HandlePrices(Some("alacen"), None, engine, fetch) == PriceResponse("alacen", ALACEN_PRICES)
    ensures HandlePrices(Some("leroy"), Some(""), engine, fetch) == PriceResponse("leroy", LEROY_PRICES)
  {
    assert FALLBACK_PRICES["alacen"] == ALACEN_PRICES && FALLBACK_PRICES["leroy"] == LEROY_PRICES;
  }
}

/**
  `scrapeObramat(productKey)`: look the product up, fetch its Obramat page
  (direct URL or search), prefer the schema.org offer price divided by the
  pack quantity found on the page and rounded to cents, and otherwise hand the
  page to `extractPriceFromHTML` with Obramat's own pattern list.
*/
module Obramat {
  import opened Wrappers
  import opened NumericText
  import opened Patterns
  import opened Fetching

  // ---------------------------------------------------------------------------
  // Data the scraper consumes
  // ---------------------------------------------------------------------------

  /** The Obramat part of a catalogue entry (`product.obramat`). */
  datatype ObramatLocator = ObramatLocator(url: Option<string>)

  /** A catalogue entry of `PRODUCT_DATABASE`, reduced to the fields the scraper reads. */
  datatype ProductRecord = ProductRecord(search: string, obramat: Option<ObramatLocator>)

  type ProductDatabase = map<string, ProductRecord>

  /** The value `extractPriceFromHTML` returns when it finds a price. */
  datatype HtmlPrice = HtmlPrice(unitPrice: real, quantity: int)

  /** `extractPriceFromHTML(html, patterns)`; its definition is not part of this model. */
  type HtmlExtractor = (string, seq<Regex>) -> Option<HtmlPrice>

  const OBRAMAT_SEARCH_PREFIX: string := "https://www.obramat.es/search?q="

  /** The schema.org `"offers": { ... "price": ... }` fragment. */
  const OFFERS_PATTERN: Regex :=
    Regex("\"offers\":\\s*\\{[^}]*\"price\":\\s*\"?([\\d,\\.]+)\"?[^}]*\\}", false)

  /** Pack-size phrasings, in the order they are tried: `N UDS`, `N unidad(es)`, `pack de N`, `bolsa de N`. */
  const QUANTITY_PATTERNS: seq<Regex> := [
    Regex("(\\d+)\\s*UDS", true),
    Regex("(\\d+)\\s*unidades?", true),
    Regex("pack\\s*de\\s*(\\d+)", true),
    Regex("bolsa\\s*de\\s*(\\d+)", true)
  ]

  /** Obramat's pattern list for `extractPriceFromHTML`; the first three match a literal backslash, as written. */
  const OBRAMAT_PATTERNS: seq<Regex> := [
    Regex("([\\\\d,\\\\.]+)\\s*€\\s*IVA\\s*\\/\\s*Unidad", true),
    Regex("<span[^>]*class=\"[^\"]*mc-price__amount--big[^\"]*\"[^>]*>([\\\\d,\\\\.]+)", true),
    Regex("<span[^>]*class=\"[^\"]*mc-option-card__label[^\"]*\"[^>]*>([\\\\d,\\\\.]+)", true),
    Regex("\"price\":\\s*\"?([\\d,\\.]+)\"?", false),
    Regex("class=\"price[^\"]*\"[^>]*>([\\d,\\.]+)", false),
    Regex("<span[^>]*class=\"[^\"]*amount[^\"]*\"[^>]*>([\\d,\\.]+)", false),
    Regex("([\\d,\\.]+)\\s*€", false)
  ]

  // ---------------------------------------------------------------------------
  // The decision path
  // ---------------------------------------------------------------------------

  /** `product.obramat?.url || searchUrl`: a missing or empty direct URL means the search page. */
  function ObramatTarget(product: ProductRecord): (u: Url)
    ensures u.DirectUrl? <==>
      product.obramat.Some? && product.obramat.value.url.Some? && product.obramat.value.url.value != ""
    ensures u.DirectUrl? ==> u.address == product.obramat.value.url.value
    ensures u.SearchUrl? ==> u == SearchUrl(OBRAMAT_SEARCH_PREFIX, product.search, "")
  {
    match product.obramat
    case Some(ObramatLocator(Some(url))) =>
      if url != "" then DirectUrl(url) else SearchUrl(OBRAMAT_SEARCH_PREFIX, product.search, "")
    case _ => SearchUrl(OBRAMAT_SEARCH_PREFIX, product.search, "")
  }

  /**
    The structured-data price: the offer capture with its first comma made a
    dot, read by `parseFloat`, kept only when it is positive. There is no
    upper bound on this path.
  */
  function OfferPrice(html: string, engine: Engine): (r: Option<real>)
    ensures r.Some? ==> r.value > 0.0
    ensures r.Some? <==>
      && engine(OFFERS_PATTERN, html).Some?
      && ParseFloat(ReplaceFirstComma(engine(OFFERS_PATTERN, html).value)).Some?
      && ParseFloat(ReplaceFirstComma(engine(OFFERS_PATTERN, html).value)).value > 0.0
    ensures r.Some? ==> r.value == ParseFloat(ReplaceFirstComma(engine(OFFERS_PATTERN, html).value)).value
  {
    match engine(OFFERS_PATTERN, html)
    case None => None
    case Some(capture) =>
      var price := ParseFloat(ReplaceFirstComma(capture));
      if price.Some? && price.value > 0.0 then price else None
  }

  /**
    The pack quantity: `parseInt` of the capture of the first quantity pattern
    that matches anywhere in the page, and 1 when none matches. `None` stands
    for `NaN`; no range check is applied.
  */
  function DetectQuantity(html: string, engine: Engine): (q: Option<nat>)
    ensures FirstMatch(html, QUANTITY_PATTERNS, engine).None? ==> q == Some(1)
    ensures FirstMatch(html, QUANTITY_PATTERNS, engine).Some? ==>
      q == ParseInt(FirstMatch(html, QUANTITY_PATTERNS, engine).value)
  {
    match FirstMatch(html, QUANTITY_PATTERNS, engine)
    case None => Some(1)
    case Some(capture) => ParseInt(capture)
  }

  /** `quantity > 1 ? price / quantity : price`; a quantity of 0, 1 or `NaN` leaves the price alone. */
  function UnitPrice(price: real, quantity: Option<nat>): (u: real)
    ensures quantity.Some? && quantity.value > 1 ==> u * quantity.value as real == price
    ensures !(quantity.Some? && quantity.value > 1) ==> u == price
    ensures price > 0.0 ==> 0.0 < u <= price
  {
    if quantity.Some? && quantity.value > 1 then price / quantity.value as real else price
  }

  /** What the scraper makes of a fetched page. */
  function PriceFromPage(html: string, engine: Engine, extract: HtmlExtractor): (r: Option<real>)
    ensures OfferPrice(html, engine).Some? ==>
      r == Some(ToFixed2(UnitPrice(OfferPrice(html, engine).value, DetectQuantity(html, engine))))
    ensures OfferPrice(html, engine).None? && extract(html, OBRAMAT_PATTERNS).Some? ==>
      r == Some(extract(html, OBRAMAT_PATTERNS).value.unitPrice)
    ensures OfferPrice(html, engine).None? && extract(html, OBRAMAT_PATTERNS).None? ==> r.None?
  {
    match OfferPrice(html, engine)
    case Some(price) => Some(ToFixed2(UnitPrice(price, DetectQuantity(html, engine))))
    case None =>
      match extract(html, OBRAMAT_PATTERNS)
      case Some(found) => Some(found.unitPrice)
      case None => None
  }

  function ScrapeObramat(productKey: string, db: ProductDatabase, engine: Engine, fetch: Fetcher, extract: HtmlExtractor): (r: Option<real>)
    ensures productKey !in db ==> r.None?
    ensures productKey in db && !IsOk(fetch(ObramatTarget(db[productKey]))) ==> r.None?
    ensures productKey in db && IsOk(fetch(ObramatTarget(db[productKey]))) ==>
      r == PriceFromPage(fetch(ObramatTarget(db[productKey])).body, engine, extract)
  {
    if productKey !in db then None
    else
      var outcome := fetch(ObramatTarget(db[productKey]));
      if !IsOk(outcome) then None else PriceFromPage(outcome.body, engine, extract)
  }

  // ---------------------------------------------------------------------------
  // Properties
  // ---------------------------------------------------------------------------

  /** An unknown product is answered with `None` whatever the network would have said. */
  lemma UnknownProductFetchesNothing(productKey: string, db: ProductDatabase, engine: Engine,
                                     f1: Fetcher, f2: Fetcher, extract: HtmlExtractor)
    requires productKey !in db
    ensures ScrapeObramat(productKey, db, engine, f1, extract) == ScrapeObramat(productKey, db, engine, f2, extract) == None
  {
  }

  /**
    The structured-data branch takes precedence: once the offer price is
    positive, Obramat's pattern list and `extractPriceFromHTML` play no part,
    and the result is a whole number of cents within half a cent of the unit price.
  */
  lemma OfferTakesPrecedence(html: string, engine: Engine, x1: HtmlExtractor, x2: HtmlExtractor)
    requires OfferPrice(html, engine).Some?
    ensures PriceFromPage(html, engine, x1) == PriceFromPage(html, engine, x2)
    ensures var r := PriceFromPage(html, engine, x1).value;
      var u := UnitPrice(OfferPrice(html, engine).value, DetectQuantity(html, engine));
      && r >= 0.0
      && IsWholeCents(r)
      && u - 0.005 < r <= u + 0.005
      && ToFixed2(r) == r
  {
    ToFixed2Idempotent(UnitPrice(OfferPrice(html, engine).value, DetectQuantity(html, engine)));
  }

  /**
    Quantity priority: the first quantity pattern that matches decides, even
    when a later one would also match.
  */
  lemma QuantityFirstPatternWins(html: string, engine: Engine, i: int)
    requires IsFirstMatch(html, QUANTITY_PATTERNS, engine, i)
    ensures DetectQuantity(html, engine) == ParseInt(engine(QUANTITY_PATTERNS[i], html).value)
  {
    FirstMatchIsFirst(html, QUANTITY_PATTERNS, engine, i);
  }

  /** A quantity of 1, 0 or `NaN` leaves the price as it is, up to rounding to cents. */
  lemma NoPackKeepsPrice(price: real, quantity: Option<nat>)
    requires quantity.None? || quantity.value <= 1
    ensures ToFixed2(UnitPrice(price, quantity)) == ToFixed2(price)
  {
  }
}

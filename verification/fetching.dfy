/**
  HTTP as an oracle. The scrapers only ever choose a URL, issue one GET and
  look at whether the response was OK and at its body; headers, timeouts,
  URL encoding and the promise machinery are outside the model.
*/
module Fetching {

  /**
    A request target: a known product page, or a retailer's search page
    `prefix + encodeURIComponent(query) + suffix` (the query is kept unencoded;
    encoding belongs to the fetcher).
  */
  datatype Url =
    | DirectUrl(address: string)
    | SearchUrl(prefix: string, query: string, suffix: string)

  /** What one GET ends in: a response with its status and body text, or a thrown error (network failure, abort). */
  datatype FetchOutcome =
    | Response(status: int, body: string)
    | Thrown

  type Fetcher = Url -> FetchOutcome

  /** `response.ok`: a status in 200..299. */
  predicate IsOk(outcome: FetchOutcome) {
    outcome.Response? && 200 <= outcome.status <= 299
  }
}

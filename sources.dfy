/**
 * What the bot receives from its two web providers, with the HTTP request and
 * the JSON decoding already done by the caller: the model takes each fetch as a
 * Result value, so every way a request can raise is a Failure.
 */
module Sources {
  import opened Wrappers

  type ChatId = int

  /** The ways a fetch raises before its payload is available. */
  datatype FetchError =
    | NetworkError          // the HTTP request itself raised
    | DecodeError           // the body is not JSON
    | MissingField(key: string)  // the JSON object has no such key ("name", "articles")

  /**
   * The quote provider's answer: the text of its "name" field, and what
   * float() makes of that text, in whole cents (None when float() raises).
   */
  datatype Quote = Quote(raw: string, cents: Option<int>)

  /** One entry of the news provider's "articles" list; None for a missing key. */
  datatype Article = Article(title: Option<string>, url: Option<string>)

  /** The price in cents when the fetch succeeded and its field reads as a number. */
  function QuotedCents(quote: Result<Quote, FetchError>): (r: Option<int>)
    ensures r.Some? <==> quote.Success? && quote.value.cents.Some?
    ensures r.Some? ==> r.value == quote.value.cents.value
  {
    if quote.Success? then quote.value.cents else None
  }
}

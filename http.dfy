/** What one HTTP request made by a scraper ends in. */
module Http {

  /**
   * `Responded`: the server answered with `status` and a document, parsed into `page`.
   * `ClientFailure`: the client library raised its own error type (aiohttp's `ClientError`).
   * `OtherFailure`: any other exception surfaced by the request (a timeout reported as
   * `asyncio.TimeoutError`, a decoding error).
   */
  datatype Outcome<P> = Responded(status: int, page: P) | ClientFailure | OtherFailure
}

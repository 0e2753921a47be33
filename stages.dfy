/**
 * What the outside world hands back to the services. The crawler, the httpx
 * requests and the LLM endpoint are not modelled; each handler takes them as
 * functions from their argument to one of these outcomes, and reports which
 * of them it consulted, in order, as a trace of calls.
 */
module Stages {
  import opened Wrappers
  import opened Errors

  /**
   * `await crawler.arun(url=url, ...)`: either it raised, or it produced a
   * result whose `markdown` and `cleaned_html` fields are read. A field that
   * is `None` is modelled as the empty text: both are falsy to the code.
   */
  datatype CrawlOutcome =
    | CrawlRaised(msg: string)
    | Crawled(markdown: string, cleanedHtml: string)

  /** An httpx request: either it raised, or a response arrived. */
  datatype HttpOutcome =
    | HttpRaised(msg: string)
    | HttpResponse(status: int, body: string)

  /** A request to one of the outside collaborators. */
  datatype Call<P> =
    | CrawlCall(url: string)
    | HttpGetCall(url: string)
    | GenerateCall(prompt: P)

  /** The text a crawl stage returned, or the exception it let escape,
      with the calls it made. */
  datatype Fetch<P> = Fetch(text: Result<string, Exception>, calls: seq<Call<P>>)

  /** httpx's `Response.is_success`, the test behind `raise_for_status()`. */
  predicate IsSuccess(status: int) {
    200 <= status < 300
  }

  /** The trace holds a request to the LLM endpoint. */
  predicate Generated<P>(calls: seq<Call<P>>) {
    exists i | 0 <= i < |calls| :: calls[i].GenerateCall?
  }
}

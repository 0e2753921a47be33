/**
 * The two `crawl_url` rules side by side: main.py's, which falls back to
 * HTTP whenever the crawler gives nothing usable, and rnd/gemma_crawl.py's,
 * which falls back only when the crawler raises.
 */
module CrawlVariants {
  import opened Wrappers
  import opened Stages
  import opened ArticleText
  import Gemini = GeminiService
  import Ollama = OllamaService

  /** With non-empty markdown both services fetch the same text with one call. */
  lemma AgreeOnMarkdown(url: string, crawl: string -> CrawlOutcome, get: string -> HttpOutcome,
                        clean: string -> string)
    requires crawl(url).Crawled? && crawl(url).markdown != ""
    ensures Gemini.CrawlUrl(url, crawl, get, clean).text == Ollama.CrawlUrl(url, crawl, get).text
    ensures Gemini.CrawlUrl(url, crawl, get, clean).text == Ok(crawl(url).markdown)
    ensures |Gemini.CrawlUrl(url, crawl, get, clean).calls| == |Ollama.CrawlUrl(url, crawl, get).calls| == 1
  {
  }

  /** A crawl that returns two empty fields sends the Gemini service to the
      HTTP fallback, while the Ollama service takes the empty text, which its
      handler then rejects as too short. */
  lemma DifferOnEmptyCrawl(url: string, crawl: string -> CrawlOutcome, get: string -> HttpOutcome,
                           clean: string -> string)
    requires crawl(url) == Crawled("", "")
    ensures Gemini.CrawlUrl(url, crawl, get, clean).calls == [CrawlCall(url), HttpGetCall(url)]
    ensures Ollama.CrawlUrl(url, crawl, get) == Fetch(Ok(""), [CrawlCall(url)])
    ensures IsTooShort(Ollama.CrawlUrl(url, crawl, get).text.value)
  {
  }

  /** When the crawler raises both services fetch the same page; only main.py
      checks the status and cleans the body. */
  lemma BothFallBackWhenCrawlRaises(url: string, crawl: string -> CrawlOutcome, get: string -> HttpOutcome,
                                    clean: string -> string)
    requires crawl(url).CrawlRaised?
    ensures Gemini.CrawlUrl(url, crawl, get, clean).calls == [CrawlCall(url), HttpGetCall(url)]
    ensures Ollama.CrawlUrl(url, crawl, get).calls == [CrawlCall(url), HttpGetCall(url)]
    ensures get(url).HttpResponse? && IsSuccess(get(url).status) ==>
              Gemini.CrawlUrl(url, crawl, get, clean).text == Ok(clean(get(url).body))
              && Ollama.CrawlUrl(url, crawl, get).text == Ok(get(url).body)
    ensures get(url).HttpResponse? && !IsSuccess(get(url).status) ==>
              Gemini.CrawlUrl(url, crawl, get, clean).text.Err?
              && Ollama.CrawlUrl(url, crawl, get).text == Ok(get(url).body)
  {
  }
}

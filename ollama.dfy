/**
 * The Ollama variant of rnd/gemma_crawl.py: its simpler `crawl_url`, the
 * prompt and the sentinel-filled summary of `summarize_with_ollama`, and the
 * decision logic of its `/summarize` handler. Every outside collaborator
 * is a parameter.
 */
module OllamaService {
  import opened Wrappers
  import opened PyText
  import opened JsonValue
  import opened Errors
  import opened ArticleSchema
  import opened ArticleText
  import opened Stages

  // ---------------------------------------------------------------- crawl_url

  /**
   * `crawl_url(url)`: a crawl that returns is answered with its markdown, or
   * its cleaned HTML when the markdown is empty; only a crawl that raises
   * leads to the HTTP GET, whose body is returned whatever the status.
   */
  function CrawlUrl(url: string, crawl: string -> CrawlOutcome, get: string -> HttpOutcome): (f: Fetch<string>)
    ensures crawl(url).Crawled? ==> f.calls == [CrawlCall(url)]
    ensures crawl(url).CrawlRaised? ==> f.calls == [CrawlCall(url), HttpGetCall(url)]
    ensures crawl(url).Crawled? && crawl(url).markdown != "" ==> f.text == Ok(crawl(url).markdown)
    ensures crawl(url).Crawled? && crawl(url).markdown == "" ==> f.text == Ok(crawl(url).cleanedHtml)
    ensures crawl(url).CrawlRaised? && get(url).HttpResponse? ==> f.text == Ok(get(url).body)
    ensures crawl(url).CrawlRaised? && get(url).HttpRaised? ==> f.text == Err(Raised(get(url).msg))
  {
    match crawl(url)
    case Crawled(markdown, cleanedHtml) =>
      Fetch(Ok(if markdown != "" then markdown else cleanedHtml), [CrawlCall(url)])
    case CrawlRaised(_) =>
      var text := match get(url)
        case HttpRaised(m) => Err(Raised(m))
        case HttpResponse(_, body) => Ok(body);
      Fetch(text, [CrawlCall(url), HttpGetCall(url)])
  }

  /** The fallback does not look at the status: an error page is returned
      like a page. */
  lemma FallbackIgnoresStatus(url: string, crawl: string -> CrawlOutcome,
                              get1: string -> HttpOutcome, get2: string -> HttpOutcome)
    requires crawl(url).CrawlRaised?
    requires get1(url).HttpResponse? && get2(url).HttpResponse? && get1(url).body == get2(url).body
    ensures CrawlUrl(url, crawl, get1) == CrawlUrl(url, crawl, get2)
  {
  }

  // ---------------------------------------------------- summarize_with_ollama

  // The template is written as concatenations of short pieces only to keep
  // the verifier's work on their lengths small; the pieces join to exactly
  // the source's text.

  function PromptIntro(): string {
    "\n"
      + "    Buat ringkasan 5 " + "kalimat yang jelas, " + "padat, dan mudah "
      + "dipahami dari artikel " + "berikut.\n"
      + "    Sertakan poin-poin " + "penting yang dibahas.\n"
      + "\n"
      + "    Artikel:\n"
      + "    "
  }

  function PromptEnd(): string {
    "\n"
      + "    "
  }

  /** Lines 44-54: the article cut to 10000 characters, in the template.
      The prompt carries the cut article, which is the whole article when it
      is short enough. */
  function BuildPrompt(text: string): (r: string)
    ensures Contains(r, Truncate(text))
    ensures |text| <= MaxArticleChars ==> Contains(r, text)
  {
    ContainsInside(PromptIntro(), Truncate(text), PromptEnd());
    PromptIntro() + Truncate(text) + PromptEnd()
  }

  /** Text beyond the first 10000 characters never reaches the prompt. */
  lemma PromptIgnoresTail(text: string, extra: string)
    requires |text| >= MaxArticleChars
    ensures BuildPrompt(text + extra) == BuildPrompt(text)
  {
    TruncateIgnoresTail(text, extra);
  }

  /**
   * `resp.json().get("response", "").strip()`: the stripped `response`
   * string, `""` when the key is absent, and an `AttributeError` when the
   * body is not an object (no `.get`) or the value is not a string (no
   * `.strip`).
   */
  function RawSummary(body: Json): (r: Result<string, Exception>)
    ensures !body.JObject? ==> r == Err(AttributeError)
    ensures body.JObject? && "response" !in body.members ==> r == Ok("")
    ensures body.JObject? && "response" in body.members && body.members["response"].JString? ==>
              r == Ok(Strip(body.members["response"].str))
    ensures body.JObject? && "response" in body.members && !body.members["response"].JString? ==>
              r == Err(AttributeError)
    ensures r.Ok? ==> r.value == [] || (!IsSpace(r.value[0]) && !IsSpace(r.value[|r.value| - 1]))
  {
    match body
    case JObject(m) =>
      if "response" !in m then Ok(Strip(""))
      else if m["response"].JString? then Ok(Strip(m["response"].str))
      else Err(AttributeError)
    case _ => Err(AttributeError)
  }

  /** The text written into every field the model does not fill. */
  const NotAvailable: string := "tidak tersedia"

  /** Lines 69-74: three fixed fields, and the raw summary unless it is empty. */
  function SentinelSummary(raw: string): (s: ArticleSummary)
    ensures s.judul == NotAvailable && s.tanggal == NotAvailable && s.penulis == NotAvailable
    ensures s.ringkasan != ""
    ensures raw != "" ==> s.ringkasan == raw
    ensures raw == "" ==> s.ringkasan == NotAvailable
  {
    ArticleSummary(NotAvailable, NotAvailable, NotAvailable, if raw != "" then raw else NotAvailable)
  }

  /** A blank reply is reported as the sentinel, never as an empty summary. */
  lemma BlankReplyGivesSentinel(reply: string)
    requires IsBlank(reply)
    ensures RawSummary(JObject(map["response" := JString(reply)])) == Ok("")
    ensures SentinelSummary("").ringkasan == NotAvailable
  {
    StripRemovesOnlyBlankEnds(reply);
  }

  /** `summarize_with_ollama(text)`: the POST with the prompt,
      `raise_for_status()`, `resp.json()` and the raw summary. */
  function SummarizeWithOllama(text: string, generate: string -> HttpOutcome, decode: Decoder)
    : (r: Result<ArticleSummary, Exception>)
    ensures generate(BuildPrompt(text)).HttpRaised? ==> r == Err(Raised(generate(BuildPrompt(text)).msg))
    ensures generate(BuildPrompt(text)).HttpResponse? && !IsSuccess(generate(BuildPrompt(text)).status) ==>
              r == Err(HttpStatusError(generate(BuildPrompt(text)).status))
    ensures generate(BuildPrompt(text)).HttpResponse? && IsSuccess(generate(BuildPrompt(text)).status)
            && decode(generate(BuildPrompt(text)).body).Err? ==>
              r == Err(DecodeError(decode(generate(BuildPrompt(text)).body).error))
    ensures generate(BuildPrompt(text)).HttpResponse? && IsSuccess(generate(BuildPrompt(text)).status)
            && decode(generate(BuildPrompt(text)).body).Ok?
            && RawSummary(decode(generate(BuildPrompt(text)).body).value).Err? ==>
              r == Err(AttributeError)
    ensures r.Ok? <==>
              && generate(BuildPrompt(text)).HttpResponse? && IsSuccess(generate(BuildPrompt(text)).status)
              && decode(generate(BuildPrompt(text)).body).Ok?
              && RawSummary(decode(generate(BuildPrompt(text)).body).value).Ok?
    ensures r.Ok? ==> r.value == SentinelSummary(RawSummary(decode(generate(BuildPrompt(text)).body).value).value)
  {
    match generate(BuildPrompt(text))
    case HttpRaised(m) => Err(Raised(m))
    case HttpResponse(status, body) =>
      if !IsSuccess(status) then Err(HttpStatusError(status))
      else
        match decode(body)
        case Err(m) => Err(DecodeError(m))
        case Ok(j) =>
          match RawSummary(j)
          case Err(e) => Err(e)
          case Ok(raw) => Ok(SentinelSummary(raw))
  }

  // --------------------------------------------------------------- /summarize

  /** The outside collaborators of one request. */
  datatype Backend = Backend(
    crawl: string -> CrawlOutcome,
    get: string -> HttpOutcome,
    generate: string -> HttpOutcome,
    decode: Decoder)

  /** Why a request failed. */
  datatype Fault =
    | ContentTooShort
    | Unhandled(error: Exception)

  /** The JSON body of the handler's answer. */
  datatype Response =
    | Succeeded(data: ArticleSummary, url: string)
    | Failed(fault: Fault)

  /** The answer and the calls made to produce it. */
  datatype Run = Run(response: Response, calls: seq<Call<string>>)

  const TooShortMessage: string := "Artikel terlalu pendek atau tidak dapat diambil."
  const FailurePrefix: string := "Gagal memproses artikel: "

  /** The `"error"` text of a failed answer. */
  function ErrorMessage(fault: Fault): (m: string)
    ensures fault.Unhandled? ==> StartsWith(m, FailurePrefix) && m[|FailurePrefix|..] == Text(fault.error)
  {
    match fault
    case ContentTooShort => TooShortMessage
    case Unhandled(e) => FailurePrefix + Text(e)
  }

  /** The crawl stage of the handler, on the normalised URL. */
  function FetchArticle(url: string, env: Backend): Fetch<string> {
    CrawlUrl(NormalizeUrl(url), env.crawl, env.get)
  }

  /** The fetched text passes the length check. */
  predicate Accepted(url: string, env: Backend) {
    FetchArticle(url, env).text.Ok? && !IsTooShort(FetchArticle(url, env).text.value)
  }

  /** `summarize(url)`, lines 83-108. */
  function Summarize(url: string, env: Backend): (r: Run)
    ensures |r.calls| >= 1 && r.calls[0] == CrawlCall(NormalizeUrl(url))
    ensures && |FetchArticle(url, env).calls| <= |r.calls| <= |FetchArticle(url, env).calls| + 1
            && r.calls[..|FetchArticle(url, env).calls|] == FetchArticle(url, env).calls
    ensures !Generated(r.calls) ==> r.calls == FetchArticle(url, env).calls
    ensures FetchArticle(url, env).text.Err? ==> r.response == Failed(Unhandled(FetchArticle(url, env).text.error))
    ensures r.response == Failed(ContentTooShort) <==>
              FetchArticle(url, env).text.Ok? && IsTooShort(FetchArticle(url, env).text.value)
    ensures Generated(r.calls) <==> Accepted(url, env)
    ensures Generated(r.calls) ==>
              r.calls[|r.calls| - 1] == GenerateCall(BuildPrompt(FetchArticle(url, env).text.value))
    ensures Accepted(url, env) && SummarizeWithOllama(FetchArticle(url, env).text.value, env.generate, env.decode).Err? ==>
              r.response == Failed(Unhandled(
                SummarizeWithOllama(FetchArticle(url, env).text.value, env.generate, env.decode).error))
    ensures r.response.Succeeded? <==>
              Accepted(url, env) && SummarizeWithOllama(FetchArticle(url, env).text.value, env.generate, env.decode).Ok?
    ensures r.response.Succeeded? ==>
              && r.response.data == SummarizeWithOllama(FetchArticle(url, env).text.value, env.generate, env.decode).value
              && r.response.data.judul == NotAvailable && r.response.data.ringkasan != ""
              && r.response.url == NormalizeUrl(url) && HasScheme(r.response.url)
  {
    var target := NormalizeUrl(url);
    var fetched := FetchArticle(url, env);
    assert !Generated(fetched.calls);
    match fetched.text
    case Err(e) => Run(Failed(Unhandled(e)), fetched.calls)
    case Ok(article) =>
      if IsTooShort(article) then
        Run(Failed(ContentTooShort), fetched.calls)
      else
        var calls := fetched.calls + [GenerateCall(BuildPrompt(article))];
        assert calls[|calls| - 1].GenerateCall?;
        match SummarizeWithOllama(article, env.generate, env.decode)
        case Err(e) => Run(Failed(Unhandled(e)), calls)
        case Ok(summary) => Run(Succeeded(summary, target), calls)
  }
}

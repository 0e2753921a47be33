/**
 * The Gemini service of main.py: `crawl_url`, the prompt assembly and reply
 * handling of `summarize_with_gemini`, and the decision logic of the
 * `/summarize` handler. Every outside collaborator is a parameter.
 */
module GeminiService {
  import opened Wrappers
  import opened PyText
  import opened JsonValue
  import opened Errors
  import opened ArticleSchema
  import opened ReplyParser
  import opened Styles
  import opened ArticleText
  import opened Stages

  // ---------------------------------------------------------------- crawl_url

  /** The crawler gave nothing usable: it raised, or both fields are empty.
      Either way control reaches the HTTP fallback after the `try`. */
  predicate NeedsFallback(o: CrawlOutcome) {
    o.CrawlRaised? || (o.markdown == "" && o.cleanedHtml == "")
  }

  /** The HTTP fallback, lines 84-87: `raise_for_status()` lets only a
      2xx response through, whose body goes through `clean_html`. */
  function FallbackText(resp: HttpOutcome, clean: string -> string): (r: Result<string, Exception>)
    ensures r.Ok? <==> resp.HttpResponse? && IsSuccess(resp.status)
    ensures r.Ok? ==> r.value == clean(resp.body)
    ensures resp.HttpResponse? && !IsSuccess(resp.status) ==> r == Err(HttpStatusError(resp.status))
    ensures resp.HttpRaised? ==> r == Err(Raised(resp.msg))
  {
    match resp
    case HttpRaised(m) => Err(Raised(m))
    case HttpResponse(status, body) =>
      if IsSuccess(status) then Ok(clean(body)) else Err(HttpStatusError(status))
  }

  /**
   * `crawl_url(url)`: non-empty markdown as it is, else non-empty cleaned
   * HTML through the cleaner, else the HTTP fallback. An exception of the
   * crawler is swallowed; one of the fallback escapes.
   */
  function CrawlUrl(url: string, crawl: string -> CrawlOutcome, get: string -> HttpOutcome,
                    clean: string -> string): (f: Fetch<Prompt>)
    ensures !NeedsFallback(crawl(url)) ==> f.calls == [CrawlCall(url)]
    ensures NeedsFallback(crawl(url)) ==> f.calls == [CrawlCall(url), HttpGetCall(url)]
    ensures crawl(url).Crawled? && crawl(url).markdown != "" ==> f.text == Ok(crawl(url).markdown)
    ensures crawl(url).Crawled? && crawl(url).markdown == "" && crawl(url).cleanedHtml != "" ==>
              f.text == Ok(clean(crawl(url).cleanedHtml))
    ensures NeedsFallback(crawl(url)) ==> f.text == FallbackText(get(url), clean)
  {
    var result := crawl(url);
    if result.Crawled? && result.markdown != "" then
      Fetch(Ok(result.markdown), [CrawlCall(url)])
    else if result.Crawled? && result.cleanedHtml != "" then
      Fetch(Ok(clean(result.cleanedHtml)), [CrawlCall(url)])
    else
      Fetch(FallbackText(get(url), clean), [CrawlCall(url), HttpGetCall(url)])
  }

  /** A crawl that returns two empty fields ends exactly like one that raised. */
  lemma EmptyCrawlLikeRaisedCrawl(url: string, empty: string -> CrawlOutcome, failing: string -> CrawlOutcome,
                                  get: string -> HttpOutcome, clean: string -> string)
    requires empty(url) == Crawled("", "")
    requires failing(url).CrawlRaised?
    ensures CrawlUrl(url, empty, get, clean) == CrawlUrl(url, failing, get, clean)
  {
  }

  /** Non-empty markdown wins: neither the cleaned HTML, the cleaner nor the
      HTTP fallback has any say. */
  lemma MarkdownWins(url: string, markdown: string, html1: string, html2: string,
                     crawl1: string -> CrawlOutcome, crawl2: string -> CrawlOutcome,
                     get1: string -> HttpOutcome, get2: string -> HttpOutcome,
                     clean1: string -> string, clean2: string -> string)
    requires markdown != ""
    requires crawl1(url) == Crawled(markdown, html1) && crawl2(url) == Crawled(markdown, html2)
    ensures CrawlUrl(url, crawl1, get1, clean1) == CrawlUrl(url, crawl2, get2, clean2)
    ensures CrawlUrl(url, crawl1, get1, clean1).text == Ok(markdown)
  {
  }

  /** A failing fallback is never turned into text. */
  lemma FallbackErrorsEscape(url: string, crawl: string -> CrawlOutcome, get: string -> HttpOutcome,
                             clean: string -> string)
    requires NeedsFallback(crawl(url))
    requires get(url).HttpRaised? || !IsSuccess(get(url).status)
    ensures CrawlUrl(url, crawl, get, clean).text.Err?
  {
  }

  // ----------------------------------------------------- summarize_with_gemini

  // The template is written as concatenations of short pieces only to keep
  // the verifier's work on their lengths small; the pieces join to exactly
  // the source's text.

  function PromptIntro(): string {
    "\n"
      + "    Analisis artikel " + "berikut dan berikan " + "ringkasan dalam format "
      + "JSON yang valid dengan " + "struktur:\n"
      + "    {\n"
      + "        \"judul\": \"judul " + "artikel\",\n"
      + "        \"tanggal\": " + "\"tanggal publikasi atau " + "'tidak tersedia'\",\n"
      + "        \"penulis\": " + "\"nama penulis atau " + "'tidak tersedia'\", \n"
      + "        \"ringkasan\": " + "\"ringkasan artikel\"\n"
      + "    }\n"
      + "\n"
      + "    INSTRUKSI GAYA " + "PENULISAN:\n"
      + "    "
  }

  function PromptInstructions(): string {
    "\n"
      + "\n"
      + "    INSTRUKSI " + "RINGKASAN:\n"
      + "    Pelajari isi " + "artikel yang sudah " + "diberikan lalu berikan "
      + "kepada saya penjelasan " + "yang singkat, jelas, " + "dan padat dari artikel "
      + "tersebut. Buat " + "ringkasan dalam bentuk " + "paragraf sepanjang 5 "
      + "kalimat dan pada setiap " + "kalimat saya berharap " + "Anda mencantumkan poin "
      + "penting dari artikel " + "yang telah dibaca. \n"
      + "\n"
      + "    Berikan dengan " + "kata-kata Anda sendiri " + "yang dapat mudah "
      + "dipahami. Intinya bukan " + "membahas tentang apa " + "yang ada di dalam "
      + "artikel, namun artikel " + "tersebut membahas apa " + "dan Anda menjelaskannya "
      + "kepada saya, layaknya " + "seorang dosen yang " + "membaca buku lalu "
      + "memberikan penjelasan " + "terhadap mahasiswanya.\n"
      + "\n"
      + "    PENTING: Gunakan " + "bahasa Indonesia yang " + "sesuai dengan gaya \""
  }

  function PromptArticleHeading(): string {
    "\" yang telah dipilih.\n"
      + "    \n"
      + "    Artikel:\n"
      + "    "
  }

  function PromptEnd(): string {
    "\n"
      + "    "
  }

  /** What the template of lines 110-131 is filled with: the style entry
      (by its id) and the article. */
  datatype Prompt = Prompt(style: StyleId, article: string)

  /** The prompt text: the template of lines 110-131, filled in. It carries
      the entry's instruction, its name and the article. */
  function PromptText(p: Prompt): (r: string)
    ensures Contains(r, Definition(p.style).promptAddition)
    ensures Contains(r, Definition(p.style).name)
    ensures Contains(r, p.article)
  {
    var entry := Definition(p.style);
    var head := PromptIntro() + entry.promptAddition;
    var tail := PromptArticleHeading() + p.article + PromptEnd();
    ContainsInside(PromptIntro(), entry.promptAddition,
                   PromptInstructions() + entry.name + tail);
    ContainsInside(PromptInstructions(), entry.name, tail);
    ContainsInSuffix(head, PromptInstructions() + entry.name + tail, entry.name);
    ContainsInside(PromptArticleHeading(), p.article, PromptEnd());
    ContainsInSuffix(PromptInstructions() + entry.name, tail, p.article);
    ContainsInSuffix(head, PromptInstructions() + entry.name + tail, p.article);
    PromptIntro() + entry.promptAddition
      + (PromptInstructions() + entry.name + (PromptArticleHeading() + p.article + PromptEnd()))
  }

  /** Lines 104-108: the article cut to 10000 characters and the style
      looked up with its fallback to `casual`. */
  function BuildPrompt(text: string, style: string): (p: Prompt)
    ensures |p.article| <= MaxArticleChars && |p.article| <= |text| && p.article == text[..|p.article|]
    ensures |text| <= MaxArticleChars ==> p.article == text
    ensures IsKnown(style) ==> Key(p.style) == style
    ensures !IsKnown(style) ==> p.style == DefaultStyle
  {
    Prompt(Lookup(style), Truncate(text))
  }

  /** An unknown style builds the same prompt as `casual`. */
  lemma UnknownStylePromptIsCasual(text: string, style: string)
    requires !IsKnown(style)
    ensures BuildPrompt(text, style) == BuildPrompt(text, "casual")
  {
    UnknownStylesFallBackToCasual(style);
  }

  /** Text beyond the first 10000 characters never reaches the prompt. */
  lemma PromptIgnoresTail(text: string, extra: string, style: string)
    requires |text| >= MaxArticleChars
    ensures BuildPrompt(text + extra, style) == BuildPrompt(text, style)
  {
    TruncateIgnoresTail(text, extra);
  }

  /** What the Gemini endpoint gives back: the exception of the request, of
      `raise_for_status()` or of following the response path, or the text at
      `candidates[0].content.parts[0].text`. */
  datatype LlmOutcome =
    | LlmRaised(msg: string)
    | LlmReplied(text: string)

  /** Lines 144-147 on the reply: strip, `safe_extract_json`, whose decode
      error escapes, and `ArticleSummary(**parsed)`. */
  function ParseReply(reply: string, decode: Decoder): (r: Result<ArticleSummary, Exception>)
    ensures SafeExtractJson(reply, decode).Err? ==> r == Err(DecodeError(SafeExtractJson(reply, decode).error))
    ensures SafeExtractJson(reply, decode).Ok? ==> r == FromJson(SafeExtractJson(reply, decode).value)
  {
    StripBeforeExtract(reply, decode);
    match SafeExtractJson(Strip(reply), decode)
    case Err(m) => Err(DecodeError(m))
    case Ok(j) => FromJson(j)
  }

  /** `summarize_with_gemini(text, style)`. */
  function SummarizeWithGemini(text: string, style: string, generate: Prompt -> LlmOutcome,
                               decode: Decoder): (r: Result<ArticleSummary, Exception>)
    ensures generate(BuildPrompt(text, style)).LlmRaised? ==>
              r == Err(Raised(generate(BuildPrompt(text, style)).msg))
    ensures generate(BuildPrompt(text, style)).LlmReplied? ==>
              r == ParseReply(generate(BuildPrompt(text, style)).text, decode)
  {
    match generate(BuildPrompt(text, style))
    case LlmRaised(m) => Err(Raised(m))
    case LlmReplied(reply) => ParseReply(reply, decode)
  }

  /** A summary comes out only when the parsed reply holds the four fields
      as strings, and it carries them unchanged. */
  lemma SummaryOnlyFromCompleteReply(reply: string, decode: Decoder)
    ensures ParseReply(reply, decode).Ok? <==>
              SafeExtractJson(reply, decode).Ok? && HasSummaryFields(SafeExtractJson(reply, decode).value)
    ensures ParseReply(reply, decode).Ok? ==>
              Carries(SafeExtractJson(reply, decode).value, ParseReply(reply, decode).value)
  {
  }

  /** A reply that wraps the dump of a summary in a code fence yields that summary. */
  lemma FencedReplyYieldsSummary(lead: string, tag: string, gap: string, t: string,
                                 trail: string, tail: string, decode: Decoder, s: ArticleSummary)
    requires IsBlank(lead) && IsBlank(gap) && IsBlank(trail) && IsBlank(tail)
    requires tag == "" || IsJsonTag(tag)
    requires |t| >= 2 && t[0] == '{' && t[|t| - 1] == '}'
    requires decode(t) == Ok(ToJson(s))
    ensures ParseReply(lead + Fence + tag + gap + t + trail + Fence + tail, decode) == Ok(s)
  {
    FencedObjectRecovered(lead, tag, gap, t, trail, tail, decode);
    DumpThenValidate(s);
  }

  // --------------------------------------------------------------- /summarize

  /** The outside collaborators of one request. */
  datatype Backend = Backend(
    crawl: string -> CrawlOutcome,
    get: string -> HttpOutcome,
    clean: string -> string,
    generate: Prompt -> LlmOutcome,
    decode: Decoder)

  /** Why a request failed. */
  datatype Fault =
    | InvalidStyle(style: string)
    | ContentTooShort
    | Unhandled(error: Exception)

  /** The JSON body of the handler's answer. Its `style_info`,
      `STYLE_CONTEXTS[style]`, is given by the entry's id: the entry is
      `Definition(styleInfo)`. */
  datatype Response =
    | Succeeded(data: ArticleSummary, url: string, style: string, styleInfo: StyleId)
    | Failed(fault: Fault)

  /** The answer and the calls made to produce it. */
  datatype Run = Run(response: Response, calls: seq<Call<Prompt>>)

  const TooShortMessage: string := "Artikel terlalu pendek atau tidak dapat diambil. Pastikan URL artikel valid."
  const FailurePrefix: string := "Gagal memproses artikel: "

  /** The `"error"` text of a failed answer: the rejection of a style names
      it and every valid one, and an escaped exception is reported with its
      own text behind the prefix. */
  function ErrorMessage(fault: Fault): (m: string)
    ensures fault.InvalidStyle? ==> Contains(m, fault.style) && forall id: StyleId :: Contains(m, Key(id))
    ensures fault.Unhandled? ==> StartsWith(m, FailurePrefix) && m[|FailurePrefix|..] == Text(fault.error)
  {
    match fault
    case InvalidStyle(style) => InvalidStyleMessage(style)
    case ContentTooShort => TooShortMessage
    case Unhandled(e) => FailurePrefix + Text(e)
  }

  /** The crawl stage of the handler, on the normalised URL. */
  function FetchArticle(url: string, env: Backend): Fetch<Prompt> {
    CrawlUrl(NormalizeUrl(url), env.crawl, env.get, env.clean)
  }

  /** The fetched text passes the length check. */
  predicate Accepted(url: string, env: Backend) {
    FetchArticle(url, env).text.Ok? && !IsTooShort(FetchArticle(url, env).text.value)
  }

  /** `summarize(url, style)`, lines 157-189. */
  function Summarize(url: string, style: string, env: Backend): (r: Run)
    ensures r.response == Failed(InvalidStyle(style)) <==> !IsKnown(style)
    ensures !IsKnown(style) ==> r.calls == []
    ensures IsKnown(style) ==> |r.calls| >= 1 && r.calls[0] == CrawlCall(NormalizeUrl(url))
    ensures IsKnown(style) ==>
              && |FetchArticle(url, env).calls| <= |r.calls| <= |FetchArticle(url, env).calls| + 1
              && r.calls[..|FetchArticle(url, env).calls|] == FetchArticle(url, env).calls
    ensures IsKnown(style) && !Generated(r.calls) ==> r.calls == FetchArticle(url, env).calls
    ensures IsKnown(style) && FetchArticle(url, env).text.Err? ==>
              r.response == Failed(Unhandled(FetchArticle(url, env).text.error))
    ensures r.response == Failed(ContentTooShort) <==>
              IsKnown(style) && FetchArticle(url, env).text.Ok? && IsTooShort(FetchArticle(url, env).text.value)
    ensures Generated(r.calls) <==> IsKnown(style) && Accepted(url, env)
    ensures Generated(r.calls) ==>
              r.calls[|r.calls| - 1] == GenerateCall(BuildPrompt(FetchArticle(url, env).text.value, style))
    ensures IsKnown(style) && Accepted(url, env)
            && SummarizeWithGemini(FetchArticle(url, env).text.value, style, env.generate, env.decode).Err? ==>
              r.response == Failed(Unhandled(
                SummarizeWithGemini(FetchArticle(url, env).text.value, style, env.generate, env.decode).error))
    ensures r.response.Succeeded? <==>
              IsKnown(style) && Accepted(url, env)
              && SummarizeWithGemini(FetchArticle(url, env).text.value, style, env.generate, env.decode).Ok?
    ensures r.response.Succeeded? ==>
              && r.response.data == SummarizeWithGemini(FetchArticle(url, env).text.value, style, env.generate, env.decode).value
              && r.response.url == NormalizeUrl(url) && HasScheme(r.response.url)
              && r.response.style == style
              && r.response.styleInfo == ParseStyle(style).value
  {
    if !IsKnown(style) then
      Run(Failed(InvalidStyle(style)), [])
    else
      var target := NormalizeUrl(url);
      var fetched := FetchArticle(url, env);
      assert !Generated(fetched.calls);
      match fetched.text
      case Err(e) => Run(Failed(Unhandled(e)), fetched.calls)
      case Ok(article) =>
        if IsTooShort(article) then
          Run(Failed(ContentTooShort), fetched.calls)
        else
          var calls := fetched.calls + [GenerateCall(BuildPrompt(article, style))];
          assert calls[|calls| - 1].GenerateCall?;
          match SummarizeWithGemini(article, style, env.generate, env.decode)
          case Err(e) => Run(Failed(Unhandled(e)), calls)
          case Ok(summary) => Run(Succeeded(summary, target, style, Lookup(style)), calls)
  }

  /** A request for a known style, whose page yields a long enough article
      and whose reply wraps the dump of a summary in a code fence, succeeds
      with that summary. */
  lemma FencedSummaryScenario(url: string, style: string, env: Backend, lead: string, tag: string,
                              gap: string, t: string, trail: string, tail: string, s: ArticleSummary)
    requires IsKnown(style) && Accepted(url, env)
    requires IsBlank(lead) && IsBlank(gap) && IsBlank(trail) && IsBlank(tail)
    requires tag == "" || IsJsonTag(tag)
    requires |t| >= 2 && t[0] == '{' && t[|t| - 1] == '}'
    requires env.decode(t) == Ok(ToJson(s))
    requires env.generate(BuildPrompt(FetchArticle(url, env).text.value, style))
             == LlmReplied(lead + Fence + tag + gap + t + trail + Fence + tail)
    ensures Summarize(url, style, env).response
            == Succeeded(s, NormalizeUrl(url), style, ParseStyle(style).value)
  {
    FencedReplyYieldsSummary(lead, tag, gap, t, trail, tail, env.decode, s);
  }
}



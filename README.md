# AI Article Summarizer: a Dafny model of its decision layer

The repository runs two small web services that summarise a news article given
by URL. `main.py` asks Google Gemini for a JSON summary in one of six
writing styles. `rnd/gemma_crawl.py` asks a self-hosted Ollama model for
plain prose and fills the other fields with a sentinel. Both services do four
things:

1. They fetch the page with a headless crawler and fall back to a plain HTTP
   GET.
2. They reject pages whose text is too short.
3. They cut the article to 10000 characters and embed it in a prompt.
4. They turn the model's reply into an `ArticleSummary` record.

This project models that text handling and decision logic as pure
functions, and proves what the code promises about them. The crawler, the
HTTP client, the LLM endpoints, `clean_html` and `json.loads` are not
modelled. Each is a function-typed parameter, so every result holds for
whatever they return. A trace records the calls to the crawler, the HTTP GET
and the LLM endpoint, in order; the calls to `clean_html` and `json.loads`
are not traced.

Modules, one concept each:

- `Wrappers` (wrappers.dfy): `Option` and `Result`.
- `PyText` (pytext.dfy): Python's `str.strip` with its whitespace set,
  `find`/`rfind` returning -1, `", ".join`, `startswith`/`endswith` and
  substring containment.
- `JsonValue` and `Errors` (json.dfy): decoded JSON values, the decoder
  parameter, and the exceptions a stage can raise.
- `ArticleSchema` (summary.dfy): the pydantic record and
  `ArticleSummary(**parsed)`.
- `ReplyParser` (reply.dfy): `safe_extract_json`, which strips the reply,
  removes a Markdown code fence, decodes strictly and then recovers the span
  from the first `{` to the last `}`.
- `Styles` (styles.dfy): the `STYLE_CONTEXTS` table, the lookup and its
  fallback, and the rejection message.
- `ArticleText` (article.dfy): URL scheme normalisation, the too-short check
  and the 10000-character cut, which both services share.
- `Stages` (stages.dfy): the outcomes of the outside collaborators, and the
  call trace.
- `GeminiService` (gemini.dfy): `crawl_url`, `summarize_with_gemini` and the
  `/summarize` handler of main.py.
- `OllamaService` (ollama.dfy): the same three for rnd/gemma_crawl.py.
- `CrawlVariants` (variants.dfy): the two crawl rules compared.

Three behaviours of the code are worth naming, because a reader might
expect otherwise:

- main.py's record accepts an empty synopsis
  (`ArticleSchema.EmptySynopsisAccepted`). The Ollama variant never produces
  an empty one, because it substitutes the sentinel.
- main.py takes the HTTP fallback not only when the crawler raises but also
  when it returns with both `markdown` and `cleaned_html` empty
  (`GeminiService.EmptyCrawlLikeRaisedCrawl`). rnd/gemma_crawl.py takes it
  only when the crawler raises.
- main.py turns a non-2xx fallback status into an error.
  rnd/gemma_crawl.py returns the fallback body whatever its status
  (`OllamaService.FallbackIgnoresStatus`).

## Model

| member | source | states |
|---|---|---|
| PyText.IsSpace | main.py:90 | exactly the characters of Python's `str.isspace()`, which `strip` removes and `\s` matches (main.py:92-93, and the strip of main.py:169); no contract, every strip and fence result depends on it |
| PyText.Join | main.py:162 | `sep.join(xs)`: no contract; `JoinContainsEach` states what it keeps |
| PyText.Strip | main.py:90 | `str.strip()`: the result is no longer than the text, and neither of its ends is a Python whitespace character |
| PyText.StripRemovesOnlyBlankEnds | main.py:90 | `strip` removes only a whitespace prefix and a whitespace suffix; the rest is kept unchanged and in place |
| PyText.StripOf | main.py:90 | whitespace, then a core with non-space ends, then whitespace, strips to exactly that core |
| PyText.StripIdempotent | main.py:90 | stripping twice is stripping once |
| PyText.TrimStartSplits | main.py:90 | the leading-whitespace removal keeps a suffix of the text and drops only whitespace |
| PyText.TrimEndSplits | main.py:90 | the trailing-whitespace removal keeps a prefix of the text and drops only whitespace |
| PyText.IndexOf | main.py:97 | `find`: -1 exactly when the character is absent, otherwise the position of its first occurrence |
| PyText.LastIndexOf | main.py:98 | `rfind`: -1 exactly when the character is absent, otherwise the position of its last occurrence |
| PyText.JoinContainsEach | main.py:162 | every item of a `join` occurs in the joined text |
| Errors.Text | main.py:188 | `str(e)`: the message of a raising httpx call or LLM endpoint and of the decoder is kept as given; the other texts are abbreviated (rnd/gemma_crawl.py does the same at line 107); no contract |
| ArticleSchema.FailingFields | main.py:27-31 | lists exactly the required fields that are missing or not strings |
| ArticleSchema.FromJson | main.py:147 | `ArticleSummary(**parsed)`: succeeds exactly when the value is an object whose four required keys hold strings, and then copies those strings; a non-object value is a TypeError; otherwise a validation error names exactly the failing fields |
| ArticleSchema.ToJson | main.py:179 | `model_dump()` gives an object with exactly the four keys, holding the record's strings |
| ArticleSchema.DumpThenValidate | main.py:179 | validating a dump gives the record back |
| ArticleSchema.CarriesUnique | main.py:27-31 | an object holds at most one summary |
| ArticleSchema.ExtraKeysIgnored | main.py:147 | keys other than the four required ones never change the outcome |
| ArticleSchema.EmptySynopsisAccepted | main.py:27-31 | an empty `ringkasan` passes validation |
| ReplyParser.DropTag | main.py:92 | the optional `(?:json)?` group removes four characters matching `json` case-insensitively, or nothing |
| ReplyParser.DropOpeningFence | main.py:92 | the opening pattern keeps a suffix of the text after the fence, and that suffix does not start with whitespace |
| ReplyParser.OpeningFenceRemoves | main.py:92 | the opening pattern removes the fence followed by whitespace, or by the tag and whitespace; a tag present is always removed |
| ReplyParser.DropClosingFence | main.py:93 | the closing pattern never lengthens the text, and leaves it unchanged when it does not end in a fence |
| ReplyParser.ClosingFenceRemoves | main.py:93 | at the very end it removes exactly a whitespace run and the fence, and what is kept does not end in whitespace |
| ReplyParser.ClosingFenceRemovesBeforeNewline | main.py:93 | `$` also matches before a final newline: the run and the fence go, and the newline stays |
| ReplyParser.StripFences | main.py:91-93 | text that does not open with a fence is left as it is; from text that does, at least the three backticks are removed |
| ReplyParser.CleanReply | main.py:90-93 | the text the strict decode sees: an unfenced reply is only stripped, and cleaning never lengthens the reply |
| ReplyParser.FencedReplyClosing | main.py:90-93 | after `strip`, the closing pattern only ever meets a fence at the very end |
| ReplyParser.BraceGuard | main.py:97-99 | the guard `start != -1 and end != -1 and end > start` holds exactly when some `{` precedes some `}` |
| ReplyParser.ObjectSpan | main.py:100 | the recovered span starts with `{` and ends with `}` |
| ReplyParser.IndexOfAt | main.py:97 | `find` answers the first occurrence |
| ReplyParser.LastIndexOfAt | main.py:98 | `rfind` answers the last occurrence |
| ReplyParser.SpanOfSplit | main.py:97-100 | with no `{` before an object and no `}` after it, the span is exactly the object |
| ReplyParser.DecodeCleaned | main.py:94-101 | a strict success is returned as it is; after a strict failure the span's decode is returned if there is a span, errors included; otherwise the strict error is returned |
| ReplyParser.SafeExtractJson | main.py:89-101 | `safe_extract_json`: the strict decode of the cleaned reply when it succeeds; after a strict failure, the decode of the span from the first `{` to the last `}` when there is one, its error escaping; otherwise the strict error |
| ReplyParser.StripBeforeExtract | main.py:144-145 | stripping the reply before `safe_extract_json` changes nothing |
| ReplyParser.DropTagOf | main.py:92 | the tag is removed when present, and nothing otherwise |
| ReplyParser.OpeningFenceOf | main.py:92 | fence, tag and whitespace before a `{` are removed exactly |
| ReplyParser.ClosingFenceOf | main.py:93 | whitespace and the final fence after the object are removed exactly |
| ReplyParser.DecodeObjectText | main.py:94-100 | text that is itself one `{...}` span decodes to the decoder's answer for it |
| ReplyParser.FenceBlockCleansTo | main.py:91-93 | a fenced block, tagged `json` or untagged, cleans to the object inside it |
| ReplyParser.FencedReplyCleansTo | main.py:90-93 | the same with whitespace around the fence |
| ReplyParser.FencedObjectRecovered | main.py:89-101 | a fenced reply parses to whatever the object inside decodes to |
| ReplyParser.StripAroundObject | main.py:90 | stripping prose, object, prose trims only the outer ends |
| ReplyParser.EmbeddedObjectSpan | main.py:90-100 | with commentary around an object (no `{` before it, no `}` after it, and the reply not opening with a backtick), cleaning keeps the object, and the span rule picks exactly it; the commentary may hold inline code or fences |
| ReplyParser.EmbeddedObjectRecovered | main.py:94-101 | under the same conditions, whenever the whole cleaned reply is not valid JSON, the reply parses to what the object decodes to |
| ReplyParser.CommentedFenceRecovered | main.py:89-101 | a fenced block, tagged `json` or not, with commentary before and after it is not treated as a fence, and the span rule recovers the object inside whenever the whole reply is not valid JSON |
| Styles.Key | main.py:33-64 | the six string keys of `STYLE_CONTEXTS`, one per id; no contract, `ParseKey` and `KnownIffKey` state what they mean |
| Styles.Definition | main.py:33-64 | each id's `name`, `description` and `prompt_addition`, copied exactly from the table; no contract, `GeminiService.PromptText` states what the prompt takes from it |
| Styles.ParseStyle | main.py:159 | `style in STYLE_CONTEXTS`, answering with an entry whose key is the style given |
| Styles.ParseKey | main.py:33-64 | every key of the table is recognised as its own entry |
| Styles.KnownIffKey | main.py:159 | a style is known exactly when it is one of the six keys |
| Styles.Lookup | main.py:107 | `.get(style, STYLE_CONTEXTS["casual"])`: the entry of a known style, otherwise `casual` |
| Styles.LookupKey | main.py:107 | looking up a key gives that key's own entry |
| Styles.UnknownStylesFallBackToCasual | main.py:107 | every unknown style gets the same entry as `casual` |
| Styles.StyleOrderEnumeratesTable | main.py:33-64 | the key order lists each of the six entries exactly once |
| Styles.Position | main.py:33-64 | every entry has a place in the key order |
| Styles.StyleChoices | main.py:162 | `", ".join(STYLE_CONTEXTS.keys())` names every valid style |
| Styles.InvalidStyleMessage | main.py:160-163 | the rejection message quotes the style given and names every valid style |
| ArticleText.Truncate | main.py:104-105 | a prefix of at most 10000 characters, equal to the text when it is short enough and exactly 10000 long otherwise (rnd/gemma_crawl.py does the same at lines 44-45) |
| ArticleText.TruncateIdempotent | main.py:104-105 | cutting twice is cutting once |
| ArticleText.TruncateIgnoresTail | main.py:104-105 | nothing after the first 10000 characters matters (rnd/gemma_crawl.py does the same at lines 44-45) |
| ArticleText.HasScheme | main.py:165 | the scheme test is case-sensitive: the text starts with `http://` or `https://`, the `://` included (rnd/gemma_crawl.py does the same at line 85) |
| ArticleText.NormalizeUrl | main.py:165-166 | the result always starts with `http://` or `https://`; a URL with a scheme is unchanged, and any other gets `https://` prepended (rnd/gemma_crawl.py does the same at lines 85-86) |
| ArticleText.NormalizeUrlIdempotent | main.py:165-166 | normalising twice is normalising once (rnd/gemma_crawl.py does the same at lines 85-86) |
| ArticleText.NormalizeUrlKeepsAddress | main.py:165-166 | the submitted address is a suffix of the normalised one |
| ArticleText.IsTooShort | main.py:169 | the text is too short exactly when its stripped form has fewer than 100 characters; the emptiness test adds nothing (rnd/gemma_crawl.py does the same at line 90) |
| ArticleText.TooShortIffCoreBelowMinimum | main.py:169 | text is rejected exactly when its non-blank core is shorter than 100 characters (rnd/gemma_crawl.py does the same at line 90) |
| ArticleText.BlankIsTooShort | main.py:169 | whitespace-only text is rejected, whatever its length (rnd/gemma_crawl.py does the same at line 90) |
| ArticleText.TooShortBoundary | main.py:169 | 99 non-blank characters are rejected and 100 are accepted (rnd/gemma_crawl.py does the same at line 90) |
| GeminiService.FallbackText | main.py:84-87 | the HTTP fallback yields the cleaned body exactly for a 2xx response; any other status raises a status error, and a transport error escapes |
| GeminiService.CrawlUrl | main.py:73-87 | non-empty markdown as it is; otherwise non-empty cleaned HTML through the cleaner; otherwise, whether the crawler raised or returned two empty fields, the HTTP fallback; the GET is made exactly in that last case |
| GeminiService.EmptyCrawlLikeRaisedCrawl | main.py:77-87 | a crawl returning two empty fields ends exactly like one that raised |
| GeminiService.MarkdownWins | main.py:77-78 | with non-empty markdown, neither the HTML, the cleaner nor the fallback affects the result |
| GeminiService.FallbackErrorsEscape | main.py:84-87 | a failing fallback is never turned into text |
| GeminiService.BuildPrompt | main.py:104-108 | the article in the prompt is a prefix of the text of at most 10000 characters, unchanged when short enough; the style is the one asked for when known, otherwise `casual` |
| GeminiService.PromptText | main.py:110-131 | the filled-in template contains the entry's `prompt_addition`, its `name` and the article |
| GeminiService.UnknownStylePromptIsCasual | main.py:107 | an unknown style builds the same prompt as `casual` |
| GeminiService.PromptIgnoresTail | main.py:104-105 | text past the first 10000 characters never reaches the prompt |
| GeminiService.ParseReply | main.py:144-147 | the stripped reply goes through `safe_extract_json`, whose decode error escapes, and the parsed value is validated |
| GeminiService.SummarizeWithGemini | main.py:103-147 | an exception from the endpoint escapes; otherwise the reply to the built prompt is parsed |
| GeminiService.SummaryOnlyFromCompleteReply | main.py:145-147 | a summary comes out exactly when the parsed reply holds the four fields as strings, and it carries them unchanged |
| GeminiService.FencedReplyYieldsSummary | main.py:144-147 | a fenced reply around the dump of a summary yields that summary |
| GeminiService.ErrorMessage | main.py:159-189 | the rejection of a style quotes it and names every valid style; an escaped exception is reported as the fixed prefix followed by its own text |
| GeminiService.Summarize | main.py:157-189 | an unknown style is rejected, and only it, before any call. Otherwise the crawl targets the normalised URL, and the trace is exactly the crawl stage's calls, followed by the LLM request when the LLM is asked and by nothing otherwise. A fetch error becomes a failure. Text is rejected as too short exactly when it is. The LLM is asked, with the prompt of the fetched text, exactly when the checks pass. Its errors become failures. A success carries the summary, the normalised URL, the style and the entry `STYLE_CONTEXTS[style]`, given by its id |
| GeminiService.FencedSummaryScenario | main.py:157-189 | for a known style and a long enough page, a fenced reply around a summary's dump gives exactly that success |
| OllamaService.CrawlUrl | rnd/gemma_crawl.py:32-41 | a crawl that returns gives its markdown, or its cleaned HTML when the markdown is empty, with no fallback; only a crawl that raises leads to the GET, whose body is returned and whose error escapes |
| OllamaService.FallbackIgnoresStatus | rnd/gemma_crawl.py:39-41 | the fallback's result does not depend on the status |
| OllamaService.BuildPrompt | rnd/gemma_crawl.py:44-54 | the prompt contains the cut article, and the whole article when it has at most 10000 characters |
| OllamaService.PromptIgnoresTail | rnd/gemma_crawl.py:44-45 | text past the first 10000 characters never reaches the prompt |
| OllamaService.RawSummary | rnd/gemma_crawl.py:62 | the stripped `response` string, `""` when the key is absent, and an AttributeError for a non-object body or a non-string value; the result never has whitespace at either end |
| OllamaService.SentinelSummary | rnd/gemma_crawl.py:69-74 | three fields are `tidak tersedia`; `ringkasan` is never empty, and is the raw summary when that is non-empty and the sentinel otherwise |
| OllamaService.BlankReplyGivesSentinel | rnd/gemma_crawl.py:62 | a whitespace-only reply gives the raw summary `""`, so the synopsis is the sentinel |
| OllamaService.SummarizeWithOllama | rnd/gemma_crawl.py:43-74 | endpoint errors escape and a non-2xx status raises. After a 2xx, an undecodable body escapes as the decoder's error and an unusable `response` as an AttributeError. A summary comes out exactly when the response is 2xx, decodes, and yields a raw summary. It is then the sentinel record of that raw summary |
| OllamaService.ErrorMessage | rnd/gemma_crawl.py:104-108 | an escaped exception is reported as the fixed prefix followed by its own text |
| OllamaService.Summarize | rnd/gemma_crawl.py:83-108 | the crawl targets the normalised URL, and the trace is exactly the crawl stage's calls, followed by the LLM request when the LLM is asked and by nothing otherwise. A fetch error becomes a failure. Text is rejected as too short exactly when it is. The LLM is asked exactly when the check passes, and its errors become failures. A success carries the sentinel-filled summary and the normalised URL |
| CrawlVariants.AgreeOnMarkdown | main.py:77-78 | with non-empty markdown both services fetch the same text with one call |
| CrawlVariants.DifferOnEmptyCrawl | main.py:77-87 | two empty fields send main.py to the HTTP GET, while rnd/gemma_crawl.py takes `""`, which its handler then rejects |
| CrawlVariants.BothFallBackWhenCrawlRaises | main.py:81-87 | a raising crawler sends both services to the GET; only main.py checks the status and cleans the body |

## Left out

- The FastAPI routes `/` and `/styles`, the Jinja templates, `uvicorn` start-up, `load_dotenv` and the API-key check, and the event-loop set-up are web and process plumbing.
- The network calls are left out: crawl4ai's `AsyncWebCrawler`, the httpx GET and POST requests with their 30, 60 and 120 second timeouts, and async execution. Each becomes a function parameter from its argument to an outcome.
- `clean_html` is left out, because it wraps BeautifulSoup, which is not part of this model. The cleaner is a total function parameter, so an exception raised inside it is not represented. In main.py such an exception on the crawler's HTML would be swallowed and lead to the fallback.
- `json.loads` is a decoder parameter. JSON numbers keep their lexeme, since nothing in either service reads them.
- `None` values from the crawler are modelled as the empty text, because the code only tests their truthiness.
- The Gemini response path `candidates[0].content.parts[0].text`, `raise_for_status()` and `resp.json()` of main.py:141-144 are left out. They fold into the endpoint outcome `LlmOutcome`: it is either an exception or the reply text.
- GeminiService.SummarizeWithGemini: the endpoint is given the filled-in template as a `Prompt` value (style id and cut article), whose text is `PromptText`. The model does not restate that the text itself is what is posted. Any endpoint function of the text is also a function of this value.
- GeminiService.Summarize: the answer's `style_info` is given by the id of the table entry, not by the entry's three texts. The entry is `Styles.Definition` of that id.
- Errors.Text: `str(e)` is reproduced for the messages of a raising httpx call or LLM endpoint and of the decoder. The text of httpx's status error (which names the status and the URL), and Python's and pydantic's own wording for the other exceptions, are abbreviated. A crawler's message never reaches an answer, since both services catch it.
- The default style `"casual"` of the form field (main.py:157) and of `summarize_with_gemini` (main.py:103) is route plumbing: every modelled operation takes the style explicitly.
- The debug `print`s of rnd/gemma_crawl.py:64-66 are output only.
- The Indonesian wording of both prompt templates is copied exactly. Nothing beyond containment of the style fields and the article is proved about it.


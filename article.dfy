/**
 * The checks both services apply to a request before the LLM is asked:
 * the scheme fix-up of the submitted URL, the rejection of fetched text that
 * is too short, and the cut of the article to its first 10000 characters.
 */
module ArticleText {
  import opened PyText

  /** The longest article prefix sent to the LLM. */
  const MaxArticleChars: nat := 10000

  /** The shortest stripped article the handlers accept. */
  const MinArticleChars: nat := 100

  /** `if len(text) > 10000: text = text[:10000]`. */
  function Truncate(text: string): (r: string)
    ensures |r| <= MaxArticleChars && |r| <= |text|
    ensures r == text[..|r|]
    ensures |text| <= MaxArticleChars ==> r == text
    ensures |text| > MaxArticleChars ==> |r| == MaxArticleChars
  {
    if |text| > MaxArticleChars then text[..MaxArticleChars] else text
  }

  /** Cutting twice is cutting once. */
  lemma TruncateIdempotent(text: string)
    ensures Truncate(Truncate(text)) == Truncate(text)
  {
  }

  /** Nothing after the first 10000 characters reaches the prompt. */
  lemma TruncateIgnoresTail(text: string, extra: string)
    requires |text| >= MaxArticleChars
    ensures Truncate(text + extra) == Truncate(text)
  {
    assert (text + extra)[..MaxArticleChars] == text[..MaxArticleChars];
  }

  /** `url.startswith(("http://", "https://"))`: case-sensitive, and the
      scheme counts only with its `://`. */
  predicate HasScheme(url: string)
    ensures HasScheme(url) <==>
              |url| >= 7 && url[..4] == "http" && (url[4..7] == "://" || (|url| >= 8 && url[4..8] == "s://"))
  {
    StartsWith(url, "http://") || StartsWith(url, "https://")
  }

  /** `if not url.startswith(("http://", "https://")): url = "https://" + url`. */
  function NormalizeUrl(url: string): (r: string)
    ensures HasScheme(r)
    ensures HasScheme(url) ==> r == url
    ensures !HasScheme(url) ==> r == "https://" + url
  {
    if HasScheme(url) then url
    else
      assert ("https://" + url)[..8] == "https://";
      "https://" + url
  }

  /** Normalising a normalised URL changes nothing. */
  lemma NormalizeUrlIdempotent(url: string)
    ensures NormalizeUrl(NormalizeUrl(url)) == NormalizeUrl(url)
  {
  }

  /** The submitted address survives as the tail of the normalised one. */
  lemma NormalizeUrlKeepsAddress(url: string)
    ensures EndsWith(NormalizeUrl(url), url)
  {
    var r := NormalizeUrl(url);
    assert r[|r| - |url|..] == url;
  }

  /** `not article_text or len(article_text.strip()) < 100`; the emptiness
      test is subsumed by the length test. */
  predicate IsTooShort(text: string)
    ensures IsTooShort(text) <==> |Strip(text)| < MinArticleChars
  {
    text == "" || |Strip(text)| < MinArticleChars
  }

  /** The check looks only at the stripped text: an article is accepted
      exactly when its non-blank core has at least 100 characters. */
  lemma TooShortIffCoreBelowMinimum(a: string, m: string, b: string)
    requires IsBlank(a) && IsBlank(b)
    requires m != [] ==> !IsSpace(m[0]) && !IsSpace(m[|m| - 1])
    ensures IsTooShort(a + m + b) <==> |m| < MinArticleChars
  {
    StripOf(a, m, b);
  }

  /** Text made only of whitespace is too short, however long it is. */
  lemma BlankIsTooShort(text: string)
    requires IsBlank(text)
    ensures IsTooShort(text)
  {
    StripRemovesOnlyBlankEnds(text);
  }

  /** The boundary: 99 non-blank characters are rejected, 100 accepted. */
  lemma TooShortBoundary()
    ensures IsTooShort(seq(99, _ => 'a'))
    ensures !IsTooShort(seq(100, _ => 'a'))
  {
    var short := seq(99, _ => 'a');
    var long := seq(100, _ => 'a');
    assert "" + short + "" == short;
    assert "" + long + "" == long;
    TooShortIffCoreBelowMinimum("", short, "");
    TooShortIffCoreBelowMinimum("", long, "");
  }
}

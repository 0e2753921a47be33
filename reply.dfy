/**
 * `safe_extract_json` of main.py: turning the LLM's free-text reply into a
 * decoded JSON value, tolerating a Markdown code fence around it and prose
 * before and after it.
 */
module ReplyParser {
  import opened Wrappers
  import opened PyText
  import opened JsonValue

  const Fence: string := "```"

  /** The optional tag `json` of the opening fence, matched case-insensitively.
      Under `re.IGNORECASE` a Unicode pattern's `s` also matches U+017F
      (LATIN SMALL LETTER LONG S); no other non-ASCII letter folds to these four. */
  predicate IsJsonTag(t: string) {
    && |t| == 4
    && (t[0] == 'j' || t[0] == 'J')
    && (t[1] == 's' || t[1] == 'S' || t[1] == '\U{17F}')
    && (t[2] == 'o' || t[2] == 'O')
    && (t[3] == 'n' || t[3] == 'N')
  }

  /** The optional group `(?:json)?`: greedy, so the tag is taken whenever it is there. */
  function DropTag(t: string): (r: string)
    ensures r == t || (|t| >= 4 && IsJsonTag(t[..4]) && r == t[4..])
  {
    if |t| >= 4 && IsJsonTag(t[..4]) then t[4..] else t
  }

  /** `re.sub(r"^```(?:json)?\s*", "", s, flags=re.I)` on text that starts with a fence. */
  function DropOpeningFence(s: string): (r: string)
    requires StartsWith(s, Fence)
    ensures |r| <= |s| - 3 && r == s[|s| - |r|..]
    ensures r == [] || !IsSpace(r[0])
  {
    var rest := DropTag(s[3..]);
    assert s[|s| - |rest|..] == rest;
    TrimStartSplits(rest);
    TrimStart(rest)
  }

  /** What the opening pattern removes: the fence, then either a blank run,
      or the tag followed by a blank run; the tag is never left behind. */
  lemma OpeningFenceRemoves(s: string)
    requires StartsWith(s, Fence)
    ensures var removed := s[3..|s| - |DropOpeningFence(s)|];
            || IsBlank(removed)
            || (|removed| >= 4 && IsJsonTag(removed[..4]) && IsBlank(removed[4..]))
    ensures |s| >= 7 && IsJsonTag(s[3..7]) ==> |DropOpeningFence(s)| <= |s| - 7
  {
    var rest := s[3..];
    var t := DropTag(rest);
    var r := TrimStart(t);
    TrimStartSplits(t);
    if |rest| >= 4 && IsJsonTag(rest[..4]) {
      assert s[3..|s| - |r|][..4] == rest[..4];
      assert s[3..|s| - |r|][4..] == t[..|t| - |r|];
    } else {
      assert s[3..|s| - |r|] == t[..|t| - |r|];
    }
  }

  /** `re.sub(r"\s*```$", "", s)`. Without MULTILINE, `$` matches at the end
      of the text or just before a final newline, which is kept. The leftmost
      match starts where the whitespace run in front of the fence starts. */
  function DropClosingFence(s: string): (r: string)
    ensures |r| <= |s|
    ensures !EndsWith(s, Fence) && !EndsWith(s, Fence + "\n") ==> r == s
  {
    if EndsWith(s, Fence) then TrimEnd(s[..|s| - 3])
    else if EndsWith(s, Fence + "\n") then TrimEnd(s[..|s| - 4]) + "\n"
    else s
  }

  /** What the closing pattern removes at the very end: a blank run and the
      fence, and nothing the text keeps ends in whitespace. */
  lemma ClosingFenceRemoves(s: string)
    requires EndsWith(s, Fence)
    ensures var r := DropClosingFence(s);
            && |r| <= |s| - 3 && r == s[..|r|] && IsBlank(s[|r|..|s| - 3])
            && (r == [] || !IsSpace(r[|r| - 1]))
  {
    var body := s[..|s| - 3];
    var r := TrimEnd(body);
    TrimEndSplits(body);
    assert s[|r|..|s| - 3] == body[|r|..];
  }

  /** The same before a final newline, which survives. */
  lemma ClosingFenceRemovesBeforeNewline(s: string)
    requires EndsWith(s, Fence + "\n")
    ensures var r := DropClosingFence(s);
            && 1 <= |r| <= |s| - 3 && r[|r| - 1] == '\n'
            && r[..|r| - 1] == s[..|r| - 1] && IsBlank(s[|r| - 1..|s| - 4])
            && (|r| == 1 || !IsSpace(r[|r| - 2]))
  {
    assert s[|s| - 1] == '\n';
    assert !EndsWith(s, Fence);
    var body := s[..|s| - 4];
    var kept := TrimEnd(body);
    TrimEndSplits(body);
    var r := kept + "\n";
    assert DropClosingFence(s) == r;
    assert s[|kept|..|s| - 4] == body[|kept|..];
    assert r[..|r| - 1] == kept;
  }

  /** Lines 91-93: the fence is removed only when the trimmed reply opens
      with one, and then at least the three backticks go. */
  function StripFences(s: string): (r: string)
    ensures !StartsWith(s, Fence) ==> r == s
    ensures StartsWith(s, Fence) ==> |r| <= |s| - 3
  {
    if StartsWith(s, Fence) then DropClosingFence(DropOpeningFence(s)) else s
  }

  /** The text the strict decode is attempted on: an unfenced reply is only
      stripped, and cleaning never lengthens the reply. */
  function CleanReply(raw: string): (r: string)
    ensures !StartsWith(Strip(raw), Fence) ==> r == Strip(raw)
    ensures |r| <= |raw|
  {
    StripFences(Strip(raw))
  }

  /** Some `{` comes before some `}`. */
  predicate HasObjectSpan(s: string) {
    exists i, j | 0 <= i < j < |s| :: s[i] == '{' && s[j] == '}'
  }

  /** The guard of line 99 holds exactly when some `{` precedes some `}`. */
  lemma BraceGuard(s: string)
    ensures (IndexOf(s, '{') != -1 && LastIndexOf(s, '}') != -1 && LastIndexOf(s, '}') > IndexOf(s, '{'))
            <==> HasObjectSpan(s)
  {
    var start, end := IndexOf(s, '{'), LastIndexOf(s, '}');
    if HasObjectSpan(s) {
      var i, j :| 0 <= i < j < |s| && s[i] == '{' && s[j] == '}';
      assert start <= i;
      assert end >= j;
    }
  }

  /** `s[s.find("{"):s.rfind("}") + 1]`, for text where that slice is taken. */
  function ObjectSpan(s: string): (r: string)
    requires HasObjectSpan(s)
    ensures |r| >= 2 && r[0] == '{' && r[|r| - 1] == '}'
  {
    BraceGuard(s);
    s[IndexOf(s, '{')..LastIndexOf(s, '}') + 1]
  }

  /** `find` returns the first occurrence. */
  lemma IndexOfAt(s: string, c: char, k: int)
    requires 0 <= k < |s| && s[k] == c && c !in s[..k]
    ensures IndexOf(s, c) == k
  {
    assert c in s;
  }

  /** `rfind` returns the last occurrence. */
  lemma LastIndexOfAt(s: string, c: char, k: int)
    requires 0 <= k < |s| && s[k] == c && c !in s[k + 1..]
    ensures LastIndexOf(s, c) == k
  {
    assert c in s;
  }

  /** The span rule picks out an object exactly when the text around it has
      no `{` in front and no `}` behind. */
  lemma SpanOfSplit(a: string, t: string, b: string)
    requires '{' !in a && '}' !in b
    requires |t| >= 2 && t[0] == '{' && t[|t| - 1] == '}'
    ensures HasObjectSpan(a + t + b) && ObjectSpan(a + t + b) == t
  {
    var s := a + t + b;
    var start, end := |a|, |a| + |t| - 1;
    assert s[start] == '{' && s[end] == '}';
    assert s[..start] == a;
    assert s[end + 1..] == b;
    IndexOfAt(s, '{', start);
    LastIndexOfAt(s, '}', end);
    assert s[start..end + 1] == t;
  }

  /** Lines 94-101 on the cleaned text `s`: the strict decode if it
      succeeds; otherwise the decode of the span from the first `{` to the
      last `}`, whose own error propagates; otherwise the first error again. */
  function DecodeCleaned(s: string, decode: Decoder): (r: Result<Json, string>)
    ensures decode(s).Ok? ==> r == decode(s)
    ensures decode(s).Err? && HasObjectSpan(s) ==> r == decode(ObjectSpan(s))
    ensures !HasObjectSpan(s) ==> r == decode(s)
  {
    var strict := decode(s);
    if strict.Ok? then strict
    else
      var start := IndexOf(s, '{');
      var end := LastIndexOf(s, '}');
      BraceGuard(s);
      if start != -1 && end != -1 && end > start then
        decode(s[start..end + 1])
      else
        strict
  }

  /** `safe_extract_json(raw)`: the strict decode of the cleaned reply when it
      succeeds; otherwise the decode of its brace span when there is one,
      whose error escapes; otherwise the strict error. */
  function SafeExtractJson(raw: string, decode: Decoder): (r: Result<Json, string>)
    ensures decode(CleanReply(raw)).Ok? ==> r == decode(CleanReply(raw))
    ensures decode(CleanReply(raw)).Err? && HasObjectSpan(CleanReply(raw)) ==>
              r == decode(ObjectSpan(CleanReply(raw)))
    ensures !HasObjectSpan(CleanReply(raw)) ==> r == decode(CleanReply(raw))
  {
    DecodeCleaned(CleanReply(raw), decode)
  }

  /** Stripping the reply before calling `safe_extract_json`, as main.py:144
      does, changes nothing. */
  lemma StripBeforeExtract(raw: string, decode: Decoder)
    ensures SafeExtractJson(Strip(raw), decode) == SafeExtractJson(raw, decode)
  {
    StripIdempotent(raw);
  }

  /** On trimmed text the `$` of the closing pattern never meets a final
      newline, so the fence rule is just "drop the whitespace and ``` at the end". */
  lemma FencedReplyClosing(raw: string)
    requires StartsWith(Strip(raw), Fence)
    ensures var o := DropOpeningFence(Strip(raw));
            CleanReply(raw) == if EndsWith(o, Fence) then TrimEnd(o[..|o| - 3]) else o
  {
    var s := Strip(raw);
    var o := DropOpeningFence(s);
    assert o != [] ==> o[|o| - 1] == s[|s| - 1];
  }

  /** The tag is removed when present and nothing is removed otherwise,
      provided the text behind cannot be mistaken for a tag. */
  lemma DropTagOf(tag: string, y: string)
    requires tag == "" || IsJsonTag(tag)
    requires y == [] || (y[0] != 'j' && y[0] != 'J')
    ensures DropTag(tag + y) == y
  {
    if tag == "" {
      assert tag + y == y;
    } else {
      assert (tag + y)[..4] == tag;
      assert (tag + y)[4..] == y;
    }
  }

  /** The opening pattern removes exactly the fence, its tag and the blank
      run after it, when the text behind starts with `{`. */
  lemma OpeningFenceOf(tag: string, gap: string, x: string)
    requires tag == "" || IsJsonTag(tag)
    requires IsBlank(gap)
    requires x != [] && x[0] == '{'
    ensures DropOpeningFence(Fence + tag + gap + x) == x
  {
    var s := Fence + tag + gap + x;
    var y := gap + x;
    assert s[3..] == tag + y;
    assert y[0] == if gap == [] then x[0] else gap[0];
    DropTagOf(tag, y);
    TrimStartAfterBlank(gap, x);
  }

  /** The closing pattern removes exactly a blank run and the final fence. */
  lemma ClosingFenceOf(x: string, trail: string)
    requires x != [] && !IsSpace(x[|x| - 1])
    requires IsBlank(trail)
    ensures DropClosingFence(x + trail + Fence) == x
  {
    var s := x + trail + Fence;
    assert EndsWith(s, Fence);
    assert s[..|s| - 3] == x + trail;
    TrimEndBeforeBlank(x, trail);
  }

  /** Decoding text that is itself one `{...}` span: the strict decode, or
      the span (the whole text) again, so the decoder's answer either way. */
  lemma DecodeObjectText(t: string, decode: Decoder)
    requires |t| >= 2 && t[0] == '{' && t[|t| - 1] == '}'
    ensures DecodeCleaned(t, decode) == decode(t)
  {
    assert [] + t + [] == t;
    SpanOfSplit([], t, []);
  }

  /** The fence rule applied to a fenced block (tagged `json` or not)
      around text that starts with `{` and ends with `}`, with whitespace
      inside the fences, leaves exactly that text. */
  lemma FenceBlockCleansTo(tag: string, gap: string, t: string, trail: string)
    requires IsBlank(gap) && IsBlank(trail)
    requires tag == "" || IsJsonTag(tag)
    requires |t| >= 2 && t[0] == '{' && t[|t| - 1] == '}'
    ensures StripFences(Fence + tag + gap + t + trail + Fence) == t
  {
    var x := t + trail + Fence;
    var m := Fence + tag + gap + t + trail + Fence;
    assert m == Fence + tag + gap + x;
    assert m[..3] == Fence;
    OpeningFenceOf(tag, gap, x);
    ClosingFenceOf(t, trail);
  }

  /** The same block with whitespace around it: `strip` removes that first. */
  lemma FencedReplyCleansTo(lead: string, tag: string, gap: string, t: string, trail: string, tail: string)
    requires IsBlank(lead) && IsBlank(gap) && IsBlank(trail) && IsBlank(tail)
    requires tag == "" || IsJsonTag(tag)
    requires |t| >= 2 && t[0] == '{' && t[|t| - 1] == '}'
    ensures CleanReply(lead + Fence + tag + gap + t + trail + Fence + tail) == t
  {
    var m := Fence + tag + gap + t + trail + Fence;
    assert lead + Fence + tag + gap + t + trail + Fence + tail == lead + m + tail;
    assert m[0] == '`' && m[|m| - 1] == '`';
    StripOf(lead, m, tail);
    FenceBlockCleansTo(tag, gap, t, trail);
  }

  /** Scenario of a fenced reply: the reply parses to whatever the object
      inside the fence decodes to. */
  lemma FencedObjectRecovered(lead: string, tag: string, gap: string, t: string,
                              trail: string, tail: string, decode: Decoder)
    requires IsBlank(lead) && IsBlank(gap) && IsBlank(trail) && IsBlank(tail)
    requires tag == "" || IsJsonTag(tag)
    requires |t| >= 2 && t[0] == '{' && t[|t| - 1] == '}'
    ensures SafeExtractJson(lead + Fence + tag + gap + t + trail + Fence + tail, decode) == decode(t)
  {
    FencedReplyCleansTo(lead, tag, gap, t, trail, tail);
    DecodeObjectText(t, decode);
  }

  /** The text that `strip` leaves of commentary, an object and commentary. */
  lemma StripAroundObject(p: string, t: string, q: string)
    requires |t| >= 2 && t[0] == '{' && t[|t| - 1] == '}'
    ensures Strip(p + t + q) == TrimStart(p) + t + TrimEnd(q)
  {
    assert p + t + q == p + (t + q);
    TrimStartAppend(p, t + q);
    var x := TrimStart(p) + t;
    assert TrimStart(p) + (t + q) == x + q;
    assert x[|x| - 1] == '}';
    TrimEndPrepend(x, q);
  }

  /** Dropping leading whitespace adds no character. */
  lemma TrimStartKeepsAbsent(p: string, c: char)
    requires c !in p
    ensures c !in TrimStart(p)
  {
    TrimStartSplits(p);
    var r := TrimStart(p);
    forall k | 0 <= k < |r| ensures r[k] != c { assert r[k] == p[|p| - |r| + k]; }
  }

  /** Dropping trailing whitespace adds no character. */
  lemma TrimEndKeepsAbsent(q: string, c: char)
    requires c !in q
    ensures c !in TrimEnd(q)
  {
    TrimEndSplits(q);
    var r := TrimEnd(q);
    forall k | 0 <= k < |r| ensures r[k] != c { assert r[k] == q[k]; }
  }

  /** Text that starts neither with a backtick nor, when `p` is empty, with
      anything but `{` does not open a fence. */
  lemma NoFenceBefore(p: string, t: string, q: string)
    requires p == [] || p[0] != '`'
    requires t != [] && t[0] == '{'
    ensures !StartsWith(p + t + q, Fence)
  {
    var s := p + t + q;
    assert s[0] == if p == [] then t[0] else p[0];
  }

  /** Commentary before an object (no `{` there, and not opening with a
      backtick once trimmed) and after it (no `}` there) survives cleaning up
      to surrounding whitespace, and the span rule then picks out exactly the
      object. The commentary may hold inline code or a fence of its own. */
  lemma EmbeddedObjectSpan(p: string, t: string, q: string)
    requires '{' !in p && '}' !in q
    requires TrimStart(p) == [] || TrimStart(p)[0] != '`'
    requires |t| >= 2 && t[0] == '{' && t[|t| - 1] == '}'
    ensures CleanReply(p + t + q) == TrimStart(p) + t + TrimEnd(q)
    ensures HasObjectSpan(CleanReply(p + t + q)) && ObjectSpan(CleanReply(p + t + q)) == t
  {
    StripAroundObject(p, t, q);
    TrimStartKeepsAbsent(p, '{');
    TrimEndKeepsAbsent(q, '}');
    NoFenceBefore(TrimStart(p), t, TrimEnd(q));
    SpanOfSplit(TrimStart(p), t, TrimEnd(q));
  }

  /** Scenario of an object inside prose: whenever the whole cleaned reply
      is not itself valid JSON, the reply parses to what the object decodes to. */
  lemma EmbeddedObjectRecovered(p: string, t: string, q: string, decode: Decoder)
    requires '{' !in p && '}' !in q
    requires TrimStart(p) == [] || TrimStart(p)[0] != '`'
    requires |t| >= 2 && t[0] == '{' && t[|t| - 1] == '}'
    ensures var s := CleanReply(p + t + q);
            SafeExtractJson(p + t + q, decode) == if decode(s).Ok? then decode(s) else decode(t)
  {
    EmbeddedObjectSpan(p, t, q);
  }

  /** Commentary followed by the opening of a fenced block holds no `{`
      and, once trimmed, opens with the commentary. */
  lemma FenceOpeningAfterCommentary(intro: string, tag: string, gap: string)
    requires '{' !in intro && TrimStart(intro) != [] && TrimStart(intro)[0] != '`'
    requires tag == "" || IsJsonTag(tag)
    requires IsBlank(gap)
    ensures var p := intro + (Fence + tag + gap);
            '{' !in p && TrimStart(p) != [] && TrimStart(p)[0] != '`'
  {
    var o := Fence + tag + gap;
    var p := intro + o;
    forall k | 0 <= k < |p| ensures p[k] != '{' {
      if k < |intro| {
        assert p[k] == intro[k];
      } else if k >= |intro| + |Fence| + |tag| {
        assert p[k] == gap[k - |intro| - |Fence| - |tag|];
      } else if k >= |intro| + |Fence| {
        assert p[k] == tag[k - |intro| - |Fence|];
      } else {
        assert p[k] == Fence[k - |intro|];
      }
    }
    assert o[0] == '`';
    TrimStartAppend(intro, o);
  }

  /** The closing of a fenced block followed by commentary without `}`
      holds no `}`. */
  lemma FenceClosingBeforeCommentary(trail: string, outro: string)
    requires IsBlank(trail) && '}' !in outro
    ensures '}' !in trail + Fence + outro
  {
    var q := trail + Fence + outro;
    forall k | 0 <= k < |q| ensures q[k] != '}' {
      if k < |trail| {
        assert q[k] == trail[k];
      } else if k >= |trail| + |Fence| {
        assert q[k] == outro[k - |trail| - |Fence|];
      } else {
        assert q[k] == Fence[k - |trail|];
      }
    }
  }

  /** Scenario of a fenced block with commentary before and after it, as in
      "Here is the summary: ```json {...} ``` Hope it helps". Because the reply
      does not open with the fence, the fence rule leaves it alone, and the
      span rule recovers the object whenever the whole reply is not itself
      valid JSON. */
  lemma CommentedFenceRecovered(intro: string, tag: string, gap: string, t: string,
                                trail: string, outro: string, decode: Decoder)
    requires '{' !in intro && TrimStart(intro) != [] && TrimStart(intro)[0] != '`'
    requires tag == "" || IsJsonTag(tag)
    requires IsBlank(gap) && IsBlank(trail) && '}' !in outro
    requires |t| >= 2 && t[0] == '{' && t[|t| - 1] == '}'
    ensures var raw := intro + (Fence + tag + gap) + t + (trail + Fence + outro);
            var s := CleanReply(raw);
            SafeExtractJson(raw, decode) == if decode(s).Ok? then decode(s) else decode(t)
  {
    var p := intro + (Fence + tag + gap);
    var q := trail + Fence + outro;
    FenceOpeningAfterCommentary(intro, tag, gap);
    FenceClosingBeforeCommentary(trail, outro);
    EmbeddedObjectRecovered(p, t, q, decode);
  }
}

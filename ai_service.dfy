/**
 * The review analyzer: builds the prompt, calls the text-generation service
 * (a function parameter), and turns its answer into an analysis object. The
 * answer is searched for a fenced JSON block, then for the span from the first
 * `{` to the last `}`; `JSON.parse` is a function parameter.
 */
module AIService {
  import opened Wrappers
  import opened Text
  import opened Js

  // ------------------------------------------------------------------ prompt

  const PromptHead := "\nPlease analyze this pull request and provide a comprehensive code review.\n\nPR Title: "
  const PromptMiddle := "\n\nCode Changes:\n```diff\n"
  const PromptInstructions := @"
```

Please provide your analysis in the following JSON format:
{
  ""summary"": ""Brief overall assessment of the changes"",
  ""score"": 85,
  ""comments"": [
    {
      ""content"": ""Specific feedback about the code"",
      ""type"": ""security|performance|style|logic|best-practice"",
      ""severity"": ""low|medium|high"",
      ""filePath"": ""path/to/file.js"",
      ""lineNumber"": 42
    }
  ]
}

Focus on:
1. Security vulnerabilities or concerns
2. Performance implications
3. Code style and maintainability
4. Logic errors or potential bugs
5. Best practices and design patterns

Provide constructive, specific feedback. Score should be 1-100 based on code quality.
"
  const CommentLimitRequest := "Be concise but thorough. Limit to maximum 8 comments for readability."

  /** The prompt carries the title and the diff verbatim. */
  function BuildAnalysisPrompt(diffContent: string, prTitle: string): (prompt: string)
    ensures OccursAt(prTitle, prompt, |PromptHead|)
    ensures OccursAt(diffContent, prompt, |PromptHead| + |prTitle| + |PromptMiddle|)
  {
    var withTitle := PromptHead + prTitle;
    var withDiff := withTitle + PromptMiddle + diffContent;
    var withRequest := withDiff + PromptInstructions + CommentLimitRequest;
    OccursAtEnd(PromptHead, prTitle);
    OccursInLonger(prTitle, withTitle, |PromptHead|, PromptMiddle);
    OccursInLonger(prTitle, withTitle + PromptMiddle, |PromptHead|, diffContent);
    OccursAtEnd(withTitle + PromptMiddle, diffContent);
    OccursInLonger(prTitle, withDiff, |PromptHead|, PromptInstructions);
    OccursInLonger(diffContent, withDiff, |withTitle + PromptMiddle|, PromptInstructions);
    OccursInLonger(prTitle, withDiff + PromptInstructions, |PromptHead|, CommentLimitRequest);
    OccursInLonger(diffContent, withDiff + PromptInstructions, |withTitle + PromptMiddle|, CommentLimitRequest);
    OccursInLonger(prTitle, withRequest, |PromptHead|, "\n");
    OccursInLonger(diffContent, withRequest, |withTitle + PromptMiddle|, "\n");
    withRequest + "\n"
  }

  /**
   * Six texts joined and closed by a newline: each of the first, third,
   * fifth and sixth sits at the sum of the lengths before it.
   */
  lemma JoinedParts(h: string, t: string, m: string, d: string, ins: string, lim: string)
    ensures var p := h + t + m + d + ins + lim + "\n";
            && |p| == |h| + |t| + |m| + |d| + |ins| + |lim| + 1
            && OccursAt(h, p, 0)
            && OccursAt(m, p, |h| + |t|)
            && OccursAt(ins, p, |h| + |t| + |m| + |d|)
            && OccursAt(lim + "\n", p, |h| + |t| + |m| + |d| + |ins|)
  {
    var p2 := h + t;
    var p3 := p2 + m;
    var p4 := p3 + d;
    var p5 := p4 + ins;
    var p6 := p5 + lim;
    assert OccursAt(h, h, 0) by { assert h[0..|h|] == h; }
    OccursInLonger(h, h, 0, t);
    OccursInLonger(h, p2, 0, m);
    OccursAtEnd(p2, m);
    OccursInLonger(h, p3, 0, d);
    OccursInLonger(m, p3, |p2|, d);
    OccursInLonger(h, p4, 0, ins);
    OccursInLonger(m, p4, |p2|, ins);
    OccursAtEnd(p4, ins);
    OccursInLonger(h, p5, 0, lim);
    OccursInLonger(m, p5, |p2|, lim);
    OccursInLonger(ins, p5, |p4|, lim);
    OccursInLonger(h, p6, 0, "\n");
    OccursInLonger(m, p6, |p2|, "\n");
    OccursInLonger(ins, p6, |p4|, "\n");
    OccursAtEnd(p5, lim + "\n");
    assert p5 + (lim + "\n") == p6 + "\n";
  }

  /**
   * The fixed text around the inputs: the prompt opens with the head, the
   * middle follows the title, the instructions follow the diff, and it
   * closes with the comment-limit request and a newline; nothing else is in
   * it.
   */
  lemma PromptTemplate(diffContent: string, prTitle: string)
    ensures var prompt := BuildAnalysisPrompt(diffContent, prTitle);
            var afterTitle := |PromptHead| + |prTitle|;
            var afterDiff := afterTitle + |PromptMiddle| + |diffContent|;
            && |prompt| == afterDiff + |PromptInstructions| + |CommentLimitRequest| + 1
            && OccursAt(PromptHead, prompt, 0)
            && OccursAt(PromptMiddle, prompt, afterTitle)
            && OccursAt(PromptInstructions, prompt, afterDiff)
            && OccursAt(CommentLimitRequest + "\n", prompt, afterDiff + |PromptInstructions|)
  {
    JoinedParts(PromptHead, prTitle, PromptMiddle, diffContent, PromptInstructions, CommentLimitRequest);
  }

  /** The limit of 8 comments is only a request written into the prompt. */
  lemma PromptRequestsCommentLimit(diffContent: string, prTitle: string)
    ensures IsInfix(CommentLimitRequest, BuildAnalysisPrompt(diffContent, prTitle))
  {
    var beforeLimit := PromptHead + prTitle + PromptMiddle + diffContent + PromptInstructions;
    OccursAtEnd(beforeLimit, CommentLimitRequest);
    OccursInLonger(CommentLimitRequest, beforeLimit + CommentLimitRequest, |beforeLimit|, "\n");
  }

  // -------------------------------------------------------------- extraction

  /** `t` occurs in `s` at position `i`. */
  predicate HasAt(s: string, i: nat, t: string) {
    i + |t| <= |s| && s[i..i + |t|] == t
  }

  /** The end of the run of whitespace that starts at `i`. */
  function SkipSpaces(s: string, i: nat): (j: nat)
    requires i <= |s|
    ensures i <= j <= |s|
    ensures forall k :: i <= k < j ==> IsSpace(s[k])
    ensures j == |s| || !IsSpace(s[j])
    decreases |s| - i
  {
    if i < |s| && IsSpace(s[i]) then SkipSpaces(s, i + 1) else i
  }

  /**
   * `s` has, from `at` on, three backticks, then an optional `json` ending
   * at `j`, then whitespace up to a `{` at `q`: the regex's opening part.
   */
  predicate OpensAt(s: string, at: nat, j: nat, q: nat) {
    && HasAt(s, at, "```")
    && (j == at + 3 || (j == at + 7 && HasAt(s, at + 3, "json")))
    && j <= q < |s| && (forall k :: j <= k < q ==> IsSpace(s[k])) && s[q] == '{'
  }

  /**
   * Opening of a fenced block at `at`: three backticks, an optional `json`,
   * whitespace, then `{`. Yields the position of that `{`, or `None`.
   */
  function FenceOpen(s: string, at: nat): (b: Option<nat>)
    requires at <= |s|
    ensures b.Some? ==> at + 3 <= b.value < |s| && s[b.value] == '{' && HasAt(s, at, "```")
  {
    if !HasAt(s, at, "```") then None
    else
      var q := if HasAt(s, at + 3, "json") then SkipSpaces(s, at + 7) else SkipSpaces(s, at + 3);
      if q < |s| && s[q] == '{' then Some(q) else None
  }

  /**
   * `FenceOpen` finds the opening part exactly when the regex's opening can
   * match at `at`, and then at the only `{` it can match up to.
   */
  lemma FenceOpenMatchesOpening(s: string, at: nat)
    requires at <= |s|
    ensures FenceOpen(s, at).Some? ==> exists j :: OpensAt(s, at, j, FenceOpen(s, at).value)
    ensures forall j: nat, q: nat :: OpensAt(s, at, j, q) ==> FenceOpen(s, at) == Some(q)
  {
    if HasAt(s, at, "```") {
      var tagged := HasAt(s, at + 3, "json");
      assert tagged ==> s[at + 3] == s[at + 3..at + 7][0] == 'j';
      var j := if tagged then at + 7 else at + 3;
      var q := SkipSpaces(s, j);
      if q < |s| && s[q] == '{' {
        assert OpensAt(s, at, j, q);
      }
    }
  }

  /** A `}` at `e` followed by whitespace and three backticks closes a fenced block. */
  predicate FenceCloseAt(s: string, e: nat)
    requires e < |s|
  {
    s[e] == '}' && HasAt(s, SkipSpaces(s, e + 1), "```")
  }

  /** The last closing position in `(b, hi)`: the greedy `[\s\S]*` takes the longest body. */
  function LastFenceClose(s: string, b: nat, hi: nat): (e: Option<nat>)
    requires b < hi <= |s|
    ensures e.Some? ==> b < e.value < hi && FenceCloseAt(s, e.value)
    ensures e.Some? ==> forall k :: e.value < k < hi ==> !FenceCloseAt(s, k)
    ensures e.None? ==> forall k :: b < k < hi ==> !FenceCloseAt(s, k)
    decreases hi
  {
    if hi == b + 1 then None
    else if FenceCloseAt(s, hi - 1) then Some(hi - 1)
    else LastFenceClose(s, b, hi - 1)
  }

  /** A captured text: `s[start..end]`. */
  datatype Span = Span(start: nat, end: nat)

  /** The span lies in `s`, starts with `{` and ends with `}`. */
  predicate IsBraceSpan(s: string, m: Span) {
    m.start < m.end <= |s| && s[m.start] == '{' && s[m.end - 1] == '}'
  }

  /**
   * The fenced-block match that starts at `at`, if any: the span of the
   * captured object, from the opening's `{` to the last `}` in the rest of
   * the text that a closing fence follows.
   */
  function FenceMatchAt(s: string, at: nat): (m: Option<Span>)
    requires at <= |s|
    ensures m.Some? ==> at + 3 <= m.value.start && IsBraceSpan(s, m.value)
    ensures m.Some? <==> FenceOpen(s, at).Some? && LastFenceClose(s, FenceOpen(s, at).value, |s|).Some?
    ensures m.Some? ==>
              && m.value.start == FenceOpen(s, at).value
              && FenceCloseAt(s, m.value.end - 1)
              && forall k :: m.value.end <= k < |s| ==> !FenceCloseAt(s, k)
  {
    match FenceOpen(s, at)
    case None => None
    case Some(b) =>
      match LastFenceClose(s, b, |s|)
      case None => None
      case Some(e) => Some(Span(b, e + 1))
  }

  /** A leftmost match from `from + 1` stays leftmost from `from` when there is no match at `from`. */
  lemma LeftmostExtends(s: string, from: nat, m: Option<Span>)
    requires from < |s| && FenceMatchAt(s, from).None?
    requires m.Some? ==>
               exists at :: from + 1 <= at <= |s| && FenceMatchAt(s, at) == m
                            && forall a :: from + 1 <= a < at ==> FenceMatchAt(s, a).None?
    ensures m.Some? ==>
              exists at :: from <= at <= |s| && FenceMatchAt(s, at) == m
                           && forall a :: from <= a < at ==> FenceMatchAt(s, a).None?
  {
    if m.Some? {
      var at :| from + 1 <= at <= |s| && FenceMatchAt(s, at) == m
                && forall a :: from + 1 <= a < at ==> FenceMatchAt(s, a).None?;
      assert forall a :: from <= a < at ==> FenceMatchAt(s, a).None?;
    }
  }

  /** The leftmost fenced-block match at or after `from`. */
  function FirstFenceMatch(s: string, from: nat): (m: Option<Span>)
    requires from <= |s|
    ensures m.Some? ==>
              exists at :: from <= at <= |s| && FenceMatchAt(s, at) == m
                           && forall a :: from <= a < at ==> FenceMatchAt(s, a).None?
    ensures m.Some? ==> IsBraceSpan(s, m.value)
    ensures m.None? ==> forall at :: from <= at <= |s| ==> FenceMatchAt(s, at).None?
    decreases |s| - from
  {
    var here := FenceMatchAt(s, from);
    if here.Some? then here
    else if from == |s| then None
    else
      var later := FirstFenceMatch(s, from + 1);
      LeftmostExtends(s, from, later);
      later
  }

  /** `s` has a `{` somewhere before a `}`. */
  predicate HasBraceSpan(s: string) {
    exists i, j :: 0 <= i < j < |s| && s[i] == '{' && s[j] == '}'
  }

  /** The bare match: from the first `{` to the last `}`, when the first comes before the last. */
  function BareMatch(s: string): (m: Option<Span>)
    ensures m.Some? <==> HasBraceSpan(s)
    ensures m.Some? ==> m.value.start < m.value.end <= |s|
    ensures m.Some? ==> s[m.value.start] == '{' && forall k :: 0 <= k < m.value.start ==> s[k] != '{'
    ensures m.Some? ==> s[m.value.end - 1] == '}' && forall k :: m.value.end <= k < |s| ==> s[k] != '}'
  {
    if '{' in s && '}' in s then
      var b := FirstIndex(s, '{');
      var e := LastIndex(s, '}');
      if b < e then Some(Span(b, e + 1)) else None
    else None
  }

  /** The captured span: the fenced match if there is one, else the bare match. */
  function ExtractSpan(s: string): (m: Option<Span>)
    ensures m.Some? ==> IsBraceSpan(s, m.value)
  {
    var fenced := FirstFenceMatch(s, 0);
    if fenced.Some? then fenced else BareMatch(s)
  }

  /** The first and last characters of a non-empty slice. */
  lemma SliceEnds(s: string, i: nat, j: nat)
    requires i < j <= |s|
    ensures |s[i..j]| == j - i && s[i..j][0] == s[i] && s[i..j][j - i - 1] == s[j - 1]
  {
  }

  /** The text handed to `JSON.parse`. */
  function ExtractJson(s: string): (r: Option<string>)
    ensures r.Some? ==> |r.value| >= 2 && r.value[0] == '{' && r.value[|r.value| - 1] == '}'
  {
    match ExtractSpan(s)
    case None => None
    case Some(m) =>
      SliceEnds(s, m.start, m.end);
      Some(s[m.start..m.end])
  }

  /** Something is handed to `JSON.parse` from a span exactly when the answer has a `{` before a `}`. */
  lemma ExtractJsonFindsBraceSpan(s: string)
    ensures ExtractJson(s).None? <==> !HasBraceSpan(s)
  {
    var m := ExtractSpan(s);
    if m.Some? {
      var sp := m.value;
      assert 0 <= sp.start < sp.end - 1 < |s| && s[sp.start] == '{' && s[sp.end - 1] == '}';
    }
  }

  // -------------------------------------------------------------- validation

  const FallbackSummary := "AI analysis completed but response format was invalid. Manual review recommended."
  const FallbackContent := "AI analysis encountered a parsing error. Please review changes manually."
  const FallbackScore := 75

  /** The fixed result returned whenever the answer cannot be used. */
  function Fallback(): (r: Json)
    ensures r.JObj? && r.fields.Keys == {"summary", "score", "comments"}
    ensures r.fields["summary"] == JStr(FallbackSummary)
    ensures r.fields["score"] == JNum(75)
    ensures r.fields["comments"].JArr? && |r.fields["comments"].items| == 1
    ensures var c := r.fields["comments"].items[0];
            c.JObj? && c.fields.Keys == {"content", "type", "severity"}
            && c.fields["content"] == JStr(FallbackContent)
            && c.fields["type"] == JStr("logic") && c.fields["severity"] == JStr("medium")
  {
    var comment := JObj(map["content" := JStr(FallbackContent), "type" := JStr("logic"), "severity" := JStr("medium")]);
    JObj(map["summary" := JStr(FallbackSummary), "score" := JNum(FallbackScore), "comments" := JArr([comment])])
  }

  /**
   * The shape check: a truthy summary, a number score and an array of
   * comments. Read as the property accesses `parsed.summary`, `parsed.score`
   * and `parsed.comments`, which throw on `null` and give `undefined` on any
   * other value that is not an object with that field.
   */
  function WellShaped(v: Json): (b: bool)
    ensures var summary, score, comments := Get(v, "summary"), Get(v, "score"), Get(v, "comments");
            b <==> && summary.Ok? && summary.value.Some? && Truthy(summary.value.value)
                   && score.Ok? && score.value.Some? && score.value.value.JNum?
                   && comments.Ok? && comments.value.Some? && comments.value.value.JArr?
  {
    && v.JObj?
    && "summary" in v.fields && Truthy(v.fields["summary"])
    && "score" in v.fields && v.fields["score"].JNum?
    && "comments" in v.fields && v.fields["comments"].JArr?
  }

  /** `Math.max(1, Math.min(100, score))`. */
  function Clamp(score: int): (r: int)
    ensures 1 <= r <= 100
    ensures 1 <= score <= 100 ==> r == score
    ensures score < 1 ==> r == 1
    ensures score > 100 ==> r == 100
  {
    if score < 1 then 1 else if score > 100 then 100 else score
  }

  /** The well-shaped object with its score clamped; every other property is kept. */
  function WithClampedScore(v: Json): (r: Json)
    requires WellShaped(v)
    ensures WellShaped(r) && r.fields.Keys == v.fields.Keys
    ensures r.fields["score"] == JNum(Clamp(v.fields["score"].n))
    ensures forall k :: k in v.fields && k != "score" ==> r.fields[k] == v.fields[k]
  {
    JObj(v.fields["score" := JNum(Clamp(v.fields["score"].n))])
  }

  /** Score of a well-shaped object. */
  function ScoreOf(v: Json): int
    requires WellShaped(v)
  {
    v.fields["score"].n
  }

  /**
   * `parseAnalysisResult`: never throws. The result is the fallback, or a
   * well-shaped object with a score in [1,100] extracted from a brace span, or
   * (when the answer has no brace span) whatever `JSON.parse` made of the
   * whole answer, unchecked.
   */
  function ParseAnalysisResult(analysis: string, parse: JsonParser): (r: Json)
    ensures || r == Fallback()
            || (HasBraceSpan(analysis) && WellShaped(r) && 1 <= ScoreOf(r) <= 100)
            || (!HasBraceSpan(analysis) && parse(analysis) == Ok(r))
  {
    ExtractJsonFindsBraceSpan(analysis);
    match ExtractJson(analysis)
    case None =>
      (match parse(analysis)
       case Ok(v) => v
       case Err(_) => Fallback())
    case Some(jsonStr) =>
      match parse(jsonStr)
      case Err(_) => Fallback()
      case Ok(parsed) => if WellShaped(parsed) then WithClampedScore(parsed) else Fallback()
  }

  /** A brace span that does not parse, or parses to a badly shaped value, gives the fallback. */
  lemma MalformedAnswerGivesFallback(analysis: string, parse: JsonParser)
    requires HasBraceSpan(analysis)
    requires var js := ExtractJson(analysis).value;
             parse(js).Err? || !WellShaped(parse(js).value)
    ensures ParseAnalysisResult(analysis, parse) == Fallback()
  {
  }

  /** An empty summary is falsy, so an object carrying one is replaced by the fallback. */
  lemma EmptySummaryGivesFallback(analysis: string, parse: JsonParser, fields: map<string, Json>)
    requires HasBraceSpan(analysis)
    requires parse(ExtractJson(analysis).value) == Ok(JObj(fields))
    requires "summary" in fields && fields["summary"] == JStr("")
    ensures ParseAnalysisResult(analysis, parse) == Fallback()
  {
  }

  /**
   * A well-shaped extracted object is returned with only its score clamped:
   * the summary and the comments (however many) come through unchanged.
   */
  lemma ExtractedObjectIsKept(analysis: string, parse: JsonParser, parsed: Json)
    requires HasBraceSpan(analysis)
    requires parse(ExtractJson(analysis).value) == Ok(parsed) && WellShaped(parsed)
    ensures var r := ParseAnalysisResult(analysis, parse);
            && WellShaped(r)
            && ScoreOf(r) == Clamp(ScoreOf(parsed))
            && r.fields["summary"] == parsed.fields["summary"]
            && r.fields["comments"] == parsed.fields["comments"]
  {
  }

  /** Without a brace span the whole answer is parsed and returned as is: `42` comes back as `42`. */
  lemma WholeAnswerIsNotValidated(analysis: string, parse: JsonParser, v: Json)
    requires !HasBraceSpan(analysis) && parse(analysis) == Ok(v)
    ensures ParseAnalysisResult(analysis, parse) == v
  {
  }

  /**
   * A fenced block wins over the bare span: when some fence matches, the text
   * parsed is the leftmost fenced block's object, whatever the first `{` and
   * the last `}` of the answer are.
   */
  lemma FencedBlockIsPreferred(analysis: string)
    requires FirstFenceMatch(analysis, 0).Some?
    ensures var m := FirstFenceMatch(analysis, 0).value;
            ExtractJson(analysis) == Some(analysis[m.start..m.end])
  {
  }

  /** Without any fenced block, the text parsed runs from the first `{` to the last `}`. */
  lemma BareSpanWithoutFence(analysis: string)
    requires FirstFenceMatch(analysis, 0).None? && HasBraceSpan(analysis)
    ensures var m := BareMatch(analysis).value;
            ExtractJson(analysis) == Some(analysis[m.start..m.end])
  {
  }

  // ---------------------------------------------------------------- the call

  /** The chat-completion call for a prompt: the message content (possibly missing) or a thrown error. */
  type Completion = string -> Result<Option<string>, Exception>

  const AnalysisErrorPrefix := "AI analysis failed: "
  const NoContentMessage := "No analysis content received from OpenAI"

  /**
   * `analyzePullRequest`: transport errors and an empty answer are rethrown
   * with a prefix (never turned into the fallback); any answer is parsed.
   */
  function AnalyzePullRequest(diffContent: string, prTitle: string, complete: Completion, parse: JsonParser)
    : (r: Result<Json, Exception>)
    ensures var answer := complete(BuildAnalysisPrompt(diffContent, prTitle));
            && (r.Ok? <==> answer.Ok? && answer.value.Some? && answer.value.value != "")
            && (r.Ok? ==> r.value == ParseAnalysisResult(answer.value.value, parse))
            && (answer.Err? ==> r == Err(Error(AnalysisErrorPrefix + MessageOf(answer.error))))
            && (answer.Ok? && !r.Ok? ==> r == Err(Error(AnalysisErrorPrefix + NoContentMessage)))
  {
    var prompt := BuildAnalysisPrompt(diffContent, prTitle);
    match complete(prompt)
    case Err(e) => Err(Error(AnalysisErrorPrefix + MessageOf(e)))
    case Ok(content) =>
      if content.None? || content.value == "" then Err(Error(AnalysisErrorPrefix + NoContentMessage))
      else Ok(ParseAnalysisResult(content.value, parse))
  }
}

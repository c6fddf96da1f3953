/** The AI service wrapper (services/geminiService.ts). The requests
    themselves, their prompts and response schemas are not part of the
    model: what the model returned is an input, either a reply or a failure
    of the request or of reading its text. What is modelled is what the
    wrapper does around them: the configuration guard, the error messages,
    the parsing of the free-text URL verdict and the normalisation of quiz
    options. */
module Gemini {
  import opened Options
  import opened JsString
  import opened Types

  const ConfigError := "API key for Gemini is not configured."
  const ImageFailure := "Failed to analyze image. The AI model may be temporarily unavailable."
  const VideoFailure := "Failed to analyze video. The AI model may be temporarily unavailable or the video format may not be supported."
  const NewsFailure := "Failed to verify news. The AI model may be temporarily unavailable."
  const UrlFailure := "Failed to analyze URL. The AI model may be temporarily unavailable."
  const LessonFailure := "Failed to generate lesson. The AI model may be temporarily unavailable."

  /** What one request produced: the reply, or a failure anywhere between
      sending it and parsing its text. */
  datatype Reply<+T> = Replied(value: T) | Failed

  /** The guard and the error handling every entry point shares: a missing
      (or empty) API key throws the configuration error before any request;
      a failed request throws the entry point's own message. */
  function Call<T>(apiKey: string, reply: Reply<T>, failure: string): (r: Result<T>)
    ensures apiKey == "" ==> r == Err(ConfigError)
    ensures apiKey != "" && reply.Failed? ==> r == Err(failure)
    ensures apiKey != "" && reply.Replied? ==> r == Ok(reply.value)
  {
    if apiKey == "" then Err(ConfigError)
    else match reply
      case Failed => Err(failure)
      case Replied(v) => Ok(v)
  }

  /** The fields of a scan result an image or video analysis supplies. */
  datatype ForensicReport = ForensicReport(
    verdict: Option<ScanVerdict>,
    trustScore: real,
    summary: string,
    detailedFindings: Option<seq<DetailedFinding>>)

  function AnalyzeImage(apiKey: string, reply: Reply<ForensicReport>): Result<ForensicReport> {
    Call(apiKey, reply, ImageFailure)
  }

  function AnalyzeVideo(apiKey: string, reply: Reply<ForensicReport>): Result<ForensicReport> {
    Call(apiKey, reply, VideoFailure)
  }

  function VerifyNews(apiKey: string, reply: Reply<NewsVerificationResult>): Result<NewsVerificationResult> {
    Call(apiKey, reply, NewsFailure)
  }

  // ---------------------------------------------------------------------
  // The URL verdict, read from a free-text reply
  // ---------------------------------------------------------------------

  /** A web result the search grounding cites. */
  datatype Web = Web(uri: Option<string>, title: Option<string>)
  datatype Chunk = Chunk(web: Option<Web>)

  /** The reply to a URL analysis: its text and its grounding chunks (none
      when the reply has no grounding metadata). */
  datatype UrlReply = UrlReply(text: string, chunks: seq<Chunk>)

  function UrlVerdictName(v: UrlVerdict): string {
    match v
    case Safe => "Safe"
    case Caution => "Caution"
    case Dangerous => "Dangerous"
    case Unknown => "Unknown"
  }

  /** "Verdict: " followed by the verdict's name. */
  function VerdictPattern(v: UrlVerdict): string {
    "Verdict: " + UrlVerdictName(v)
  }

  /** `/Verdict: (Safe|Caution|Dangerous|Unknown)/` tried at position `i`,
      the alternatives in that order. */
  function VerdictAt(text: string, i: int): (r: Option<UrlVerdict>)
    ensures r.Some? ==> OccursAt(text, VerdictPattern(r.value), i)
    ensures r.None? ==> forall v :: !OccursAt(text, VerdictPattern(v), i)
  {
    if OccursAt(text, VerdictPattern(Safe), i) then Some(Safe)
    else if OccursAt(text, VerdictPattern(Caution), i) then Some(Caution)
    else if OccursAt(text, VerdictPattern(Dangerous), i) then Some(Dangerous)
    else if OccursAt(text, VerdictPattern(Unknown), i) then Some(Unknown)
    else None
  }

  /** The leftmost match at or after `i`. */
  function FindVerdict(text: string, i: nat): (r: Option<UrlVerdict>)
    requires i <= |text|
    ensures r.None? <==> forall k :: i <= k <= |text| ==> VerdictAt(text, k).None?
    decreases |text| - i
  {
    if VerdictAt(text, i).Some? then VerdictAt(text, i)
    else if i == |text| then None
    else FindVerdict(text, i + 1)
  }

  /** A verdict found is the one matched at the leftmost position. */
  lemma {:induction false} FindVerdictLeftmost(text: string, i: nat)
    requires i <= |text| && FindVerdict(text, i).Some?
    ensures exists k :: (i <= k <= |text| && VerdictAt(text, k) == FindVerdict(text, i)
      && (forall m :: i <= m < k ==> VerdictAt(text, m).None?))
    decreases |text| - i
  {
    if VerdictAt(text, i).None? {
      FindVerdictLeftmost(text, i + 1);
      var k :| i + 1 <= k <= |text| && VerdictAt(text, k) == FindVerdict(text, i + 1)
        && (forall m :: i + 1 <= m < k ==> VerdictAt(text, m).None?);
      assert forall m :: i <= m < k ==> VerdictAt(text, m).None?;
    } else {
      assert VerdictAt(text, i) == FindVerdict(text, i);
    }
  }

  /** The verdict of the first match, `Unknown` when there is none. */
  function ParseVerdict(text: string): (v: UrlVerdict)
    ensures (forall k :: 0 <= k <= |text| ==> VerdictAt(text, k).None?) ==> v == Unknown
  {
    FindVerdict(text, 0).GetOr(Unknown)
  }

  const NoSummary := "Could not determine a summary."

  /** `/Summary: ([\s\S]*?)Threats Found:/`, trimmed: the text from the first
      "Summary: " up to the first "Threats Found:" after it. */
  function ParseSummary(text: string): (s: string)
    ensures IndexOf(text, "Summary: ").None? ==> s == NoSummary
    ensures var i := IndexOf(text, "Summary: ");
      i.Some? ==>
        var after := text[i.value + 9..];
        var j := IndexOf(after, "Threats Found:");
        && (j.None? ==> s == NoSummary)
        && (j.Some? ==> s == Trim(after[..j.value]))
    ensures s != NoSummary ==> Trim(s) == s
  {
    match Between(text, "Summary: ", "Threats Found:")
    case None => NoSummary
    case Some(m) => TrimIdempotent(m); Trim(m)
  }

  /** `/Threats Found: (.*)/`: the rest of that line, trimmed; "none" in any
      case means no threats, anything else is split at commas and each piece
      trimmed (empty pieces are kept). */
  function ParseThreats(text: string): (r: seq<string>)
    ensures IndexOf(text, "Threats Found: ").None? ==> r == []
    ensures var i := IndexOf(text, "Threats Found: ");
      i.Some? ==>
        var rest := text[i.value + 15..];
        var line := Trim(rest[..LineLength(rest)]);
        && (ToLower(line) == "none" ==> r == [])
        && (ToLower(line) != "none" ==> r == TrimAll(Split(line, ",")) && |r| >= 1)
    ensures forall k :: 0 <= k < |r| ==> Trim(r[k]) == r[k]
  {
    match LineAfter(text, "Threats Found: ")
    case None => []
    case Some(rest) => ThreatsOfLine(Trim(rest))
  }

  /** The threats a trimmed threats line lists. */
  function ThreatsOfLine(line: string): (r: seq<string>)
    ensures ToLower(line) != "none" ==> |r| >= 1
    ensures forall k :: 0 <= k < |r| ==> Trim(r[k]) == r[k]
  {
    if ToLower(line) == "none" then []
    else
      var r := TrimAll(Split(line, ","));
      assert forall k :: 0 <= k < |r| ==> Trim(r[k]) == r[k] by {
        forall k | 0 <= k < |r| ensures Trim(r[k]) == r[k] {
          TrimIdempotent(Split(line, ",")[k]);
        }
      }
      r
  }

  /** The source a chunk names: its web URI or "", its title or a placeholder. */
  function SourceOf(c: Chunk): (s: GroundingSource)
    ensures s.title != ""
  {
    var uri := if c.web.Some? && c.web.value.uri.Some? then c.web.value.uri.value else "";
    var title := if c.web.Some? && c.web.value.title.Some? && c.web.value.title.value != ""
      then c.web.value.title.value else "Untitled Source";
    GroundingSource(uri, title)
  }

  /** The sources of the chunks that name a URI, in order. */
  function Sources(chunks: seq<Chunk>): (r: seq<GroundingSource>)
    ensures |r| <= |chunks|
    ensures forall k :: 0 <= k < |r| ==> r[k].uri != "" && r[k].title != ""
  {
    if chunks == [] then []
    else
      var s := SourceOf(chunks[0]);
      (if s.uri != "" then [s] else []) + Sources(chunks[1..])
  }

  lemma AppendAssoc<T>(x: seq<T>, y: seq<T>, z: seq<T>)
    ensures (x + y) + z == x + (y + z)
  {
  }

  lemma SourcesCons(c: Chunk, rest: seq<Chunk>)
    ensures Sources([c] + rest)
      == (if SourceOf(c).uri != "" then [SourceOf(c)] else []) + Sources(rest)
  {
    assert ([c] + rest)[1..] == rest;
  }

  /** Filtering chunks distributes over concatenation, so the sources are
      exactly the cited chunks, in order. */
  lemma {:induction false} SourcesAppend(a: seq<Chunk>, b: seq<Chunk>)
    ensures Sources(a + b) == Sources(a) + Sources(b)
  {
    if a != [] {
      var x := if SourceOf(a[0]).uri != "" then [SourceOf(a[0])] else [];
      SourcesAppend(a[1..], b);
      SourcesCons(a[0], a[1..] + b);
      SourcesCons(a[0], a[1..]);
      assert [a[0]] + (a[1..] + b) == a + b;
      assert [a[0]] + a[1..] == a;
      AppendAssoc(x, Sources(a[1..]), Sources(b));
    } else {
      assert a + b == b;
    }
  }

  /** The reply format the prompt asks for: a verdict line, a summary line
      and a threats line listing the threats comma-separated, or "None". */
  function FormatReply(v: UrlVerdict, summary: string, threats: seq<string>): string {
    Layout(v, summary, FormatThreats(threats))
  }

  /** The three lines, the last one given as written. */
  function Layout(v: UrlVerdict, summary: string, threatsLine: string): string {
    VerdictLine(v) + ("Summary: " + (summary + ("\n" + ("Threats Found: " + threatsLine))))
  }

  function VerdictLine(v: UrlVerdict): string {
    VerdictPattern(v) + "\n"
  }

  function FormatThreats(threats: seq<string>): string {
    if threats == [] then "None" else Join(threats, ", ")
  }

  /** A threat the format can carry: non-empty, trimmed, on one line, without
      a comma and not the word "none". */
  predicate Listable(t: string) {
    t != [] && Trim(t) == t && SingleLine(t) && ',' !in t && ToLower(t) != "none"
  }

  lemma {:induction false} JoinSingleLine(xs: seq<string>)
    requires forall k :: 0 <= k < |xs| ==> SingleLine(xs[k])
    ensures SingleLine(Join(xs, ", "))
    decreases |xs|
  {
    if |xs| > 1 {
      JoinSingleLine(xs[1..]);
    }
  }

  /** The joined list starts with the first item's first character and ends
      with the last item's last character. */
  lemma {:induction false} JoinEnds(xs: seq<string>)
    requires xs != [] && forall k :: 0 <= k < |xs| ==> xs[k] != []
    ensures var j := Join(xs, ", "); var z := xs[|xs| - 1];
      j != [] && j[0] == xs[0][0] && j[|j| - 1] == z[|z| - 1]
    decreases |xs|
  {
    if |xs| > 1 {
      JoinEnds(xs[1..]);
    }
  }

  /** A joined list of listable threats is one trimmed line. */
  lemma JoinTrimmed(xs: seq<string>)
    requires xs != [] && forall k :: 0 <= k < |xs| ==> SingleLine(xs[k]) && xs[k] != []
    requires Trim(xs[0]) == xs[0] && Trim(xs[|xs| - 1]) == xs[|xs| - 1]
    ensures SingleLine(Join(xs, ", ")) && Trim(Join(xs, ", ")) == Join(xs, ", ")
  {
    var j := Join(xs, ", ");
    assert j != [] && !IsWhitespace(j[0]) && !IsWhitespace(j[|j| - 1]) by {
      JoinEnds(xs);
      TrimmedEnds(xs[0]);
      TrimmedEnds(xs[|xs| - 1]);
    }
    TrimNoop(j);
    JoinSingleLine(xs);
  }

  /** A joined list of listable threats never reads as "none": one item is
      not "none" by itself, and two or more carry a comma. */
  lemma JoinNotNone(xs: seq<string>)
    requires xs != [] && (|xs| == 1 ==> ToLower(xs[0]) != "none")
    ensures ToLower(Join(xs, ", ")) != "none"
  {
    if |xs| > 1 {
      CommaJoinNotNone(xs);
    }
  }

  /** Two or more items are joined by a comma, which lower-casing keeps. */
  lemma CommaJoinNotNone(xs: seq<string>)
    requires |xs| >= 2
    ensures ToLower(Join(xs, ", ")) != "none"
  {
    var j := Join(xs, ", ");
    assert ", " == [','] + " ";
    JoinHasSeparator(xs, ',', " ");
    LowerKeeps(j, ',');
    CommaNotNone(ToLower(j));
  }

  lemma CommaNotNone(s: string)
    requires ',' in s
    ensures s != "none"
  {
    assert ',' !in "none";
  }

  /** Splitting a joined list of listable threats and trimming each piece
      gives the list back. */
  lemma SplitTrimmed(xs: seq<string>)
    requires xs != [] && forall k :: 0 <= k < |xs| ==> ',' !in xs[k] && Trim(xs[k]) == xs[k]
    ensures TrimAll(Split(Join(xs, ", "), ",")) == xs
  {
    assert ", " == [',', ' '] && "," == [','];
    SplitJoinTrimmed(xs, ',', ' ');
  }

  /** The threats line of a formatted reply is one trimmed line that reads
      as "none" exactly when there are no threats. */
  lemma ThreatsLine(threats: seq<string>)
    requires forall k :: 0 <= k < |threats| ==> Listable(threats[k])
    ensures var t := FormatThreats(threats);
      && SingleLine(t) && Trim(t) == t
      && (ToLower(t) == "none" <==> threats == [])
  {
    if threats == [] {
      assert ToLower("None") == "none";
      TrimNoop("None");
    } else {
      assert Listable(threats[0]) && Listable(threats[|threats| - 1]);
      JoinTrimmed(threats);
      JoinNotNone(threats);
    }
  }

  /** A reply in the prompt's format parses back to its verdict, its summary
      and its threats, when the summary is trimmed and does not itself
      contain the threats heading. */
  lemma UrlReplyRoundTrip(v: UrlVerdict, summary: string, threats: seq<string>, chunks: seq<Chunk>)
    requires Trim(summary) == summary && !Contains(summary, "Threats Found:")
    requires forall k :: 0 <= k < |threats| ==> Listable(threats[k])
    ensures ParseUrlReply(UrlReply(FormatReply(v, summary, threats), chunks))
      == UrlAnalysisResult(v, summary, threats, Sources(chunks))
  {
    ParseVerdictOfFormat(v, summary, threats);
    ParseSummaryOfFormat(v, summary, threats);
    ParseThreatsOfFormat(v, summary, threats);
  }

  lemma ParseVerdictOfFormat(v: UrlVerdict, summary: string, threats: seq<string>)
    ensures ParseVerdict(FormatReply(v, summary, threats)) == v
  {
    var rest := "Summary: " + (summary + ("\n" + ("Threats Found: " + FormatThreats(threats))));
    PrefixOfAppend(VerdictPattern(v), "\n", rest);
    ParseVerdictAtStart(v, FormatReply(v, summary, threats));
  }

  /** A text that starts with a verdict's pattern reads as that verdict. */
  lemma ParseVerdictAtStart(v: UrlVerdict, text: string)
    requires StartsWith(text, VerdictPattern(v))
    ensures ParseVerdict(text) == v
  {
    forall w
      ensures OccursAt(text, VerdictPattern(w), 0) <==> w == v
    {
      VerdictPatternAtStart(v, w, text);
    }
  }

  /** A text that starts with one verdict's pattern starts with no other's:
      the names differ in their first letter. */
  lemma VerdictPatternAtStart(v: UrlVerdict, w: UrlVerdict, text: string)
    requires StartsWith(text, VerdictPattern(v))
    ensures OccursAt(text, VerdictPattern(w), 0) <==> w == v
  {
    var p := VerdictPattern(w);
    assert text[9] == VerdictPattern(v)[9] == UrlVerdictName(v)[0];
    assert p[9] == UrlVerdictName(w)[0];
    if |p| <= |text| {
      assert text[..|p|][9] == text[9];
    }
  }

  /** "Summary: " does not start inside the verdict line. */
  lemma SummaryAfterVerdict(v: UrlVerdict, rest: string)
    ensures forall j :: 0 <= j < |VerdictLine(v)| ==> !OccursAt(VerdictLine(v) + rest, "Summary: ", j)
  {
    if v == Safe {
      SummaryAfterSafe(rest);
    } else {
      assert 'S' !in "Verdict: " && 'S' !in "\n" && 'S' !in UrlVerdictName(v);
      FirstCharAbsent(VerdictLine(v), rest, "Summary: ");
    }
  }

  /** "Safe" starts with an S, but not with "Su". */
  lemma SummaryAfterSafe(rest: string)
    ensures forall j :: 0 <= j < |VerdictLine(Safe)| ==> !OccursAt(VerdictLine(Safe) + rest, "Summary: ", j)
  {
    var a := VerdictLine(Safe);
    assert a == "Verdict: Safe\n";
    var s := a + rest;
    forall j | 0 <= j < |a|
      ensures !OccursAt(s, "Summary: ", j)
    {
      if j + 9 <= |s| {
        assert s[j..j + 9][0] == a[j];
        if j == 9 {
          assert s[j..j + 9][1] == a[10];
        }
      }
    }
  }

  /** The first "Summary: " is the heading of the summary line. */
  lemma SummaryHeading(v: UrlVerdict, y: string)
    ensures IndexIs(VerdictLine(v) + ("Summary: " + y), "Summary: ", |VerdictLine(v)|)
  {
    SummaryAfterVerdict(v, "Summary: " + y);
    IndexOfSkip(VerdictLine(v), "Summary: " + y, "Summary: ");
    assert IndexIs("Summary: " + y, "Summary: ", 0);
  }

  /** "Threats Found:" and "Threats Found: " are absent from the summary, hold
      no line break and start the threats line. */
  lemma HeadingFacts(summary: string, c: string, p: string)
    requires p == "Threats Found:" || p == "Threats Found: "
    requires !Contains(summary, "Threats Found:")
    ensures p != [] && '\n' !in p && !Contains(summary, p) && StartsWith("Threats Found: " + c, p)
  {
    var q := p[14..];
    assert "Threats Found:" + q == p;
    forall j | 0 <= j
      ensures !OccursAt(summary, p, j)
    {
      OccursPrefix(summary, "Threats Found:", q, j);
    }
    IndexOfNone(summary, p);
    assert ("Threats Found: " + c)[..|p|] == p;
  }

  lemma ParseSummaryOfLayout(v: UrlVerdict, summary: string, c: string)
    requires Trim(summary) == summary && !Contains(summary, "Threats Found:")
    ensures ParseSummary(Layout(v, summary, c)) == summary
  {
    var d := "Threats Found: " + c;
    SummaryHeading(v, summary + ("\n" + d));
    HeadingFacts(summary, c, "Threats Found:");
    BetweenParts(VerdictLine(v), "Summary: ", summary, '\n', d, "Threats Found:", Layout(v, summary, c));
    TrimAppendWhitespace(summary, '\n');
  }

  /** "Threats Found: " does not start inside the verdict line: it holds no
      capital T. */
  lemma NoHeadingInVerdictLine(v: UrlVerdict)
    ensures 'T' !in VerdictLine(v)
  {
    assert 'T' !in "Verdict: " && 'T' !in "\n";
    assert 'T' !in UrlVerdictName(v);
  }

  lemma ParseThreatsOfLayout(v: UrlVerdict, summary: string, c: string)
    requires !Contains(summary, "Threats Found:")
    requires SingleLine(c) && Trim(c) == c
    ensures ParseThreats(Layout(v, summary, c)) ==
      if ToLower(c) == "none" then [] else TrimAll(Split(c, ","))
  {
    HeadingFacts(summary, c, "Threats Found: ");
    NoHeadingInVerdictLine(v);
    assert 'T' !in "Summary: ";
    LineAfterParts(VerdictLine(v), "Summary: ", summary, '\n', "Threats Found: ", c, Layout(v, summary, c));
  }

  lemma ParseSummaryOfFormat(v: UrlVerdict, summary: string, threats: seq<string>)
    requires Trim(summary) == summary && !Contains(summary, "Threats Found:")
    ensures ParseSummary(FormatReply(v, summary, threats)) == summary
  {
    ParseSummaryOfLayout(v, summary, FormatThreats(threats));
  }

  lemma ParseThreatsOfFormat(v: UrlVerdict, summary: string, threats: seq<string>)
    requires !Contains(summary, "Threats Found:")
    requires forall k :: 0 <= k < |threats| ==> Listable(threats[k])
    ensures ParseThreats(FormatReply(v, summary, threats)) == threats
  {
    ThreatsLine(threats);
    ParseThreatsOfLayout(v, summary, FormatThreats(threats));
    if threats != [] {
      SplitTrimmed(threats);
    }
  }

  function ParseUrlReply(reply: UrlReply): UrlAnalysisResult {
    UrlAnalysisResult(ParseVerdict(reply.text), ParseSummary(reply.text), ParseThreats(reply.text), Sources(reply.chunks))
  }

  function AnalyzeUrl(apiKey: string, reply: Reply<UrlReply>): (r: Result<UrlAnalysisResult>)
    ensures apiKey == "" ==> r == Err(ConfigError)
    ensures apiKey != "" && reply.Failed? ==> r == Err(UrlFailure)
    ensures apiKey != "" && reply.Replied? ==> r == Ok(ParseUrlReply(reply.value))
  {
    match Call(apiKey, reply, UrlFailure)
    case Ok(rep) => Ok(ParseUrlReply(rep))
    case Err(m) => Err(m)
  }

  // ---------------------------------------------------------------------
  // Lesson generation
  // ---------------------------------------------------------------------

  /** The reply to a lesson request (the schema makes both fields required). */
  datatype LessonReply = LessonReply(content: string, quiz: seq<QuizQuestion>)

  /** Exactly four options: the first four, or all of them followed by
      "N/A" up to four. */
  function PadOptions(options: seq<string>): (r: seq<string>)
    ensures |r| == 4
    ensures forall k :: 0 <= k < 4 && k < |options| ==> r[k] == options[k]
    ensures forall k :: |options| <= k < 4 ==> r[k] == "N/A"
  {
    if |options| >= 4 then options[..4] else options + seq(4 - |options|, _ => "N/A")
  }

  /** Four options stay as they are, so normalising twice changes nothing. */
  lemma PadOptionsIdempotent(options: seq<string>)
    ensures PadOptions(PadOptions(options)) == PadOptions(options)
  {
    assert PadOptions(options)[..4] == PadOptions(options);
  }

  function NormalizedQuiz(quiz: seq<QuizQuestion>): (r: seq<QuizQuestion>)
    ensures |r| == |quiz|
    ensures forall k :: 0 <= k < |r| ==> |r[k].options| == 4
    ensures forall k :: 0 <= k < |r| ==> r[k].(options := quiz[k].options) == quiz[k]
  {
    seq(|quiz|, k requires 0 <= k < |quiz| => quiz[k].(options := PadOptions(quiz[k].options)))
  }

  /** The `forEach` over the parsed quiz: each question's options are cut to
      four, then padded with "N/A" one at a time. */
  method NormalizeQuiz(quiz: array<QuizQuestion>)
    modifies quiz
    ensures quiz[..] == NormalizedQuiz(old(quiz[..]))
  {
    for i := 0 to quiz.Length
      invariant forall k :: i <= k < quiz.Length ==> quiz[k] == old(quiz[k])
      invariant forall k :: 0 <= k < i ==> quiz[k] == NormalizedQuiz(old(quiz[..]))[k]
    {
      var options := quiz[i].options;
      if |options| > 4 {
        options := options[..4];
      }
      while |options| < 4
        invariant |options| <= 4
        invariant options[..] == PadOptions(quiz[i].options)[..|options|]
        decreases 4 - |options|
      {
        options := options + ["N/A"];
      }
      assert options == PadOptions(quiz[i].options);
      quiz[i] := quiz[i].(options := options);
    }
  }

  /** `generateLearningContent`: the lesson text and the quiz, with every
      question's options normalised in place. */
  method GenerateLearningContent(apiKey: string, reply: Reply<LessonReply>) returns (r: Result<CachedContent>)
    ensures apiKey == "" ==> r == Err(ConfigError)
    ensures apiKey != "" && reply.Failed? ==> r == Err(LessonFailure)
    ensures apiKey != "" && reply.Replied? ==>
      r == Ok(CachedContent(Some(reply.value.content), Some(NormalizedQuiz(reply.value.quiz))))
  {
    match Call(apiKey, reply, LessonFailure)
    case Err(m) =>
      r := Err(m);
    case Ok(lesson) =>
      var quiz := new QuizQuestion[|lesson.quiz|](k requires 0 <= k < |lesson.quiz| => lesson.quiz[k]);
      assert quiz[..] == lesson.quiz;
      NormalizeQuiz(quiz);
      r := Ok(CachedContent(Some(lesson.content), Some(quiz[..])));
  }
}

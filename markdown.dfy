/** The small Markdown renderer the lesson view uses for generated content
    (`simpleMarkdownToHtml` in utils/helpers.ts): "###" and the whitespace
    around it becomes a block break, blocks are split on blank lines,
    trimmed and the empty ones dropped, each block is classified as a
    heading, a list, a short title or a paragraph, and the rendered blocks
    are concatenated before bold and italic markers are rewritten. */
module Markdown {
  import opened Options
  import opened JsString
  import opened Collections

  // ---------------------------------------------------------------------
  // Section markers: `text.replace(/\s*###\s*/g, '\n\n')`
  // ---------------------------------------------------------------------

  /** The end of the whitespace run that starts at `i` (what `\s*` takes). */
  function WhitespaceEnd(s: string, i: nat): (r: nat)
    requires i <= |s|
    ensures i <= r <= |s|
    ensures forall x :: i <= x < r ==> IsWhitespace(s[x])
    ensures r < |s| ==> !IsWhitespace(s[r])
    decreases |s| - i
  {
    if i == |s| || !IsWhitespace(s[i]) then i else WhitespaceEnd(s, i + 1)
  }

  /** "###" occurs at `j`. */
  predicate HashesAt(s: string, j: nat) {
    j + 3 <= |s| && s[j] == '#' && s[j + 1] == '#' && s[j + 2] == '#'
  }

  /** No "###" anywhere in `s`. */
  predicate NoHashes(s: string) {
    forall x :: 0 <= x && x + 3 <= |s| ==> !(s[x] == '#' && s[x + 1] == '#' && s[x + 2] == '#')
  }

  /** The global replacement from position `i` on: the leftmost match of
      `\s*###\s*` is the whitespace run in front of a "###" (greedy, so the
      whole run), the hashes and the whitespace run after them; where no
      match starts, the character is copied. */
  function ReplaceSectionsFrom(s: string, i: nat): string
    requires i <= |s|
    decreases |s| - i
  {
    if i == |s| then []
    else
      var j := WhitespaceEnd(s, i);
      if HashesAt(s, j) then "\n\n" + ReplaceSectionsFrom(s, WhitespaceEnd(s, j + 3))
      else [s[i]] + ReplaceSectionsFrom(s, i + 1)
  }

  function ReplaceSections(s: string): string {
    ReplaceSectionsFrom(s, 0)
  }

  /** The replacement leaves no "###" behind. */
  lemma {:induction false} ReplaceSectionsFromSpec(s: string, i: nat)
    requires i <= |s|
    ensures NoHashes(ReplaceSectionsFrom(s, i))
    decreases |s| - i
  {
    if i < |s| {
      var j := WhitespaceEnd(s, i);
      if HashesAt(s, j) {
        var k := WhitespaceEnd(s, j + 3);
        ReplaceSectionsFromSpec(s, k);
        BreakNoHashes(ReplaceSectionsFrom(s, k));
      } else {
        ReplaceSectionsFromSpec(s, i + 1);
        CopyStep(s, i);
      }
    }
  }

  /** Where no match starts, copying the character keeps the output free
      of "###". */
  lemma CopyStep(s: string, i: nat)
    requires i < |s| && !HashesAt(s, WhitespaceEnd(s, i))
    requires NoHashes(ReplaceSectionsFrom(s, i + 1))
    ensures NoHashes(ReplaceSectionsFrom(s, i))
  {
    var rest := ReplaceSectionsFrom(s, i + 1);
    assert ReplaceSectionsFrom(s, i) == [s[i]] + rest;
    HashCopied(s, i + 1);
    if i + 2 <= |s| {
      HashCopied(s, i + 2);
    }
    assert s[i] == '#' ==> WhitespaceEnd(s, i) == i;
    CopyNoHashes(s[i], rest);
  }

  /** An output that starts with '#' copied it from the input: a "###"
      cannot straddle a copied character. */
  lemma HashCopied(s: string, i: nat)
    requires i <= |s|
    ensures var r := ReplaceSectionsFrom(s, i);
      |r| > 0 && r[0] == '#' ==> i < |s| && s[i] == '#' && r[1..] == ReplaceSectionsFrom(s, i + 1)
  {
    if i < |s| && !HashesAt(s, WhitespaceEnd(s, i)) {
      var rest := ReplaceSectionsFrom(s, i + 1);
      assert ReplaceSectionsFrom(s, i) == [s[i]] + rest;
      assert ([s[i]] + rest)[1..] == rest;
    }
  }

  /** A block break in front of a text without "###" adds none. */
  lemma BreakNoHashes(rest: string)
    requires NoHashes(rest)
    ensures NoHashes("\n\n" + rest)
  {
    var r := "\n\n" + rest;
    forall x | 0 <= x && x + 3 <= |r|
      ensures !(r[x] == '#' && r[x + 1] == '#' && r[x + 2] == '#')
    {
      if x >= 2 {
        assert r[x] == rest[x - 2] && r[x + 1] == rest[x - 1] && r[x + 2] == rest[x];
      } else {
        assert r[1] == '\n';
      }
    }
  }

  /** One character in front of a text without "###" adds none, unless it
      and the next two characters are all '#'. */
  lemma CopyNoHashes(c: char, rest: string)
    requires NoHashes(rest)
    requires !(c == '#' && |rest| > 1 && rest[0] == '#' && rest[1] == '#')
    ensures NoHashes([c] + rest)
  {
    var r := [c] + rest;
    forall x | 0 <= x && x + 3 <= |r|
      ensures !(r[x] == '#' && r[x + 1] == '#' && r[x + 2] == '#')
    {
      if x >= 1 {
        assert r[x] == rest[x - 1] && r[x + 1] == rest[x] && r[x + 2] == rest[x + 1];
      }
    }
  }

  /** A slice of a text without "###" has none either. */
  lemma NoHashesSlice(s: string, a: nat, b: nat)
    requires NoHashes(s) && a <= b <= |s|
    ensures NoHashes(s[a..b])
  {
    var t := s[a..b];
    forall x | 0 <= x && x + 3 <= |t|
      ensures !(t[x] == '#' && t[x + 1] == '#' && t[x + 2] == '#')
    {
      assert t[x] == s[a + x] && t[x + 1] == s[a + x + 1] && t[x + 2] == s[a + x + 2];
    }
  }

  /** Every piece of a split text without "###" has none either. */
  lemma {:induction false} SplitNoHashes(s: string, sep: string)
    requires sep != [] && NoHashes(s)
    ensures forall k :: 0 <= k < |Split(s, sep)| ==> NoHashes(Split(s, sep)[k])
    decreases |s|
  {
    match IndexOf(s, sep)
    case None =>
    case Some(i) =>
      NoHashesSlice(s, 0, i);
      NoHashesSlice(s, i + |sep|, |s|);
      SplitNoHashes(s[i + |sep|..], sep);
  }

  // ---------------------------------------------------------------------
  // Blocks
  // ---------------------------------------------------------------------

  predicate NonEmpty(b: string) { |b| > 0 }

  /** `processedText.split('\n\n').map(trim).filter(b => b.length > 0)`. */
  function Blocks(text: string): seq<string> {
    Filter(TrimAll(Split(ReplaceSections(text), "\n\n")), NonEmpty)
  }

  /** Every block is non-empty, already trimmed and free of "###". */
  lemma BlocksSpec(text: string, b: string)
    requires b in Blocks(text)
    ensures b != [] && Trim(b) == b && NoHashes(b)
  {
    var pieces := Split(ReplaceSections(text), "\n\n");
    var trimmed := TrimAll(pieces);
    FilterMembers(trimmed, NonEmpty, b);
    var k :| 0 <= k < |trimmed| && trimmed[k] == b;
    ReplaceSectionsFromSpec(text, 0);
    SplitNoHashes(ReplaceSections(text), "\n\n");
    assert NoHashes(pieces[k]);
    TrimNoHashes(pieces[k]);
    TrimIdempotent(pieces[k]);
  }

  lemma TrimNoHashes(p: string)
    requires NoHashes(p)
    ensures NoHashes(Trim(p))
  {
    var a := TrimOffset(p);
    NoHashesSlice(p, a, a + |Trim(p)|);
  }

  // ---------------------------------------------------------------------
  // One block
  // ---------------------------------------------------------------------

  /** What a block renders as. */
  datatype Kind = Heading1 | Heading2 | Heading3 | BulletList | Title | Paragraph

  /** A list marker ("* " or "- ") at position `x` of a line start: what
      `/^[\*-] /m` matches, `^` being the start of the text or the position
      after a line terminator. */
  predicate MarkerAt(b: string, x: nat) {
    && x + 2 <= |b|
    && (x == 0 || IsLineTerminator(b[x - 1]))
    && (b[x] == '*' || b[x] == '-')
    && b[x + 1] == ' '
  }

  predicate HasListLine(b: string) {
    exists x :: 0 <= x < |b| && MarkerAt(b, x)
  }

  /** Position `x` starts a maximal whitespace run. */
  predicate RunStart(b: string, x: nat)
    requires x < |b|
  {
    IsWhitespace(b[x]) && (x == 0 || !IsWhitespace(b[x - 1]))
  }

  /** The number of whitespace runs from position `i` on. */
  function RunsFrom(b: string, i: nat): nat
    requires i <= |b|
    decreases |b| - i
  {
    if i == |b| then 0 else (if RunStart(b, i) then 1 else 0) + RunsFrom(b, i + 1)
  }

  /** `block.split(/\s+/).length`: every maximal whitespace run is one
      separator, so there is one more piece than runs. */
  function WordCount(b: string): nat {
    1 + RunsFrom(b, 0)
  }

  function Classify(b: string): Kind {
    if StartsWith(b, "# ") then Heading1
    else if StartsWith(b, "## ") then Heading2
    else if StartsWith(b, "### ") then Heading3
    else if HasListLine(b) then BulletList
    else if 0 < WordCount(b) < 10 && (EndsWith(b, "?") || EndsWith(b, "!")) then Title
    else Paragraph
  }

  /** `item.replace(/^[\*-] /, '')`: the marker is removed at the start only. */
  function StripMarker(item: string): string {
    if |item| >= 2 && (item[0] == '*' || item[0] == '-') && item[1] == ' ' then item[2..] else item
  }

  function ListItem(line: string): string {
    "<li>" + Trim(StripMarker(line)) + "</li>"
  }

  function ListItems(lines: seq<string>): seq<string> {
    seq(|lines|, k requires 0 <= k < |lines| => ListItem(lines[k]))
  }

  function RenderBlock(b: string): string {
    match Classify(b)
    case Heading1 => "<h1>" + b[2..] + "</h1>"
    case Heading2 => "<h2>" + b[3..] + "</h2>"
    case Heading3 => "<h3>" + b[4..] + "</h3>"
    case BulletList => "<ul>" + Join(ListItems(Split(b, "\n")), "") + "</ul>"
    case Title => "<h3>" + b + "</h3>"
    case Paragraph => "<p>" + ReplaceChar(b, '\n', "<br/>") + "</p>"
  }

  /** The `wordCount > 0` test always passes, and a block without whitespace
      is one word. */
  lemma WordCountSpec(b: string)
    ensures WordCount(b) > 0
    ensures (forall x :: 0 <= x < |b| ==> !IsWhitespace(b[x])) ==> WordCount(b) == 1
  {
    if forall x :: 0 <= x < |b| ==> !IsWhitespace(b[x]) {
      NoRuns(b, 0);
    }
  }

  lemma {:induction false} NoRuns(b: string, i: nat)
    requires i <= |b|
    requires forall x :: 0 <= x < |b| ==> !IsWhitespace(b[x])
    ensures RunsFrom(b, i) == 0
    decreases |b| - i
  {
    if i < |b| {
      NoRuns(b, i + 1);
    }
  }

  /** Headings win over every later rule: a block starting "# " is a level
      one heading and one starting "## " a level two heading, whatever list
      markers or punctuation it holds; the heading text is the rest. */
  lemma HeadingsFirst(b: string)
    ensures StartsWith(b, "# ") ==> RenderBlock(b) == "<h1>" + b[2..] + "</h1>"
    ensures StartsWith(b, "## ") ==> RenderBlock(b) == "<h2>" + b[3..] + "</h2>"
  {
    if StartsWith(b, "## ") {
      assert b[1] == '#';
      assert !StartsWith(b, "# ");
    }
  }

  /** A block without "###" never takes the "### " heading rule. */
  lemma NoHashHeading(b: string)
    requires NoHashes(b)
    ensures Classify(b) != Heading3
  {
    HeadingHashes(b);
  }

  lemma HeadingHashes(b: string)
    ensures StartsWith(b, "### ") ==> HashesAt(b, 0)
  {
    if StartsWith(b, "### ") {
      assert b[..4] == "### ";
      assert b[0] == '#' && b[1] == '#' && b[2] == '#';
    }
  }

  /** A paragraph keeps no newline: each becomes "<br/>". */
  lemma {:induction false} ReplaceNewlines(s: string)
    ensures '\n' !in ReplaceChar(s, '\n', "<br/>")
  {
    if s != [] {
      ReplaceNewlines(s[1..]);
    }
  }

  /** A list has one item per line of the block, in order, each with its
      leading marker removed and trimmed. */
  lemma ListSpec(b: string)
    requires Classify(b) == BulletList
    ensures var lines := Split(b, "\n");
      var items := ListItems(lines);
      && |items| == |lines|
      && (forall k :: 0 <= k < |lines| ==> items[k] == "<li>" + Trim(StripMarker(lines[k])) + "</li>")
      && RenderBlock(b) == "<ul>" + Join(items, "") + "</ul>"
  {
  }

  /** The title heuristic: a block that is neither a heading nor a list
      is a title exactly when it has fewer than ten words and ends with '?'
      or '!'; everything else left over is a paragraph. */
  lemma TitleRule(b: string)
    requires !StartsWith(b, "# ") && !StartsWith(b, "## ") && !StartsWith(b, "### ") && !HasListLine(b)
    ensures Classify(b) == Title <==> WordCount(b) < 10 && |b| > 0 && (b[|b| - 1] == '?' || b[|b| - 1] == '!')
    ensures Classify(b) != Title ==> Classify(b) == Paragraph
  {
    WordCountSpec(b);
    EndsWithChar(b, '?');
    EndsWithChar(b, '!');
  }

  lemma EndsWithChar(b: string, c: char)
    ensures EndsWith(b, [c]) <==> |b| > 0 && b[|b| - 1] == c
  {
    if EndsWith(b, [c]) {
      assert b[|b| - 1..][0] == c;
    }
    if |b| > 0 && b[|b| - 1] == c {
      assert b[|b| - 1..] == [c];
    }
  }

  /** A paragraph is wrapped in "<p>" and keeps no raw newline. */
  lemma ParagraphSpec(b: string)
    requires Classify(b) == Paragraph
    ensures var r := RenderBlock(b);
      && r[..3] == "<p>" && r[|r| - 4..] == "</p>" && '\n' !in r
  {
    ReplaceNewlines(b);
  }

  // ---------------------------------------------------------------------
  // Inline emphasis: `.replace(/\*\*(.*?)\*\*/g, …).replace(/\*(.*?)\*/g, …)`
  // ---------------------------------------------------------------------

  /** The first `m` at or after `j` reached without crossing a line
      terminator: where the lazy `(.*?)` followed by `m` stops. */
  function CloseFrom(s: string, m: string, j: nat): (r: Option<nat>)
    requires j <= |s|
    ensures r.Some? ==> j <= r.value && OccursAt(s, m, r.value)
    decreases |s| - j
  {
    if OccursAt(s, m, j) then Some(j)
    else if j == |s| || IsLineTerminator(s[j]) then None
    else CloseFrom(s, m, j + 1)
  }

  /** Replaces every `m … m` pair on one line, leftmost first, by
      `open … close`. */
  function WrapFrom(s: string, m: string, open: string, close: string, i: nat): string
    requires m != [] && i <= |s|
    decreases |s| - i
  {
    if i == |s| then []
    else if OccursAt(s, m, i) && CloseFrom(s, m, i + |m|).Some? then
      var k := CloseFrom(s, m, i + |m|).value;
      open + s[i + |m|..k] + close + WrapFrom(s, m, open, close, k + |m|)
    else [s[i]] + WrapFrom(s, m, open, close, i + 1)
  }

  function Emphasis(s: string): string {
    var bold := WrapFrom(s, "**", "<strong>", "</strong>", 0);
    WrapFrom(bold, "*", "<em>", "</em>", 0)
  }

  /** Text without a marker character passes unchanged. */
  lemma {:induction false} WrapAbsent(s: string, m: string, open: string, close: string, i: nat)
    requires m != [] && i <= |s| && m[0] !in s
    ensures WrapFrom(s, m, open, close, i) == s[i..]
    decreases |s| - i
  {
    if i < |s| {
      assert !OccursAt(s, m, i) by {
        assert i + |m| <= |s| ==> s[i..i + |m|][0] == s[i];
      }
      WrapAbsent(s, m, open, close, i + 1);
    }
  }

  lemma EmphasisAbsent(s: string)
    requires '*' !in s
    ensures Emphasis(s) == s
  {
    WrapAbsent(s, "**", "<strong>", "</strong>", 0);
    WrapAbsent(s, "*", "<em>", "</em>", 0);
  }

  /** The lazy capture closes at the first marker when the text before it
      holds no marker character and no line break. */
  lemma {:induction false} CloseAfterPlain(s: string, m: string, j: nat, k: nat)
    requires m != [] && j <= k && OccursAt(s, m, k)
    requires forall x :: j <= x < k ==> s[x] != m[0] && !IsLineTerminator(s[x])
    ensures CloseFrom(s, m, j) == Some(k)
    decreases k - j
  {
    if j < k {
      assert !OccursAt(s, m, j) by {
        assert j + |m| <= |s| ==> s[j..j + |m|][0] == s[j];
      }
      CloseAfterPlain(s, m, j + 1, k);
    }
  }

  /** A bold pair around text on one line without '*' becomes a strong
      element, and the italic pass leaves it alone. */
  lemma BoldWrap(t: string)
    requires '*' !in t && SingleLine(t)
    ensures Emphasis("**" + t + "**") == "<strong>" + t + "</strong>"
  {
    var s := "**" + t + "**";
    var k := 2 + |t|;
    assert s[0..2] == "**" && s[k..k + 2] == "**";
    forall x | 2 <= x < k
      ensures s[x] != '*' && !IsLineTerminator(s[x])
    {
      assert s[x] == t[x - 2];
    }
    CloseAfterPlain(s, "**", 2, k);
    assert s[2..k] == t;
    var bold := "<strong>" + t + "</strong>";
    assert WrapFrom(s, "**", "<strong>", "</strong>", 0) == bold + [];
    assert bold + [] == bold;
    assert '*' !in "<strong>" && '*' !in "</strong>";
    WrapAbsent(bold, "*", "<em>", "</em>", 0);
    assert bold[0..] == bold;
  }

  // ---------------------------------------------------------------------
  // The whole document
  // ---------------------------------------------------------------------

  function RenderBlocks(blocks: seq<string>): seq<string> {
    seq(|blocks|, k requires 0 <= k < |blocks| => RenderBlock(blocks[k]))
  }

  /** `simpleMarkdownToHtml(text = '')`. */
  function SimpleMarkdownToHtml(text: Option<string>): string {
    Emphasis(Join(RenderBlocks(Blocks(text.GetOr(""))), ""))
  }

  /** Empty or absent input renders as the empty string. */
  lemma EmptyRendersEmpty(text: Option<string>)
    requires text.None? || text == Some("")
    ensures SimpleMarkdownToHtml(text) == ""
  {
    assert ReplaceSections("") == "";
    assert IndexOf("", "\n\n").None?;
    assert Split("", "\n\n") == [""];
    assert TrimAll([""]) == [Trim("")];
    TrimEmptyIff("");
    assert Blocks("") == [];
    EmphasisAbsent("");
  }

  /** Every rendered block is one of the five kinds the "### " rule never
      produces: a "###" in the text is always a block break. */
  lemma NoHashHeadings(text: string)
    ensures forall b :: b in Blocks(text) ==> Classify(b) != Heading3
  {
    forall b | b in Blocks(text)
      ensures Classify(b) != Heading3
    {
      BlocksSpec(text, b);
      NoHashHeading(b);
    }
  }
}

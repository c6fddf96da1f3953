/** The URL scanner page (pages/UrlScanPage.tsx): the hand-written URL
    pattern of `isValidUrl`, the normalisation `handleScan` applies before
    it (trim, then `https://` unless a scheme is there), and the page state
    (`url`, `isScanning`, `result`, `error`). The pattern is the page's own,
    case-insensitive:

      ^(https?://)?
       ( (label\.)+ [a-z]{2,}  |  (\d{1,3}\.){3} \d{1,3} )
       (:\d+)? (/[-a-z\d%_.~+]*)* (\?[;&a-z\d%_.~+=-]*)? (#[-a-z\d_]*)?$

    where a label is `[a-z\d]([a-z\d-]*[a-z\d])*`. Under the `i` flag
    without `u`, only ASCII letters match `[a-z]` (a non-ASCII character is
    never case-folded onto an ASCII one), and `\d` is `[0-9]`.

    `IsValidUrl` recognises the pattern in one left-to-right pass;
    `MatchesPattern` states it as a split of the input into its six parts;
    `ValidUrlIff` proves the two agree. */
module UrlScan {
  import opened Options
  import opened JsString
  import opened Types
  import opened Gemini

  // ---------------------------------------------------------------------
  // Character classes
  // ---------------------------------------------------------------------

  predicate IsAlnum(c: char) { IsDigit(c) || IsAsciiLetter(c) }

  /** `[a-z\d-]`. */
  predicate IsLabelChar(c: char) { IsAlnum(c) || c == '-' }

  /** The characters a host can hold: label characters and dots. */
  predicate IsHostChar(c: char) { IsLabelChar(c) || c == '.' }

  /** `[-a-z\d%_.~+]`, and the `/` that starts each path segment. */
  predicate IsPathChar(c: char) {
    IsAlnum(c) || c == '-' || c == '%' || c == '_' || c == '.' || c == '~' || c == '+' || c == '/'
  }

  /** `[;&a-z\d%_.~+=-]`. */
  predicate IsQueryChar(c: char) {
    IsAlnum(c) || c == ';' || c == '&' || c == '%' || c == '_' || c == '.' || c == '~' || c == '+' || c == '=' || c == '-'
  }

  /** `[-a-z\d_]`. */
  predicate IsFragmentChar(c: char) { IsAlnum(c) || c == '-' || c == '_' }

  predicate All(s: string, p: char -> bool) {
    forall i :: 0 <= i < |s| ==> p(s[i])
  }

  // ---------------------------------------------------------------------
  // The six parts of the pattern
  // ---------------------------------------------------------------------

  /** `s` starts with `w` up to case: `w` is lower case, and the `i` flag
      lets an ASCII capital match its small letter. */
  predicate LowerStarts(s: string, w: string) {
    |w| <= |s| && forall x :: 0 <= x < |w| ==> LowerChar(s[x]) == w[x]
  }

  /** `(https?://)?`, either case, as the first `i` characters of `s`. */
  predicate IsSchemeAt(s: string, i: int) {
    i == 0 || (i == 7 && LowerStarts(s, "http://")) || (i == 8 && LowerStarts(s, "https://"))
  }

  /** `[a-z\d]([a-z\d-]*[a-z\d])*`: label characters, starting and ending
      with a letter or digit. */
  predicate IsLabel(x: string) {
    x != [] && IsAlnum(x[0]) && IsAlnum(x[|x| - 1]) && All(x, IsLabelChar)
  }

  /** `[a-z]{2,}`. */
  predicate IsTld(x: string) {
    |x| >= 2 && All(x, IsAsciiLetter)
  }

  /** `(label\.)+[a-z]{2,}`: at least one label, then the top-level part. */
  predicate IsDomain(h: string) {
    var parts := Split(h, ".");
    |parts| >= 2 && IsTld(parts[|parts| - 1])
    && forall k :: 0 <= k < |parts| - 1 ==> IsLabel(parts[k])
  }

  /** `\d{1,3}`. */
  predicate IsOctet(x: string) {
    1 <= |x| <= 3 && All(x, IsDigit)
  }

  /** `(\d{1,3}\.){3}\d{1,3}`: four groups of one to three digits, with no
      check of their values. */
  predicate IsIpv4(h: string) {
    var parts := Split(h, ".");
    |parts| == 4 && forall k :: 0 <= k < 4 ==> IsOctet(parts[k])
  }

  predicate IsHost(h: string) { IsDomain(h) || IsIpv4(h) }

  /** `(:\d+)?` at `s[a..b]`. */
  predicate IsPortAt(s: string, a: int, b: int)
    requires 0 <= a <= b <= |s|
  {
    a == b || (a + 2 <= b && s[a] == ':' && forall x :: a < x < b ==> IsDigit(s[x]))
  }

  /** `(/[-a-z\d%_.~+]*)*` at `s[a..b]`: empty, or a `/` followed by path
      characters and further slashes. */
  predicate IsPathAt(s: string, a: int, b: int)
    requires 0 <= a <= b <= |s|
  {
    a == b || (s[a] == '/' && forall x :: a <= x < b ==> IsPathChar(s[x]))
  }

  /** `(\?[;&a-z\d%_.~+=-]*)?` at `s[a..b]`. */
  predicate IsQueryAt(s: string, a: int, b: int)
    requires 0 <= a <= b <= |s|
  {
    a == b || (s[a] == '?' && forall x :: a < x < b ==> IsQueryChar(s[x]))
  }

  /** `(#[-a-z\d_]*)?$` at `s[a..]`. */
  predicate IsFragmentAt(s: string, a: int)
    requires 0 <= a <= |s|
  {
    a == |s| || (s[a] == '#' && forall x :: a < x < |s| ==> IsFragmentChar(s[x]))
  }

  /** `s` cut at `i <= j <= k <= l <= m` into scheme, host, port, path,
      query and fragment. */
  predicate Decomposition(s: string, i: int, j: int, k: int, l: int, m: int) {
    0 <= i <= j <= k <= l <= m <= |s|
    && IsSchemeAt(s, i) && IsHost(s[i..j]) && IsPortAt(s, j, k)
    && IsPathAt(s, k, l) && IsQueryAt(s, l, m) && IsFragmentAt(s, m)
  }

  /** The pattern, read as a specification: the whole input splits into
      the six parts. */
  ghost predicate MatchesPattern(s: string) {
    exists i, j, k, l, m :: Decomposition(s, i, j, k, l, m)
  }

  // ---------------------------------------------------------------------
  // The recogniser
  // ---------------------------------------------------------------------

  /** The end of the longest run of characters satisfying `p` from `a`. */
  function RunEnd(s: string, a: int, p: char -> bool): (b: int)
    requires 0 <= a <= |s|
    ensures a <= b <= |s| && (b < |s| ==> !p(s[b]))
    ensures forall x :: a <= x < b ==> p(s[x])
    decreases |s| - a
  {
    if a < |s| && p(s[a]) then RunEnd(s, a + 1, p) else a
  }

  /** The length of a leading `http://` or `https://`, either case; 0 if none. */
  function SchemeLength(s: string): (n: nat)
    ensures n <= |s|
  {
    if LowerStarts(s, "https://") then 8
    else if LowerStarts(s, "http://") then 7
    else 0
  }

  /** The end of a `:` and the digits after it at `j`; `j` without `:`. */
  function PortEnd(s: string, j: int): (k: int)
    requires 0 <= j <= |s|
    ensures j <= k <= |s|
  {
    if j < |s| && s[j] == ':' then RunEnd(s, j + 1, IsDigit) else j
  }

  /** The end of a `?` and the query characters after it at `l`. */
  function QueryEnd(s: string, l: int): (m: int)
    requires 0 <= l <= |s|
    ensures l <= m <= |s|
  {
    if l < |s| && s[l] == '?' then RunEnd(s, l + 1, IsQueryChar) else l
  }

  /** `isValidUrl`: after the scheme, the host is the longest run of host
      characters (no later part can start with one), and each later part is
      likewise the longest run its opening character allows; a `:` must be
      followed by a digit and a path must open with `/`. */
  predicate IsValidUrl(s: string) {
    var i := SchemeLength(s);
    var j := RunEnd(s, i, IsHostChar);
    var k := PortEnd(s, j);
    var l := RunEnd(s, k, IsPathChar);
    var m := QueryEnd(s, l);
    IsHost(s[i..j]) && k != j + 1 && (l == k || s[k] == '/') && IsFragmentAt(s, m)
  }

  // ---------------------------------------------------------------------
  // The recogniser accepts exactly the pattern
  // ---------------------------------------------------------------------

  /** The characters of a joined list come from its items or its separator. */
  lemma {:induction false} JoinChars(parts: seq<string>, sep: string, c: char)
    requires c in Join(parts, sep) && c !in sep
    ensures exists k :: 0 <= k < |parts| && c in parts[k]
  {
    if |parts| == 1 {
      assert c in parts[0];
    } else if |parts| > 1 {
      var rest := Join(parts[1..], sep);
      assert Join(parts, sep) == parts[0] + sep + rest;
      if c in rest {
        JoinChars(parts[1..], sep, c);
        var k :| 0 <= k < |parts[1..]| && c in parts[1..][k];
        assert parts[k + 1] == parts[1..][k];
      } else {
        assert c in parts[0];
      }
    }
  }

  /** A host is made of host characters and holds at least one dot. */
  lemma HostChars(h: string)
    requires IsHost(h)
    ensures All(h, IsHostChar) && '.' in h
  {
    var parts := Split(h, ".");
    if '.' !in h {
      SplitAbsent(h, '.');
    }
    JoinSplit(h, ".");
    forall i | 0 <= i < |h| ensures IsHostChar(h[i]) {
      var c := h[i];
      if c != '.' {
        JoinChars(parts, ".", c);
        var k :| 0 <= k < |parts| && c in parts[k];
        PieceChar(h, parts, k, c);
      }
    }
  }

  lemma PieceChar(h: string, parts: seq<string>, k: nat, c: char)
    requires IsHost(h) && parts == Split(h, ".") && k < |parts| && c in parts[k]
    ensures IsLabelChar(c)
  {
    var x := parts[k];
    var i :| 0 <= i < |x| && x[i] == c;
    if IsDomain(h) {
      if k < |parts| - 1 {
        assert IsLabel(x);
      } else {
        assert IsTld(x);
      }
    } else {
      assert IsOctet(x);
    }
  }

  /** The host of a match, as positions in the input. */
  lemma HostAt(s: string, i: int, j: int)
    requires 0 <= i <= j <= |s| && IsHost(s[i..j])
    ensures forall x :: i <= x < j ==> IsHostChar(s[x])
    ensures exists x :: i <= x < j && s[x] == '.'
  {
    HostChars(s[i..j]);
    forall x | i <= x < j ensures IsHostChar(s[x]) {
      assert s[i..j][x - i] == s[x];
    }
    var y :| 0 <= y < j - i && s[i..j][y] == '.';
    assert s[i + y] == '.';
  }

  /** A pattern match is accepted. */
  lemma AcceptsMatch(s: string, i: int, j: int, k: int, l: int, m: int)
    requires Decomposition(s, i, j, k, l, m)
    ensures IsValidUrl(s)
  {
    HostAt(s, i, j);
    CutsOfParts(s, i, j, k, l, m);
  }

  /** Where the recogniser cuts an input that splits into the six parts. */
  lemma CutsOfParts(s: string, i: int, j: int, k: int, l: int, m: int)
    requires 0 <= i <= j <= k <= l <= m <= |s| && IsSchemeAt(s, i)
    requires forall x :: i <= x < j ==> IsHostChar(s[x])
    requires exists x :: i <= x < j && s[x] == '.'
    requires IsPortAt(s, j, k) && IsPathAt(s, k, l) && IsQueryAt(s, l, m) && IsFragmentAt(s, m)
    ensures SchemeLength(s) == i && RunEnd(s, i, IsHostChar) == j && PortEnd(s, j) == k
    ensures RunEnd(s, k, IsPathChar) == l && QueryEnd(s, l) == m
    ensures k != j + 1 && (l == k || s[k] == '/')
  {
    SchemeOfParts(s, i, j);
    Openings(s, j, k, l, m);
    HostEnd(s, i, j);
    PortEndAt(s, j, k);
    PathEndAt(s, k, l);
    QueryEndAt(s, l, m);
  }

  lemma HostEnd(s: string, i: int, j: int)
    requires 0 <= i <= j <= |s| && forall x :: i <= x < j ==> IsHostChar(s[x])
    requires j < |s| ==> s[j] == ':' || s[j] == '/' || s[j] == '?' || s[j] == '#'
    ensures RunEnd(s, i, IsHostChar) == j
  {
    RunEndExact(s, i, j, IsHostChar);
  }

  lemma PortEndAt(s: string, j: int, k: int)
    requires 0 <= j <= k <= |s| && IsPortAt(s, j, k)
    requires k < |s| ==> s[k] == '/' || s[k] == '?' || s[k] == '#'
    ensures PortEnd(s, j) == k && k != j + 1
  {
    if j < k {
      RunEndExact(s, j + 1, k, IsDigit);
    }
  }

  lemma PathEndAt(s: string, k: int, l: int)
    requires 0 <= k <= l <= |s| && IsPathAt(s, k, l)
    requires l < |s| ==> s[l] == '?' || s[l] == '#'
    ensures RunEnd(s, k, IsPathChar) == l && (l == k || s[k] == '/')
  {
    RunEndExact(s, k, l, IsPathChar);
  }

  lemma QueryEndAt(s: string, l: int, m: int)
    requires 0 <= l <= m <= |s| && IsQueryAt(s, l, m)
    requires m < |s| ==> s[m] == '#'
    ensures QueryEnd(s, l) == m
  {
    if l < m {
      RunEndExact(s, l + 1, m, IsQueryChar);
    }
  }

  lemma RunEndExact(s: string, a: int, b: int, p: char -> bool)
    requires 0 <= a <= b <= |s| && forall x :: a <= x < b ==> p(s[x])
    requires b < |s| ==> !p(s[b])
    ensures RunEnd(s, a, p) == b
  {
  }

  /** Each part after the host opens with its own character, which none of
      the parts before it may hold. */
  lemma Openings(s: string, j: int, k: int, l: int, m: int)
    requires 0 <= j <= k <= l <= m <= |s|
    requires IsPortAt(s, j, k) && IsPathAt(s, k, l) && IsQueryAt(s, l, m) && IsFragmentAt(s, m)
    ensures m < |s| ==> s[m] == '#'
    ensures l < |s| ==> s[l] == '?' || s[l] == '#'
    ensures k < |s| ==> s[k] == '/' || s[k] == '?' || s[k] == '#'
    ensures j < |s| ==> s[j] == ':' || s[j] == '/' || s[j] == '?' || s[j] == '#'
  {
  }

  /** In a match, the scheme part is what `SchemeLength` finds: without a
      scheme part the host would have to start the input, and a leading
      `http:` or `https:` leaves it no room for a dot. */
  lemma SchemeOfParts(s: string, i: int, j: int)
    requires 0 <= i <= j <= |s| && IsSchemeAt(s, i)
    requires forall x :: i <= x < j ==> IsHostChar(s[x])
    requires exists x :: i <= x < j && s[x] == '.'
    ensures SchemeLength(s) == i
  {
    if i > 0 {
      SchemePresent(s, i);
    } else {
      SchemeAbsent(s, j);
    }
  }

  /** A written scheme is the one `SchemeLength` finds. */
  lemma SchemePresent(s: string, i: int)
    requires 0 < i <= |s| && IsSchemeAt(s, i)
    ensures SchemeLength(s) == i
  {
    if i == 7 {
      assert LowerChar(s[4]) == ':';
    }
  }

  /** Without a written scheme the host starts the input, and then a
      leading `http:` or `https:` would leave it no dot. */
  lemma SchemeAbsent(s: string, j: int)
    requires 0 <= j <= |s| && forall x :: 0 <= x < j ==> IsHostChar(s[x])
    requires exists x :: 0 <= x < j && s[x] == '.'
    ensures SchemeLength(s) == 0
  {
    NoLeading(s, j, "https://", 5);
    NoLeading(s, j, "http://", 4);
  }

  /** A host with a dot at the head of the input rules out a leading `w`
      whose first `:` is at `n`. */
  lemma NoLeading(s: string, j: int, w: string, n: nat)
    requires 0 <= j <= |s| && forall x :: 0 <= x < j ==> IsHostChar(s[x])
    requires exists x :: 0 <= x < j && s[x] == '.'
    requires n < |w| && w[n] == ':' && forall x :: 0 <= x < n ==> w[x] != '.'
    ensures !LowerStarts(s, w)
  {
    if LowerStarts(s, w) {
      NoSchemeNoDot(s, j, w, n);
    }
  }

  /** A `:` after a dotless head of the input leaves no room for a host
      with a dot. */
  lemma NoSchemeNoDot(s: string, j: int, w: string, n: nat)
    requires 0 <= j <= |s| && forall x :: 0 <= x < j ==> IsHostChar(s[x])
    requires n < |w| && LowerStarts(s, w)
    requires w[n] == ':' && forall x :: 0 <= x < n ==> w[x] != '.'
    ensures forall x :: 0 <= x < j ==> s[x] != '.'
  {
    assert s[n] == ':' by {
      assert LowerChar(s[n]) == ':';
    }
    assert j <= n by {
      assert !IsHostChar(s[n]);
    }
    forall x | 0 <= x < j ensures s[x] != '.' {
      assert LowerChar(s[x]) != '.';
    }
  }

  /** An accepted input matches the pattern, at the cuts the recogniser
      makes. */
  lemma MatchOfAccepted(s: string)
    requires IsValidUrl(s)
    ensures MatchesPattern(s)
  {
    var i := SchemeLength(s);
    var j := RunEnd(s, i, IsHostChar);
    var k := PortEnd(s, j);
    var l := RunEnd(s, k, IsPathChar);
    var m := QueryEnd(s, l);
    assert Decomposition(s, i, j, k, l, m);
  }

  /** The two readings of the pattern agree. */
  lemma ValidUrlIff(s: string)
    ensures IsValidUrl(s) <==> MatchesPattern(s)
  {
    if IsValidUrl(s) {
      MatchOfAccepted(s);
    }
    if MatchesPattern(s) {
      var i, j, k, l, m :| Decomposition(s, i, j, k, l, m);
      AcceptsMatch(s, i, j, k, l, m);
    }
  }

  /** A host needs a dot, so an input without one (`localhost`, a bare
      word) is never accepted. */
  lemma DotlessRejected(s: string)
    requires '.' !in s
    ensures !IsValidUrl(s)
  {
    var i := SchemeLength(s);
    var j := RunEnd(s, i, IsHostChar);
    if IsHost(s[i..j]) {
      HostAt(s, i, j);
    }
  }

  // ---------------------------------------------------------------------
  // Normalisation before the check
  // ---------------------------------------------------------------------

  const Https := "https://"

  /** The URL `handleScan` checks: the trimmed input, with `https://` put in
      front unless it starts with `http://` or `https://` exactly as written
      (this test is case-sensitive, unlike the pattern). A blank input gives
      nothing to check. */
  function Normalize(input: string): Option<string> {
    var t := Trim(input);
    if t == [] then None
    else if StartsWith(t, "http://") || StartsWith(t, Https) then Some(t)
    else Some(Https + t)
  }

  /** Only a blank input gives nothing to check; otherwise the URL checked
      starts with a scheme as written and ends with the trimmed input,
      which at most `https://` precedes. */
  lemma NormalizeSpec(input: string)
    ensures Normalize(input).None? <==> Trim(input) == []
    ensures Normalize(input).Some? ==>
      var r := Normalize(input).value;
      && (StartsWith(r, "http://") || StartsWith(r, Https))
      && EndsWith(r, Trim(input)) && |r| <= |Trim(input)| + |Https|
  {
  }

  /** Normalising a normalised URL changes nothing, so after a successful
      scan (which stores the full URL) scanning again checks the same text. */
  lemma NormalizeIdempotent(input: string)
    requires Normalize(input).Some?
    ensures Normalize(Normalize(input).value) == Normalize(input)
  {
    var t := Trim(input);
    var u := Normalize(input).value;
    TrimEnds(input);
    if u != t {
      assert u == Https + t;
      assert u[0] == 'h' && u[|u| - 1] == t[|t| - 1];
      assert u[..|Https|] == Https;
    }
    TrimNoop(u);
  }

  /** An input that starts with an upper-case `HTTP://` (or `HTTPS://`) is
      not recognised as having a scheme, gets `https://` put in front, and
      is then rejected: the host of the result is the dotless `HTTP` or
      `HTTPS` before the second scheme's `:`. */
  lemma UpperSchemeRejected(input: string, w: string, n: nat)
    requires (w == "http://" && n == 4) || (w == Https && n == 5)
    requires LowerStarts(Trim(input), w)
    requires !StartsWith(Trim(input), "http://") && !StartsWith(Trim(input), Https)
    ensures Normalize(input).Some? && !IsValidUrl(Normalize(input).value)
  {
    PrefixedRejected(Trim(input), w, n);
  }

  /** `https://` in front of a text that starts with a scheme in any case
      gives a URL the pattern rejects. */
  lemma PrefixedRejected(t: string, w: string, n: nat)
    requires n < |w| && w[n] == ':' && forall x :: 0 <= x < n ==> IsAsciiLetter(w[x])
    requires LowerStarts(t, w)
    ensures !IsValidUrl(Https + t)
  {
    var s := Https + t;
    PrefixedScheme(t);
    var j := RunEnd(s, 8, IsHostChar);
    ColonEndsHost(s, t, w, n);
    forall x | 8 <= x < j ensures s[x] != '.' {
      assert LowerChar(t[x - 8]) == w[x - 8];
    }
    if IsHost(s[8..j]) {
      HostAt(s, 8, j);
    }
  }

  /** `https://` in front of any text is read as the scheme. */
  lemma PrefixedScheme(t: string)
    ensures SchemeLength(Https + t) == 8
  {
    var s := Https + t;
    forall x | 0 <= x < 8 ensures LowerChar(s[x]) == Https[x] {
      assert s[x] == Https[x];
    }
  }

  /** After the added scheme, the host run stops at the `:` of the
      written one. */
  lemma ColonEndsHost(s: string, t: string, w: string, n: nat)
    requires s == Https + t
    requires n < |w| && w[n] == ':' && LowerStarts(t, w)
    ensures RunEnd(s, 8, IsHostChar) <= 8 + n
  {
    assert LowerChar(t[n]) == ':';
    assert s[8 + n] == t[n];
    RunEndStops(s, 8, 8 + n, IsHostChar);
  }

  /** A run stops no later than the first character that fails `p`. */
  lemma RunEndStops(s: string, a: int, c: int, p: char -> bool)
    requires 0 <= a <= c < |s| && !p(s[c])
    ensures RunEnd(s, a, p) <= c
  {
  }

  // ---------------------------------------------------------------------
  // The page
  // ---------------------------------------------------------------------

  /** `verdictInfo[result.verdict].title`. */
  function VerdictTitle(v: UrlVerdict): (title: string)
    ensures title == "URL Appears Safe" <==> v == Safe
  {
    match v
    case Safe => "URL Appears Safe"
    case Caution => "Exercise Caution"
    case Dangerous => "High Risk URL"
    case Unknown => "Analysis Inconclusive"
  }

  /** Each verdict is shown under its own title. */
  lemma VerdictTitleInjective(a: UrlVerdict, b: UrlVerdict)
    requires VerdictTitle(a) == VerdictTitle(b)
    ensures a == b
  {
  }

  const InvalidUrl := "Please enter a valid URL (e.g., example.com)"
  const ScanUrlFailure := "Failed to scan URL. Please try again."

  class UrlScanPage {
    var url: string
    var isScanning: bool
    var result: Option<UrlAnalysisResult>
    var error: Option<string>

    constructor ()
      ensures url == "" && !isScanning && result.None? && error.None?
    {
      url := "";
      isScanning := false;
      result := None;
      error := None;
    }

    method SetUrl(u: string)
      modifies this
      ensures url == u
      ensures isScanning == old(isScanning) && result == old(result) && error == old(error)
    {
      url := u;
    }

    /** `handleScan`: a blank input does nothing; a URL the pattern rejects
        shows the hint and leaves the rest as it was; otherwise the error and
        the previous result are cleared and the analysis decides: a reply
        becomes the result and the field shows the full URL, a failure shows
        a fixed message and leaves the typed text. The scanning flag ends
        false. */
    method HandleScan(apiKey: string, reply: Reply<UrlReply>)
      modifies this
      ensures Normalize(old(url)).None? ==>
        url == old(url) && isScanning == old(isScanning) && result == old(result) && error == old(error)
      ensures Normalize(old(url)).Some? && !MatchesPattern(Normalize(old(url)).value) ==>
        url == old(url) && isScanning == old(isScanning) && result == old(result) && error == Some(InvalidUrl)
      ensures Normalize(old(url)).Some? && MatchesPattern(Normalize(old(url)).value) ==>
        var full := Normalize(old(url)).value;
        var outcome := AnalyzeUrl(apiKey, reply);
        && !isScanning
        && (outcome.Ok? ==> result == Some(outcome.value) && error.None? && url == full)
        && (outcome.Err? ==> result.None? && error == Some(ScanUrlFailure) && url == old(url))
    {
      var full := Normalize(url);
      if full.None? {
        return;
      }
      ValidUrlIff(full.value);
      if !IsValidUrl(full.value) {
        error := Some(InvalidUrl);
        return;
      }
      Submit(full.value, apiKey, reply);
    }

    /** The request `handleScan` makes for an accepted URL `full`. */
    method Submit(full: string, apiKey: string, reply: Reply<UrlReply>)
      modifies this
      ensures var outcome := AnalyzeUrl(apiKey, reply);
        && !isScanning
        && (outcome.Ok? ==> result == Some(outcome.value) && error.None? && url == full)
        && (outcome.Err? ==> result.None? && error == Some(ScanUrlFailure) && url == old(url))
    {
      isScanning := true;
      error := None;
      result := None;
      var outcome := AnalyzeUrl(apiKey, reply);
      match outcome {
        case Ok(r) =>
          result := Some(r);
          url := full;
        case Err(_) =>
          error := Some(ScanUrlFailure);
      }
      isScanning := false;
    }

    /** `reset`: clears the URL, the result and the error. */
    method Reset()
      modifies this
      ensures url == "" && result.None? && error.None?
      ensures isScanning == old(isScanning)
    {
      url := "";
      result := None;
      error := None;
    }
  }
}

/** The JavaScript string operations the application relies on (trim, split,
    includes, startsWith, toLowerCase, the regex class \s), stated over
    strings as sequences of Unicode scalar values. */
module JsString {
  import opened Options

  /** The characters of the ECMAScript WhiteSpace and LineTerminator
      productions: what `String.prototype.trim` strips and what `\s` matches. */
  predicate IsWhitespace(c: char) {
    c == ' ' || c == '\t' || c == '\n' || c == '\r' || c == '\U{B}' || c == '\U{C}'
    || c == '\U{A0}' || c == '\U{1680}' || ('\U{2000}' <= c <= '\U{200A}')
    || c == '\U{2028}' || c == '\U{2029}' || c == '\U{202F}' || c == '\U{205F}'
    || c == '\U{3000}' || c == '\U{FEFF}'
  }

  /** The ECMAScript LineTerminator characters: what `.` does not match and
      where a multiline `^` may match. */
  predicate IsLineTerminator(c: char) {
    c == '\n' || c == '\r' || c == '\U{2028}' || c == '\U{2029}'
  }

  predicate IsDigit(c: char) { '0' <= c <= '9' }

  predicate IsAsciiLetter(c: char) { ('a' <= c <= 'z') || ('A' <= c <= 'Z') }

  predicate AllWhitespace(s: string) {
    forall i :: 0 <= i < |s| ==> IsWhitespace(s[i])
  }

  /** `s.trimStart()`. */
  function TrimStart(s: string): (r: string)
    ensures |r| <= |s|
  {
    if s != [] && IsWhitespace(s[0]) then TrimStart(s[1..]) else s
  }

  /** `s.trimEnd()`. */
  function TrimEnd(s: string): (r: string)
    ensures |r| <= |s|
  {
    if s != [] && IsWhitespace(s[|s| - 1]) then TrimEnd(s[..|s| - 1]) else s
  }

  /** `s.trim()`. */
  function Trim(s: string): (r: string)
    ensures |r| <= |s|
  {
    TrimEnd(TrimStart(s))
  }

  /** trimStart drops the leading whitespace and nothing else: what it keeps
      is a suffix that does not start with whitespace, and what it drops is
      all whitespace. */
  lemma {:induction false} TrimStartSpec(s: string)
    ensures var r := TrimStart(s);
      && r == s[|s| - |r|..]
      && (r == [] || !IsWhitespace(r[0]))
      && AllWhitespace(s[..|s| - |r|])
  {
    if s != [] && IsWhitespace(s[0]) {
      TrimStartSpec(s[1..]);
      TrimStartStep(s, TrimStart(s[1..]));
    }
  }

  lemma TrimStartStep(s: string, r: string)
    requires s != [] && IsWhitespace(s[0]) && |r| <= |s| - 1
    requires r == s[1..][|s| - 1 - |r|..] && AllWhitespace(s[1..][..|s| - 1 - |r|])
    ensures r == s[|s| - |r|..] && AllWhitespace(s[..|s| - |r|])
  {
    WhitespaceCons(s[0], s[1..][..|s| - 1 - |r|]);
    assert s[..|s| - |r|] == [s[0]] + s[1..][..|s| - 1 - |r|];
  }

  /** trimEnd drops the trailing whitespace and nothing else. */
  lemma {:induction false} TrimEndSpec(s: string)
    ensures var r := TrimEnd(s);
      && r == s[..|r|]
      && (r == [] || !IsWhitespace(r[|r| - 1]))
      && AllWhitespace(s[|r|..])
  {
    if s != [] && IsWhitespace(s[|s| - 1]) {
      TrimEndSpec(s[..|s| - 1]);
      TrimEndStep(s, TrimEnd(s[..|s| - 1]));
    }
  }

  lemma TrimEndStep(s: string, r: string)
    requires s != [] && IsWhitespace(s[|s| - 1]) && |r| <= |s| - 1
    requires r == s[..|s| - 1][..|r|] && AllWhitespace(s[..|s| - 1][|r|..])
    ensures r == s[..|r|] && AllWhitespace(s[|r|..])
  {
    WhitespaceSnoc(s[..|s| - 1][|r|..], s[|s| - 1]);
    assert s[|r|..] == s[..|s| - 1][|r|..] + [s[|s| - 1]];
  }

  lemma WhitespaceCons(c: char, s: string)
    requires IsWhitespace(c) && AllWhitespace(s)
    ensures AllWhitespace([c] + s)
  {
    assert forall i :: 0 < i < |s| + 1 ==> ([c] + s)[i] == s[i - 1];
  }

  lemma WhitespaceSnoc(s: string, c: char)
    requires IsWhitespace(c) && AllWhitespace(s)
    ensures AllWhitespace(s + [c])
  {
    assert forall i :: 0 <= i < |s| ==> (s + [c])[i] == s[i];
  }

  /** What trim keeps: a contiguous slice of the input that neither starts nor
      ends with whitespace, with only whitespace cut away on either side. */
  lemma TrimSpec(s: string)
    ensures var r := Trim(s);
      && (r == [] || (!IsWhitespace(r[0]) && !IsWhitespace(r[|r| - 1])))
      && (exists a :: 0 <= a <= |s| - |r| && r == s[a..a + |r|]
            && AllWhitespace(s[..a]) && AllWhitespace(s[a + |r|..]))
  {
    var a := TrimOffset(s);
    TrimEnds(s);
  }

  /** The ends of the trimmed text are not whitespace. */
  lemma TrimEnds(s: string)
    ensures var r := Trim(s);
      r == [] || (!IsWhitespace(r[0]) && !IsWhitespace(r[|r| - 1]))
  {
    var u := TrimStart(s);
    TrimStartSpec(s);
    TrimEndSpec(u);
    var r := TrimEnd(u);
    if r != [] {
      assert r[0] == u[0];
    }
  }

  /** Where the text trim keeps starts in the input. */
  lemma TrimOffset(s: string) returns (a: nat)
    ensures var r := Trim(s);
      && a + |r| <= |s| && r == s[a..a + |r|]
      && AllWhitespace(s[..a]) && AllWhitespace(s[a + |r|..])
  {
    var u := TrimStart(s);
    TrimStartSpec(s);
    TrimEndSpec(u);
    var r := TrimEnd(u);
    a := |s| - |u|;
    assert Trim(s) == r;
    KeptSlice(s, a, u, r);
  }

  /** A prefix `r` of the suffix `u` of `s` that starts at `a`, followed in
      `u` by whitespace only, is the slice of `s` from `a`, and so is what
      follows it. */
  lemma KeptSlice(s: string, a: nat, u: string, r: string)
    requires a <= |s| && u == s[a..]
    requires |r| <= |u| && r == u[..|r|] && AllWhitespace(u[|r|..])
    ensures a + |r| <= |s| && r == s[a..a + |r|] && AllWhitespace(s[a + |r|..])
  {
    SliceOfSlice(s, a, |r|);
  }

  lemma SubSlice(s: string, a: nat, i: nat, k: nat)
    requires a + i + k <= |s|
    ensures s[a..][i..i + k] == s[a + i..a + i + k]
  {
  }

  lemma SliceOfSlice(s: string, a: nat, k: nat)
    requires a + k <= |s|
    ensures s[a..][..k] == s[a..a + k] && s[a..][k..] == s[a + k..]
  {
  }

  /** Trimming a string that neither starts nor ends with whitespace leaves it
      as it is; in particular trimming twice is trimming once. */
  lemma TrimNoop(s: string)
    requires s == [] || (!IsWhitespace(s[0]) && !IsWhitespace(s[|s| - 1]))
    ensures Trim(s) == s
  {
  }

  lemma TrimIdempotent(s: string)
    ensures Trim(Trim(s)) == Trim(s)
  {
    TrimEnds(s);
    TrimNoop(Trim(s));
  }

  /** A string is blank (falsy after trim) exactly when it is all whitespace. */
  lemma {:induction false} TrimEmptyIff(s: string)
    ensures Trim(s) == [] <==> AllWhitespace(s)
  {
    if s != [] && IsWhitespace(s[0]) {
      TrimEmptyIff(s[1..]);
      assert TrimStart(s) == TrimStart(s[1..]);
      assert AllWhitespace(s) <==> AllWhitespace(s[1..]) by {
        assert forall i :: 0 < i < |s| ==> s[i] == s[1..][i - 1];
      }
    } else if s != [] {
      TrimEndSpec(s);
    }
  }

  /** `toLowerCase` on the ASCII letters. */
  function LowerChar(c: char): (r: char)
    ensures IsAsciiLetter(c) ==> 'a' <= r <= 'z'
    ensures !('A' <= c <= 'Z') ==> r == c
  {
    if 'A' <= c <= 'Z' then (c as int - 'A' as int + 'a' as int) as char else c
  }

  function ToLower(s: string): (r: string)
    ensures |r| == |s|
    ensures forall i :: 0 <= i < |s| ==> r[i] == LowerChar(s[i])
  {
    if s == [] then [] else [LowerChar(s[0])] + ToLower(s[1..])
  }

  predicate StartsWith(s: string, p: string) {
    |p| <= |s| && s[..|p|] == p
  }

  predicate EndsWith(s: string, p: string) {
    |p| <= |s| && s[|s| - |p|..] == p
  }

  /** `s.indexOf(p) === k`. */
  predicate IndexIs(s: string, p: string, k: int) {
    IndexOf(s, p).Some? && IndexOf(s, p).value == k
  }

  /** True when `p` occurs in `s` at position `i`. */
  predicate OccursAt(s: string, p: string, i: int) {
    0 <= i && i + |p| <= |s| && s[i..i + |p|] == p
  }

  /** `s.indexOf(p)`: the first position where `p` occurs, if any. */
  function IndexOf(s: string, p: string): (r: Option<nat>)
    ensures r.Some? ==> OccursAt(s, p, r.value)
    ensures r.Some? ==> forall j :: 0 <= j < r.value ==> !OccursAt(s, p, j)
    ensures r.None? ==> forall j :: !OccursAt(s, p, j)
  {
    if |s| < |p| then None
    else if s[..|p|] == p then Some(0)
    else
      OccursShift(s, p);
      match IndexOf(s[1..], p)
      case None => None
      case Some(k) => Some(k + 1)
  }

  /** Occurrences in `s` past its first character are the occurrences in `s[1..]`. */
  lemma OccursShift(s: string, p: string)
    requires s != []
    ensures forall j :: j > 0 ==> (OccursAt(s, p, j) <==> OccursAt(s[1..], p, j - 1))
  {
    forall j | j > 0
      ensures OccursAt(s, p, j) <==> OccursAt(s[1..], p, j - 1)
    {
      if j + |p| <= |s| {
        SubSlice(s, 1, j - 1, |p|);
      }
    }
  }

  /** `s.includes(p)`. */
  predicate Contains(s: string, p: string) {
    IndexOf(s, p).Some?
  }

  lemma ContainsEmpty(s: string)
    ensures Contains(s, "")
  {
    assert OccursAt(s, "", 0);
  }

  /** `s.split(sep)` for a non-empty separator string. */
  function Split(s: string, sep: string): (parts: seq<string>)
    requires sep != []
    ensures |parts| >= 1
    decreases |s|
  {
    match IndexOf(s, sep)
    case None => [s]
    case Some(i) => [s[..i]] + Split(s[i + |sep|..], sep)
  }

  /** `parts.join(sep)`. */
  function Join(parts: seq<string>, sep: string): string
  {
    if parts == [] then ""
    else if |parts| == 1 then parts[0]
    else parts[0] + sep + Join(parts[1..], sep)
  }

  /** Splitting and joining with the same separator gives back the input. */
  lemma {:induction false} JoinSplit(s: string, sep: string)
    requires sep != []
    ensures Join(Split(s, sep), sep) == s
    decreases |s|
  {
    match IndexOf(s, sep)
    case None =>
    case Some(i) =>
      var rest := s[i + |sep|..];
      JoinSplit(rest, sep);
      JoinSplitStep(s, sep, i, Split(rest, sep));
  }

  lemma JoinSplitStep(s: string, sep: string, i: nat, tail: seq<string>)
    requires OccursAt(s, sep, i) && tail != [] && Join(tail, sep) == s[i + |sep|..]
    ensures Join([s[..i]] + tail, sep) == s
  {
    var parts := [s[..i]] + tail;
    assert |parts| >= 2 && parts[0] == s[..i] && parts[1..] == tail;
    assert Join(parts, sep) == s[..i] + sep + Join(tail, sep);
    ThreeSlices(s, i, |sep|);
  }

  lemma ThreeSlices(s: string, i: nat, n: nat)
    requires i + n <= |s|
    ensures s[..i] + s[i..i + n] + s[i + n..] == s
  {
  }

  /** No piece produced by split contains the separator. */
  lemma {:induction false} SplitPiecesFree(s: string, sep: string)
    requires sep != []
    ensures forall k :: 0 <= k < |Split(s, sep)| ==> !Contains(Split(s, sep)[k], sep)
    decreases |s|
  {
    match IndexOf(s, sep)
    case None =>
    case Some(i) =>
      var rest := s[i + |sep|..];
      SplitPiecesFree(rest, sep);
      var head := s[..i];
      forall j | 0 <= j
        ensures !OccursAt(head, sep, j)
      {
        if j + |sep| <= |head| {
          assert head[j..j + |sep|] == s[j..j + |sep|];
          assert !OccursAt(s, sep, j);
        }
      }
      IndexOfNone(head, sep);
      assert Split(s, sep) == [head] + Split(rest, sep);
  }

  /** Replaces every occurrence of the character `c` by the string `repl`
      (`s.replace(/c/g, repl)` for a one-character pattern). */
  function ReplaceChar(s: string, c: char, repl: string): (r: string)
    ensures c !in s ==> r == s
  {
    if s == [] then []
    else (if s[0] == c then repl else [s[0]]) + ReplaceChar(s[1..], c, repl)
  }

  /** JavaScript `length`: the number of UTF-16 code units, where a scalar
      value outside the Basic Multilingual Plane takes two. */
  function Utf16Length(s: string): (n: nat)
    ensures |s| <= n <= 2 * |s|
  {
    if s == [] then 0 else (if s[0] as int >= 0x10000 then 2 else 1) + Utf16Length(s[1..])
  }

  /** An occurrence in `a + b` from position `|a|` on is an occurrence in `b`. */
  lemma OccursAfter(a: string, b: string, p: string, k: nat)
    ensures OccursAt(a + b, p, |a| + k) <==> OccursAt(b, p, k)
  {
    if k + |p| <= |b| {
      assert (a + b)[|a| + k..|a| + k + |p|] == b[k..k + |p|];
    }
  }

  /** The first occurrence is the one `IndexOf` finds. */
  lemma IndexOfFirst(s: string, p: string, k: nat)
    requires OccursAt(s, p, k)
    requires forall j :: 0 <= j < k ==> !OccursAt(s, p, j)
    ensures IndexIs(s, p, k)
  {
    var r := IndexOf(s, p);
    assert r.Some?;
    assert !(r.value < k);
    assert !(r.value > k);
  }

  /** No occurrence: `IndexOf` finds none. */
  lemma IndexOfNone(s: string, p: string)
    requires forall j :: 0 <= j ==> !OccursAt(s, p, j)
    ensures IndexOf(s, p).None?
  {
    var r := IndexOf(s, p);
    assert r.Some? ==> OccursAt(s, p, r.value);
  }

  /** When `p` starts nowhere in `a`, the first occurrence in `a + b` is the
      first occurrence in `b`, shifted past `a`. */
  lemma IndexOfSkip(a: string, b: string, p: string)
    requires forall j :: 0 <= j < |a| ==> !OccursAt(a + b, p, j)
    ensures IndexOf(b, p).None? ==> IndexOf(a + b, p).None?
    ensures IndexOf(b, p).Some? ==> IndexIs(a + b, p, |a| + IndexOf(b, p).value)
  {
    if IndexOf(b, p).None? {
      IndexOfSkipNone(a, b, p);
    } else {
      IndexOfSkipSome(a, b, p, IndexOf(b, p).value);
    }
  }

  lemma IndexOfSkipNone(a: string, b: string, p: string)
    requires forall j :: 0 <= j < |a| ==> !OccursAt(a + b, p, j)
    requires IndexOf(b, p).None?
    ensures IndexOf(a + b, p).None?
  {
    forall j | 0 <= j
      ensures !OccursAt(a + b, p, j)
    {
      if j >= |a| {
        OccursAfter(a, b, p, j - |a|);
      }
    }
    IndexOfNone(a + b, p);
  }

  lemma IndexOfSkipSome(a: string, b: string, p: string, k: nat)
    requires forall j :: 0 <= j < |a| ==> !OccursAt(a + b, p, j)
    requires IndexIs(b, p, k)
    ensures IndexIs(a + b, p, |a| + k)
  {
    OccursAfter(a, b, p, k);
    NoneBefore(a, b, p, k);
    IndexOfFirst(a + b, p, |a| + k);
  }

  lemma NoneBefore(a: string, b: string, p: string, k: nat)
    requires forall j :: 0 <= j < |a| ==> !OccursAt(a + b, p, j)
    requires forall j :: 0 <= j < k ==> !OccursAt(b, p, j)
    ensures forall j :: 0 <= j < |a| + k ==> !OccursAt(a + b, p, j)
  {
    forall j | |a| <= j < |a| + k
      ensures !OccursAt(a + b, p, j)
    {
      OccursAfter(a, b, p, j - |a|);
    }
  }

  /** A pattern whose first character does not appear in `a` starts nowhere
      in `a`. */
  lemma FirstCharAbsent(a: string, b: string, p: string)
    requires p != [] && p[0] !in a
    ensures forall j :: 0 <= j < |a| ==> !OccursAt(a + b, p, j)
  {
    forall j | 0 <= j < |a|
      ensures !OccursAt(a + b, p, j)
    {
      if j + |p| <= |a + b| {
        assert (a + b)[j..j + |p|][0] == a[j];
      }
    }
  }

  /** A pattern that `a` does not contain and that does not contain the
      character `c` cannot start in `a` when `c` follows `a`. */
  lemma SeparatorBlocks(a: string, c: char, b: string, p: string)
    requires p != [] && c !in p && !Contains(a, p)
    ensures forall j :: 0 <= j <= |a| ==> !OccursAt(a + ([c] + b), p, j)
  {
    var s := a + ([c] + b);
    forall j | 0 <= j <= |a|
      ensures !OccursAt(s, p, j)
    {
      if j + |p| <= |a| {
        assert s[j..j + |p|] == a[j..j + |p|];
        assert !OccursAt(a, p, j);
      } else if j + |p| <= |s| {
        assert s[j..j + |p|][|a| - j] == c;
      }
    }
  }

  /** A string that does not contain `p` does not contain any extension of it. */
  lemma OccursPrefix(s: string, p: string, q: string, j: int)
    ensures OccursAt(s, p + q, j) ==> OccursAt(s, p, j)
  {
    if 0 <= j && j + |p + q| <= |s| {
      assert s[j..j + |p + q|][..|p|] == s[j..j + |p|];
    }
  }

  /** A string with no line terminator: what `.` matches in full. */
  predicate SingleLine(s: string) {
    forall i :: 0 <= i < |s| ==> !IsLineTerminator(s[i])
  }

  /** Trailing whitespace does not change the trimmed text. */
  lemma TrimAppendWhitespace(s: string, c: char)
    requires IsWhitespace(c)
    ensures Trim(s + [c]) == Trim(s)
  {
    TrimStartAppend(s, c);
    var u := TrimStart(s);
    if AllWhitespace(s) {
      TrimStartBlank(s);
    } else {
      TrimEndAppend(u, c);
    }
  }

  lemma {:induction false} TrimStartBlank(s: string)
    requires AllWhitespace(s)
    ensures TrimStart(s) == []
  {
    if s != [] {
      assert AllWhitespace(s[1..]) by {
        assert forall i :: 0 <= i < |s| - 1 ==> s[1..][i] == s[i + 1];
      }
      TrimStartBlank(s[1..]);
    }
  }

  lemma TrimEndAppend(u: string, c: char)
    requires IsWhitespace(c)
    ensures TrimEnd(u + [c]) == TrimEnd(u)
  {
    assert (u + [c])[..|u|] == u;
  }

  lemma {:induction false} TrimStartAppend(s: string, c: char)
    requires IsWhitespace(c)
    ensures TrimStart(s + [c]) == if AllWhitespace(s) then [] else TrimStart(s) + [c]
  {
    if s != [] && IsWhitespace(s[0]) {
      assert (s + [c])[1..] == s[1..] + [c];
      TrimStartAppend(s[1..], c);
      assert AllWhitespace(s) <==> AllWhitespace(s[1..]) by {
        assert forall i :: 0 < i < |s| ==> s[i] == s[1..][i - 1];
      }
    } else if s == [] {
      assert TrimStart([c]) == TrimStart([]);
    }
  }

  /** Leading whitespace does not change the trimmed text. */
  lemma TrimPrependWhitespace(c: char, s: string)
    requires IsWhitespace(c)
    ensures Trim([c] + s) == Trim(s)
  {
    assert ([c] + s)[1..] == s;
  }

  /** A trimmed non-empty string neither starts nor ends with whitespace. */
  lemma TrimmedEnds(s: string)
    requires s != [] && Trim(s) == s
    ensures !IsWhitespace(s[0]) && !IsWhitespace(s[|s| - 1])
  {
    TrimSpec(s);
  }

  /** A pattern that `s` does not contain and that does not contain the
      character `c` first occurs right after `c` when what follows starts
      with it. */
  lemma FirstAfterBreak(s: string, c: char, d: string, p: string)
    requires p != [] && c !in p && !Contains(s, p) && StartsWith(d, p)
    ensures IndexIs(s + ([c] + d), p, |s| + 1)
  {
    SeparatorBlocks(s, c, d, p);
    IndexOfSkip(s, [c] + d, p);
    FirstCharAbsent([c], d, p);
    IndexOfSkip([c], d, p);
    assert IndexIs(d, p, 0);
  }

  /** A pattern whose first character `h` lacks is found in `h + y` where it
      is found in `y`, shifted. */
  lemma FoundAfter(h: string, y: string, p: string, k: nat)
    requires p != [] && p[0] !in h && IndexIs(y, p, k)
    ensures IndexIs(h + y, p, |h| + k)
  {
    FirstCharAbsent(h, y, p);
    IndexOfSkip(h, y, p);
  }

  /** A string without the character `c` splits at `[c]` into itself. */
  lemma SplitAbsent(s: string, c: char)
    requires c !in s
    ensures Split(s, [c]) == [s]
  {
    forall j | 0 <= j
      ensures !OccursAt(s, [c], j)
    {
      if j + 1 <= |s| {
        assert s[j..j + 1][0] == s[j];
      }
    }
    IndexOfNone(s, [c]);
  }

  /** Splitting at `[c]` cuts at the first `c`. */
  lemma SplitFirst(h: string, c: char, t: string, ht: string)
    requires ht == h + ([c] + t) && c !in h
    ensures Split(ht, [c]) == [h] + Split(t, [c])
  {
    FoundAfter(h, [c] + t, [c], 0);
    assert ht[..|h|] == h;
    assert ht[|h| + 1..] == t;
  }

  /** The character `c` at the head of the separator sits right after the
      first item of a joined list. */
  lemma JoinHead(xs: seq<string>, c: char, pad: string)
    requires |xs| >= 2
    ensures Join(xs, [c] + pad) == xs[0] + ([c] + (pad + Join(xs[1..], [c] + pad)))
  {
  }

  /** Splitting a list joined with `[c] + pad` at `c` gives the items back,
      each but the first preceded by `pad`, when `c` occurs in none of them
      nor in `pad`. */
  lemma {:induction false} SplitJoinAt(pre: string, xs: seq<string>, c: char, pad: string)
    requires xs != [] && c !in pre && c !in pad
    requires forall k :: 0 <= k < |xs| ==> c !in xs[k]
    ensures |Split(pre + Join(xs, [c] + pad), [c])| == |xs|
    ensures Split(pre + Join(xs, [c] + pad), [c])[0] == pre + xs[0]
    ensures forall k :: 0 < k < |xs| ==> Split(pre + Join(xs, [c] + pad), [c])[k] == pad + xs[k]
    decreases |xs|
  {
    var h := pre + xs[0];
    if |xs| == 1 {
      assert pre + Join(xs, [c] + pad) == h;
      SplitAbsent(h, c);
    } else {
      var rest := pad + Join(xs[1..], [c] + pad);
      JoinHead(xs, c, pad);
      SplitFirst(h, c, rest, pre + Join(xs, [c] + pad));
      SplitJoinAt(pad, xs[1..], c, pad);
    }
  }

  /** A list of two or more items joined with `[c] + pad` contains `c`. */
  lemma JoinHasSeparator(xs: seq<string>, c: char, pad: string)
    requires |xs| >= 2
    ensures c in Join(xs, [c] + pad)
  {
    JoinHead(xs, c, pad);
    assert Join(xs, [c] + pad)[|xs[0]|] == c;
  }

  /** A character that lower-casing leaves alone survives lower-casing. */
  lemma LowerKeeps(s: string, c: char)
    requires c in s && !('A' <= c <= 'Z')
    ensures c in ToLower(s)
  {
    var i :| 0 <= i < |s| && s[i] == c;
    assert ToLower(s)[i] == c;
  }

  /** Trimming pieces that are trimmed items, each but the first preceded by
      the whitespace `d`, gives the items back. */
  lemma TrimPadded(xs: seq<string>, parts: seq<string>, d: char)
    requires IsWhitespace(d) && |parts| == |xs| && xs != [] && parts[0] == xs[0]
    requires forall k :: 0 < k < |xs| ==> parts[k] == [d] + xs[k]
    requires forall k :: 0 <= k < |xs| ==> Trim(xs[k]) == xs[k]
    ensures TrimAll(parts) == xs
  {
    var r := TrimAll(parts);
    forall k | 0 <= k < |xs|
      ensures r[k] == xs[k]
    {
      if k > 0 {
        PaddedAt(xs, parts, d, k);
      } else {
        TrimmedSame(parts[0], xs[0]);
      }
    }
  }

  lemma PaddedAt(xs: seq<string>, parts: seq<string>, d: char, k: nat)
    requires IsWhitespace(d) && |parts| == |xs|
    requires forall k :: 0 < k < |xs| ==> parts[k] == [d] + xs[k]
    requires forall k :: 0 <= k < |xs| ==> Trim(xs[k]) == xs[k]
    requires 0 < k < |xs|
    ensures Trim(parts[k]) == xs[k]
  {
    PaddedPiece(parts[k], d, xs[k]);
  }

  lemma TrimmedSame(p: string, x: string)
    requires p == x && Trim(x) == x
    ensures Trim(p) == x
  {
  }

  lemma PaddedPiece(p: string, d: char, x: string)
    requires IsWhitespace(d) && p == [d] + x && Trim(x) == x
    ensures Trim(p) == x
  {
    TrimPrependWhitespace(d, x);
  }

  /** `parts.map(p => p.trim())`. */
  function TrimAll(parts: seq<string>): (r: seq<string>)
    ensures |r| == |parts|
    ensures forall k :: 0 <= k < |r| ==> r[k] == Trim(parts[k])
  {
    if parts == [] then []
    else
      var t := TrimAll(parts[1..]);
      assert forall k :: 0 < k < |parts| ==> t[k - 1] == Trim(parts[k]);
      [Trim(parts[0])] + t
  }

  /** The length of the first line of `s`: what `.` (any character but a line
      terminator) matches greedily. */
  function LineLength(s: string): (n: nat)
    ensures n <= |s|
    ensures forall k :: 0 <= k < n ==> !IsLineTerminator(s[k])
    ensures n < |s| ==> IsLineTerminator(s[n])
  {
    if s == [] || IsLineTerminator(s[0]) then 0 else 1 + LineLength(s[1..])
  }

  /** The capture of `/open([\s\S]*?)close/`: the text from the first `open`
      up to the first `close` after it. */
  function Between(text: string, open: string, close: string): (r: Option<string>)
    ensures IndexOf(text, open).None? ==> r.None?
  {
    match IndexOf(text, open)
    case None => None
    case Some(i) =>
      var after := text[i + |open|..];
      match IndexOf(after, close)
      case None => None
      case Some(j) => Some(after[..j])
  }

  /** Being lazy, the capture holds no `close` of its own. */
  lemma BetweenLazy(text: string, open: string, close: string)
    requires close != [] && Between(text, open, close).Some?
    ensures !Contains(Between(text, open, close).value, close)
  {
    var i := IndexOf(text, open).value;
    var after := text[i + |open|..];
    LazyCapture(after, close, IndexOf(after, close).value);
  }

  /** The text before the first occurrence of `p` does not contain `p`. */
  lemma LazyCapture(s: string, p: string, j: nat)
    requires p != [] && IndexIs(s, p, j)
    ensures !Contains(s[..j], p)
  {
    forall k | 0 <= k
      ensures !OccursAt(s[..j], p, k)
    {
      if k + |p| <= j {
        assert s[..j][k..k + |p|] == s[k..k + |p|];
        assert !OccursAt(s, p, k);
      }
    }
    IndexOfNone(s[..j], p);
  }

  /** The capture of `/head(.*)/`: the rest of the line after the first `head`. */
  function LineAfter(text: string, head: string): (r: Option<string>)
    ensures IndexOf(text, head).None? ==> r.None?
    ensures r.Some? ==> SingleLine(r.value)
  {
    match IndexOf(text, head)
    case None => None
    case Some(i) =>
      var rest := text[i + |head|..];
      Some(rest[..LineLength(rest)])
  }

  /** In `a + h + s + c + d`, where `d` starts with `p` and `p` starts in
      none of the parts before, the first `p` is the one `d` starts with. */
  lemma FindAfterParts(a: string, h: string, s: string, c: char, d: string, p: string, text: string)
    requires text == a + (h + (s + ([c] + d)))
    requires p != [] && p[0] !in a && p[0] !in h && c !in p && !Contains(s, p) && StartsWith(d, p)
    ensures IndexIs(text, p, |a| + |h| + |s| + 1)
  {
    var y1 := s + ([c] + d);
    FirstAfterBreak(s, c, d, p);
    var y2 := h + y1;
    FoundAfterEq(h, y1, p, |s| + 1, y2);
    FoundAfterEq(a, y2, p, |h| + (|s| + 1), text);
  }

  lemma FoundAfterEq(h: string, y: string, p: string, k: nat, hy: string)
    requires hy == h + y && p != [] && p[0] !in h && IndexIs(y, p, k)
    ensures IndexIs(hy, p, |h| + k)
  {
    FoundAfter(h, y, p, k);
  }

  /** Dropping the first parts of a nested concatenation. */
  lemma DropParts(a: string, h: string, y: string, text: string)
    requires text == a + (h + y)
    ensures text[|a| + |h|..] == y
  {
    assert text[|a|..] == h + y;
    assert (h + y)[|h|..] == y;
    SliceOfSlice(text, |a|, |h|);
  }

  /** In `a + h + s + c + d`, with `h` first occurring after `a` and `d`
      starting with `close`, the capture between `h` and `close` is `s + c`. */
  lemma BetweenParts(a: string, h: string, s: string, c: char, d: string, close: string, text: string)
    requires text == a + (h + (s + ([c] + d)))
    requires IndexIs(text, h, |a|)
    requires close != [] && c !in close && !Contains(s, close) && StartsWith(d, close)
    ensures Between(text, h, close).Some? && Between(text, h, close).value == s + [c]
  {
    var y := s + ([c] + d);
    DropParts(a, h, y, text);
    FirstAfterBreak(s, c, d, close);
    BetweenAt(text, h, close, |a|, y, |s| + 1);
    assert y[..|s| + 1] == s + [c];
  }

  /** The capture, when both searches succeed. */
  lemma BetweenAt(text: string, open: string, close: string, i: nat, after: string, j: nat)
    requires IndexIs(text, open, i) && i + |open| <= |text| && after == text[i + |open|..]
    requires IndexIs(after, close, j)
    ensures Between(text, open, close).Some? && Between(text, open, close).value == after[..j]
  {
  }

  /** In `a + h + s + c + p + line`, with `p` first occurring after `c` and
      `line` one line, the rest of the line after `p` is `line`. */
  lemma LineAfterParts(a: string, h: string, s: string, c: char, p: string, line: string, text: string)
    requires text == a + (h + (s + ([c] + (p + line))))
    requires p != [] && p[0] !in a && p[0] !in h && c !in p && !Contains(s, p)
    requires SingleLine(line)
    ensures LineAfter(text, p).Some? && LineAfter(text, p).value == line
  {
    assert (p + line)[..|p|] == p;
    FindAfterParts(a, h, s, c, p + line, p, text);
    TailOfParts(a, h, s, c, p, line, text);
    WholeLine(line);
  }

  /** What follows the last part but one of a nested concatenation. */
  lemma TailOfParts(a: string, h: string, s: string, c: char, p: string, line: string, text: string)
    requires text == a + (h + (s + ([c] + (p + line))))
    ensures text[|a| + |h| + |s| + 1 + |p|..] == line
  {
    var n := |a| + |h| + |s| + 1 + |p|;
    assert |text| == n + |line|;
    forall i | 0 <= i < |line|
      ensures text[n + i] == line[i]
    {
    }
  }

  /** A single line is its own first line. */
  lemma WholeLine(line: string)
    requires SingleLine(line)
    ensures line[..LineLength(line)] == line
  {
  }

  /** Splitting a list joined with `c` and the whitespace `d` at `c`, and
      trimming the pieces, gives the list back when its items are trimmed and
      hold no `c`. */
  lemma SplitJoinTrimmed(xs: seq<string>, c: char, d: char)
    requires xs != [] && c != d && IsWhitespace(d)
    requires forall k :: 0 <= k < |xs| ==> c !in xs[k] && Trim(xs[k]) == xs[k]
    ensures TrimAll(Split(Join(xs, [c, d]), [c])) == xs
  {
    SplitJoinShape(xs, c, d);
    TrimPadded(xs, Split(Join(xs, [c, d]), [c]), d);
  }

  /** The pieces of a list joined with `c` and `d`, split at `c`. */
  lemma SplitJoinShape(xs: seq<string>, c: char, d: char)
    requires xs != [] && c != d
    requires forall k :: 0 <= k < |xs| ==> c !in xs[k]
    ensures var parts := Split(Join(xs, [c, d]), [c]);
      && |parts| == |xs| && parts[0] == xs[0]
      && forall k :: 0 < k < |xs| ==> parts[k] == [d] + xs[k]
  {
    assert [c, d] == [c] + [d];
    SplitJoinAt([], xs, c, [d]);
    assert [] + Join(xs, [c, d]) == Join(xs, [c, d]);
    assert [] + xs[0] == xs[0];
  }

  lemma PrefixOfAppend(p: string, x: string, y: string)
    ensures StartsWith((p + x) + y, p)
  {
    assert ((p + x) + y)[..|p|] == p;
  }
}

/** The scan history page (pages/HistoryPage.tsx): the trust label of a
    score, the icon of a file type, and the list the page shows, which is
    the scan list narrowed by a file-type choice and a case-insensitive
    search in the summaries. The page never changes the scan list itself:
    it is held without a setter, so here it is only ever an input. */
module History {
  import opened JsString
  import opened Types
  import opened Collections

  datatype TrustLabel = Trustworthy | Uncertain | Suspicious

  /** Rank of a label, most trusted highest. */
  function TrustRank(l: TrustLabel): nat {
    match l
    case Suspicious => 0
    case Uncertain => 1
    case Trustworthy => 2
  }

  /** `getTrustInfo(score).label`. */
  function TrustInfo(score: real): (l: TrustLabel)
    ensures l == Trustworthy <==> score >= 70.0
    ensures l == Uncertain <==> 40.0 <= score < 70.0
    ensures l == Suspicious <==> score < 40.0
  {
    if score >= 70.0 then Trustworthy else if score >= 40.0 then Uncertain else Suspicious
  }

  /** A higher score never gets a less trusted label. */
  lemma TrustInfoMonotone(a: real, b: real)
    requires a <= b
    ensures TrustRank(TrustInfo(a)) <= TrustRank(TrustInfo(b))
  {
  }

  datatype FileIcon = ImageIcon | VideoIcon | AudioIcon

  /** `getFileInfo(type).Icon`; the grey fallback of the page is for a file
      type outside the three, which a scan record cannot carry. */
  function FileInfo(t: FileType): (i: FileIcon)
    ensures (i == ImageIcon) == (t == Image)
    ensures (i == VideoIcon) == (t == Video)
    ensures (i == AudioIcon) == (t == Audio)
  {
    match t
    case Image => ImageIcon
    case Video => VideoIcon
    case Audio => AudioIcon
  }

  /** The first filter: `filterType === 'all' || scan.file_type === filterType`. */
  predicate TypeMatches(filterType: string, scan: ScanResult) {
    filterType == "all" || FileTypeName(scan.fileType) == filterType
  }

  /** The second filter: the lower-cased summary includes the lower-cased term. */
  predicate SummaryMatches(searchTerm: string, scan: ScanResult) {
    Contains(ToLower(scan.summary), ToLower(searchTerm))
  }

  /** The `filteredScans` memo: the type filter, then the search filter. */
  function FilteredScans(scans: seq<ScanResult>, searchTerm: string, filterType: string): seq<ScanResult> {
    Filter(Filter(scans, s => TypeMatches(filterType, s)), s => SummaryMatches(searchTerm, s))
  }

  /** The shown scans are exactly the scans that pass both filters, in
      their original order. */
  lemma FilteredScansSpec(scans: seq<ScanResult>, searchTerm: string, filterType: string)
    ensures IsSubsequence(FilteredScans(scans, searchTerm, filterType), scans)
    ensures forall s :: s in FilteredScans(scans, searchTerm, filterType) <==>
      s in scans && TypeMatches(filterType, s) && SummaryMatches(searchTerm, s)
  {
    var p := s => TypeMatches(filterType, s);
    var q := s => SummaryMatches(searchTerm, s);
    FilterFuse(scans, p, q);
    FilterSubsequence(scans, Both(p, q));
    forall s ensures s in FilteredScans(scans, searchTerm, filterType) <==>
      s in scans && TypeMatches(filterType, s) && SummaryMatches(searchTerm, s)
    {
      FilterMembers(scans, Both(p, q), s);
    }
  }

  /** A shown scan appears as often as it does in the history: repeated
      records are neither merged nor dropped. */
  lemma FilteredScansCount(scans: seq<ScanResult>, searchTerm: string, filterType: string, s: ScanResult)
    ensures multiset(FilteredScans(scans, searchTerm, filterType))[s] ==
      (if TypeMatches(filterType, s) && SummaryMatches(searchTerm, s) then multiset(scans)[s] else 0)
  {
    var p := s => TypeMatches(filterType, s);
    var q := s => SummaryMatches(searchTerm, s);
    FilterCount(scans, p, s);
    FilterCount(Filter(scans, p), q, s);
  }

  /** Filtering the shown list again with the same settings shows the same list. */
  lemma FilteredScansIdempotent(scans: seq<ScanResult>, searchTerm: string, filterType: string)
    ensures FilteredScans(FilteredScans(scans, searchTerm, filterType), searchTerm, filterType)
      == FilteredScans(scans, searchTerm, filterType)
  {
    var p := s => TypeMatches(filterType, s);
    var q := s => SummaryMatches(searchTerm, s);
    var shown := FilteredScans(scans, searchTerm, filterType);
    FilterFuse(scans, p, q);
    FilterFuse(shown, p, q);
    FilterIdempotent(scans, Both(p, q));
  }

  /** With the initial settings (type 'all', empty search) every scan is shown. */
  lemma InitialSettingsShowAll(scans: seq<ScanResult>)
    ensures FilteredScans(scans, "", "all") == scans
  {
    var p := s => TypeMatches("all", s);
    var q := s => SummaryMatches("", s);
    FilterAll(scans, p);
    forall k | 0 <= k < |scans| ensures q(scans[k]) {
      ContainsEmpty(ToLower(scans[k].summary));
    }
    FilterAll(scans, q);
  }

  /** A type other than 'all' keeps only scans of that type, and an empty
      search term keeps every scan the type filter keeps. */
  lemma FilterByTypeOnly(scans: seq<ScanResult>, t: FileType)
    ensures forall s :: s in FilteredScans(scans, "", FileTypeName(t)) <==> s in scans && s.fileType == t
  {
    FilteredScansSpec(scans, "", FileTypeName(t));
    forall s | s in scans ensures SummaryMatches("", s) {
      ContainsEmpty(ToLower(s.summary));
    }
  }
}

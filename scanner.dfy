/** The media scanner page (pages/ScannerPage.tsx): how a picked file is
    classified by its MIME type, the stub result audio files get, how a
    result is labelled on screen, and the page state (`selectedFile`,
    `scanResult`, `isScanning`, `error`) that the file picker, the scan
    button and the reset button update. Reading the file as base64, the
    object URL, the clock and the AI request are inputs. */
module Scanner {
  import opened Options
  import opened JsString
  import opened Types
  import opened Gemini

  /** A picked file: its MIME type, and the object URL the browser gives it. */
  datatype PickedFile = PickedFile(mimeType: string, objectUrl: string)

  /** The kind a scan treats the file as. */
  function FileKind(mimeType: string): (t: FileType)
    ensures t == Image <==> StartsWith(mimeType, "image/")
    ensures t == Video <==> !StartsWith(mimeType, "image/") && StartsWith(mimeType, "video/")
    ensures t == Audio <==> !StartsWith(mimeType, "image/") && !StartsWith(mimeType, "video/")
  {
    if StartsWith(mimeType, "image/") then Image
    else if StartsWith(mimeType, "video/") then Video
    else Audio
  }

  /** `s.charAt(0).toUpperCase() + s.slice(1)` on an ASCII word. */
  function Capitalized(s: string): (r: string)
    ensures |r| == |s|
    ensures s != [] ==> r[1..] == s[1..]
    ensures s != [] && 'a' <= s[0] <= 'z' ==> r[0] as int == s[0] as int - 32 && 'A' <= r[0] <= 'Z'
    ensures s != [] && !('a' <= s[0] <= 'z') ==> r[0] == s[0]
  {
    if s == [] then []
    else if 'a' <= s[0] <= 'z' then [(s[0] as int - 'a' as int + 'A' as int) as char] + s[1..]
    else s
  }

  const UnderDevelopment := " scanning is currently under development. This feature will be available soon with advanced detection capabilities."
  const ComingSoon := " Analysis Coming Soon"

  /** The result an audio file gets without any request: its texts start
      with the capitalised file type. */
  function AudioStub(id: string, createdDate: string, fileUrl: string): ScanResult {
    var name := Capitalized(FileTypeName(Audio));
    ScanResult(id, createdDate, fileUrl, Audio, 0.0, name + UnderDevelopment, None, None, Some([name + ComingSoon]))
  }

  /** The stub result: trust score 0, no verdict, the single artifact
      "Audio Analysis Coming Soon". */
  lemma AudioStubContents(id: string, createdDate: string, fileUrl: string)
    ensures AudioStub(id, createdDate, fileUrl).trustScore == 0.0
    ensures AudioStub(id, createdDate, fileUrl).verdict.None?
    ensures AudioStub(id, createdDate, fileUrl).artifactsDetected == Some(["Audio" + ComingSoon])
    ensures AudioStub(id, createdDate, fileUrl).summary == "Audio" + UnderDevelopment
  {
    CapitalizedAudio();
  }

  lemma CapitalizedAudio()
    ensures Capitalized(FileTypeName(Audio)) == "Audio"
  {
    assert Capitalized("audio") == ['A'] + "udio";
  }

  /** A scan result built from an image or video analysis (`...analysis`). */
  function Analysed(id: string, createdDate: string, fileUrl: string, kind: FileType, a: ForensicReport): ScanResult {
    ScanResult(id, createdDate, fileUrl, kind, a.trustScore, a.summary, a.verdict, a.detailedFindings, None)
  }

  const ScanFailure := "Failed to analyze the file. Please try again."

  /** `err.message || "Failed to analyze the file. Please try again."`: an
      error without a message (such as a file reader error event) shows the
      default text. */
  function ErrorText(message: string): (r: string)
    ensures r != ""
    ensures message != "" ==> r == message
  {
    if message == "" then ScanFailure else message
  }

  /** What scanning `file` produces: the audio stub without any request;
      otherwise the file is read as base64 (`read`, which may fail) and
      analysed (`reply`). `id`, `createdDate` stand for the clock. */
  function ScanOutcome(file: PickedFile, apiKey: string, read: Result<string>, reply: Reply<ForensicReport>,
                       id: string, createdDate: string): (r: Result<ScanResult>)
  {
    var kind := FileKind(file.mimeType);
    if kind == Audio then Ok(AudioStub(id, createdDate, file.objectUrl))
    else if read.Err? then Err(read.message)
    else
      var analysis := if kind == Image then AnalyzeImage(apiKey, reply) else AnalyzeVideo(apiKey, reply);
      match analysis
      case Err(m) => Err(m)
      case Ok(a) => Ok(Analysed(id, createdDate, file.objectUrl, kind, a))
  }

  /** An audio file is never sent anywhere: it gets the stub whatever the
      key, the file reading and the reply. */
  lemma AudioIgnoresService(file: PickedFile, apiKey: string, read: Result<string>, reply: Reply<ForensicReport>,
                            id: string, createdDate: string)
    requires !StartsWith(file.mimeType, "image/") && !StartsWith(file.mimeType, "video/")
    ensures ScanOutcome(file, apiKey, read, reply, id, createdDate) == Ok(AudioStub(id, createdDate, file.objectUrl))
  {
  }

  /** An image or a video read successfully is analysed: without a key
      the configuration error is the outcome; a failed request gives the
      kind's own message; a reply becomes a result of that kind carrying
      the reply's fields. */
  lemma MediaOutcome(file: PickedFile, apiKey: string, data: string, reply: Reply<ForensicReport>,
                     id: string, createdDate: string)
    requires FileKind(file.mimeType) != Audio
    ensures var r := ScanOutcome(file, apiKey, Ok(data), reply, id, createdDate);
      && (apiKey == "" ==> r == Err(ConfigError))
      && (apiKey != "" && reply.Failed? ==>
            r == Err(if FileKind(file.mimeType) == Image then ImageFailure else VideoFailure))
      && (apiKey != "" && reply.Replied? ==>
            r.Ok? && r.value.fileType == FileKind(file.mimeType) && r.value.verdict == reply.value.verdict
            && r.value.trustScore == reply.value.trustScore && r.value.summary == reply.value.summary)
  {
  }

  /** A file that cannot be read fails with the reader's message and no
      request. */
  lemma UnreadableMedia(file: PickedFile, apiKey: string, message: string, reply: Reply<ForensicReport>,
                        id: string, createdDate: string)
    requires FileKind(file.mimeType) != Audio
    ensures ScanOutcome(file, apiKey, Err(message), reply, id, createdDate) == Err(message)
  {
  }

  /** `verdictInfoMap` keys: the four titles a result can be shown under. */
  function VerdictTitle(v: ScanVerdict): string {
    match v
    case LikelyAuthentic => "Likely Authentic"
    case PotentiallyManipulated => "Potentially Manipulated"
    case LikelyAiGenerated => "Likely AI-Generated"
    case HighConfidenceAiGenerated => "High Confidence AI"
  }

  /** `getGeneralTrustInfo`: the verdict shown for a bare trust score. */
  function GeneralTrustInfo(score: real): (v: ScanVerdict)
    ensures v == LikelyAuthentic <==> score >= 70.0
    ensures v == PotentiallyManipulated <==> 40.0 <= score < 70.0
    ensures v == LikelyAiGenerated <==> score < 40.0
  {
    if score >= 70.0 then LikelyAuthentic
    else if score >= 40.0 then PotentiallyManipulated
    else LikelyAiGenerated
  }

  /** `isDetailedAnalysis`: an image or video result that carries a verdict. */
  predicate IsDetailedAnalysis(r: ScanResult) {
    (r.fileType == Image || r.fileType == Video) && r.verdict.Some?
  }

  /** The verdict the result card shows: the returned verdict for a
      detailed analysis, otherwise the one the trust score gives. */
  function ShownVerdict(r: ScanResult): (v: ScanVerdict)
    ensures IsDetailedAnalysis(r) ==> v == r.verdict.value
    ensures !IsDetailedAnalysis(r) ==> v == GeneralTrustInfo(r.trustScore)
  {
    if IsDetailedAnalysis(r) then r.verdict.value else GeneralTrustInfo(r.trustScore)
  }

  /** The bare score never yields the high-confidence title: only a
      returned verdict can show it. */
  lemma HighConfidenceOnlyDetailed(r: ScanResult)
    requires ShownVerdict(r) == HighConfidenceAiGenerated
    ensures IsDetailedAnalysis(r) && r.verdict == Some(HighConfidenceAiGenerated)
  {
  }

  /** An audio result is never a detailed analysis, so the stub, with its
      score of 0, is shown under "Likely AI-Generated". */
  lemma AudioStubShown(id: string, createdDate: string, fileUrl: string)
    ensures !IsDetailedAnalysis(AudioStub(id, createdDate, fileUrl))
    ensures VerdictTitle(ShownVerdict(AudioStub(id, createdDate, fileUrl))) == "Likely AI-Generated"
  {
  }

  /** The page's state. */
  class ScannerPage {
    var selectedFile: Option<PickedFile>
    var scanResult: Option<ScanResult>
    var isScanning: bool
    var error: Option<string>

    constructor ()
      ensures selectedFile.None? && scanResult.None? && !isScanning && error.None?
    {
      selectedFile := None;
      scanResult := None;
      isScanning := false;
      error := None;
    }

    /** `handleFileSelect`: picking or clearing a file also clears the
        error and the previous result. */
    method HandleFileSelect(file: Option<PickedFile>)
      modifies this
      ensures selectedFile == file && scanResult.None? && error.None?
      ensures isScanning == old(isScanning)
    {
      selectedFile := file;
      error := None;
      scanResult := None;
    }

    /** `handleScan`: nothing without a selected file; otherwise the
        outcome is stored (a result, or the error text), a failure keeps
        whatever result was there, and the scanning flag ends false. */
    method HandleScan(apiKey: string, read: Result<string>, reply: Reply<ForensicReport>, id: string, createdDate: string)
      modifies this
      ensures old(selectedFile).None? ==>
        selectedFile == old(selectedFile) && scanResult == old(scanResult)
        && isScanning == old(isScanning) && error == old(error)
      ensures old(selectedFile).Some? ==>
        var outcome := ScanOutcome(old(selectedFile).value, apiKey, read, reply, id, createdDate);
        && selectedFile == old(selectedFile) && !isScanning
        && (outcome.Ok? ==> scanResult == Some(outcome.value) && error.None?)
        && (outcome.Err? ==> scanResult == old(scanResult) && error == Some(ErrorText(outcome.message)))
    {
      if selectedFile.None? {
        return;
      }
      var file := selectedFile.value;
      ghost var outcome := ScanOutcome(file, apiKey, read, reply, id, createdDate);
      isScanning := true;
      error := None;
      var kind := FileKind(file.mimeType);
      if kind == Audio {
        scanResult := Some(AudioStub(id, createdDate, file.objectUrl));
        assert outcome == Ok(AudioStub(id, createdDate, file.objectUrl));
      } else if read.Err? {
        error := Some(ErrorText(read.message));
        assert outcome == Err(read.message);
      } else {
        var analysis := if kind == Image then AnalyzeImage(apiKey, reply) else AnalyzeVideo(apiKey, reply);
        match analysis
        case Err(m) =>
          error := Some(ErrorText(m));
          assert outcome == Err(m);
        case Ok(a) =>
          scanResult := Some(Analysed(id, createdDate, file.objectUrl, kind, a));
          assert outcome == Ok(Analysed(id, createdDate, file.objectUrl, kind, a));
      }
      isScanning := false;
    }

    /** `resetScan`: clears the file, the result and the error. */
    method ResetScan()
      modifies this
      ensures selectedFile.None? && scanResult.None? && error.None?
      ensures isScanning == old(isScanning)
    {
      selectedFile := None;
      scanResult := None;
      error := None;
    }
  }
}

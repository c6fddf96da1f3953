/** The records and enumerations shared by the pages and services
    (types.ts). String-literal unions become enumerations; optional
    properties become `Option`s; JavaScript numbers that only ever hold
    integers (points, levels, streaks) are `int`, and the scores an AI reply
    carries are `real`. */
module Types {
  import opened Options

  datatype AgeGroup = Kids | Teens | Adults

  datatype Language = En | Ar

  function AgeGroupName(a: AgeGroup): string {
    match a
    case Kids => "kids"
    case Teens => "teens"
    case Adults => "adults"
  }

  function AgeGroupOf(s: string): (r: Option<AgeGroup>)
    ensures r.Some? ==> AgeGroupName(r.value) == s
  {
    if s == "kids" then Some(Kids)
    else if s == "teens" then Some(Teens)
    else if s == "adults" then Some(Adults)
    else None
  }

  function LanguageCode(l: Language): string {
    match l
    case En => "en"
    case Ar => "ar"
  }

  function LanguageOf(s: string): (r: Option<Language>)
    ensures r.Some? ==> LanguageCode(r.value) == s
  {
    if s == "en" then Some(En) else if s == "ar" then Some(Ar) else None
  }

  lemma AgeGroupRoundTrip(a: AgeGroup)
    ensures AgeGroupOf(AgeGroupName(a)) == Some(a)
  {
  }

  lemma LanguageRoundTrip(l: Language)
    ensures LanguageOf(LanguageCode(l)) == Some(l)
  {
  }

  datatype LearningProgress = LearningProgress(currentStreak: int)

  datatype User = User(
    fullName: string,
    email: string,
    level: int,
    totalPoints: int,
    ageGroup: AgeGroup,
    preferredLanguage: Language,
    learningProgress: Option<LearningProgress>,
    badges: Option<seq<string>>,
    profilePhotoBase64: Option<string>)

  datatype FindingCategory =
    | AnatomyAndProportions | LightingAndShadows | BackgroundAndEnvironment
    | TextureAndDetail | AiArtifacts | FacialAndSpeechAnalysis
    | SceneAndObjectConsistency | AudioVisualSync | CompressionAndArtifacts | OtherCategory

  datatype Severity = Low | Medium | High

  datatype DetailedFinding = DetailedFinding(category: FindingCategory, finding: string, severity: Severity)

  datatype FileType = Image | Video | Audio

  /** The `file_type` string a scan record carries. */
  function FileTypeName(t: FileType): string {
    match t
    case Image => "image"
    case Video => "video"
    case Audio => "audio"
  }

  datatype ScanVerdict =
    | LikelyAuthentic | PotentiallyManipulated | LikelyAiGenerated | HighConfidenceAiGenerated

  /** A media scan record; `processing_time` (a wall-clock measurement) is
      not part of the model. */
  datatype ScanResult = ScanResult(
    id: string,
    createdDate: string,
    fileUrl: string,
    fileType: FileType,
    trustScore: real,
    summary: string,
    verdict: Option<ScanVerdict>,
    detailedFindings: Option<seq<DetailedFinding>>,
    artifactsDetected: Option<seq<string>>)

  datatype QuizQuestion = QuizQuestion(question: string, options: seq<string>, correctAnswer: string, explanation: string)

  datatype ModuleType = Game | Lesson | Challenge

  datatype Difficulty = Beginner | Intermediate | Advanced

  /** A node of the learning path; the icon component is not part of the model. */
  datatype LearningModule = LearningModule(
    id: string,
    title: string,
    description: string,
    moduleType: ModuleType,
    ageGroup: AgeGroup,
    difficulty: Option<Difficulty>,
    estimatedDuration: Option<int>,
    pointsReward: Option<int>,
    locked: Option<bool>,
    content: Option<string>,
    quiz: Option<seq<QuizQuestion>>)

  /** What the module cache keeps per module: `Pick<LearningModule, 'content' | 'quiz'>`. */
  datatype CachedContent = CachedContent(content: Option<string>, quiz: Option<seq<QuizQuestion>>)

  datatype GroundingSource = GroundingSource(uri: string, title: string)

  datatype UrlVerdict = Safe | Caution | Dangerous | Unknown

  datatype UrlAnalysisResult = UrlAnalysisResult(
    verdict: UrlVerdict,
    summary: string,
    threatsFound: seq<string>,
    sources: seq<GroundingSource>)

  datatype NewsVerdict = LikelyFactual | Misleading | PotentiallyFalse | Unverifiable

  datatype NewsVerificationResult = NewsVerificationResult(
    verdict: NewsVerdict,
    credibilityScore: real,
    summary: string,
    keyFindings: seq<string>,
    detectedBiases: seq<string>)

  /** The five password tiers, weakest first. */
  datatype PasswordVerdict = VeryWeak | Weak | Moderate | Strong | VeryStrong

  datatype PasswordAnalysisResult = PasswordAnalysisResult(
    score: int,
    verdict: PasswordVerdict,
    enhancements: seq<string>,
    positivePoints: seq<string>)
}

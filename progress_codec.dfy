/** How the progress store's four aggregates are written to and read back
    from their JSON form (hooks/useUserProgress.ts). Writing follows
    `JSON.stringify` on the records of types.ts: properties in declaration
    order, optional ones left out when absent. Reading accepts any property
    order and turns a value of the wrong shape into a failure, on which the
    store falls back to its initial value. The hook itself checks no shape:
    it uses whatever `JSON.parse` returns, so the two agree on the values
    the store writes (Progress.Reload) and differ on foreign ones (see
    README, "Left out"). */
module ProgressCodec {
  import opened Options
  import opened Json
  import opened Types
  import opened Collections

  // ---------------------------------------------------------------------
  // Object properties
  // ---------------------------------------------------------------------

  predicate DistinctKeys(ms: seq<Member>) {
    forall i, j :: 0 <= i < j < |ms| ==> ms[i].key != ms[j].key
  }

  /** In an object whose keys are distinct, each key gives its own value. */
  lemma {:induction false} GetDistinct(ms: seq<Member>, i: int)
    requires DistinctKeys(ms) && 0 <= i < |ms|
    ensures Get(ms, ms[i].key) == Some(ms[i].value)
  {
    var last := |ms| - 1;
    if i < last {
      assert ms[last].key != ms[i].key;
      var init := ms[..last];
      assert init[i] == ms[i];
      assert DistinctKeys(init) by {
        forall a, b | 0 <= a < b < |init| ensures init[a].key != init[b].key {
          assert init[a] == ms[a] && init[b] == ms[b];
        }
      }
      GetDistinct(init, i);
    }
  }

  /** A key no member has is not found. */
  lemma {:induction false} GetAbsent(ms: seq<Member>, key: string)
    requires forall i :: 0 <= i < |ms| ==> ms[i].key != key
    ensures Get(ms, key) == None
  {
    if ms != [] {
      var init := ms[..|ms| - 1];
      assert forall i :: 0 <= i < |init| ==> init[i] == ms[i];
      GetAbsent(init, key);
    }
  }

  /** An optional property written after the others shadows only its own key. */
  lemma GetOpt(ms: seq<Member>, k: string, v: Option<Json>, key: string)
    ensures Get(ms + OptMember(k, v), key) ==
      if v.Some? && k == key then v else Get(ms, key)
  {
    if v.Some? {
      assert (ms + OptMember(k, v))[..|ms|] == ms;
    } else {
      assert ms + OptMember(k, v) == ms;
    }
  }

  function StrField(ms: seq<Member>, key: string): Option<string> {
    match Get(ms, key)
    case Some(Str(s)) => Some(s)
    case _ => None
  }

  function IntField(ms: seq<Member>, key: string): Option<int> {
    match Get(ms, key)
    case Some(Num(n)) => Some(n)
    case _ => None
  }

  function Strings(items: seq<Json>): (r: Option<seq<string>>)
    ensures r.Some? ==> |r.value| == |items|
  {
    if items == [] then Some([])
    else
      match (items[0], Strings(items[1..]))
      case (Str(s), Some(rest)) => Some([s] + rest)
      case _ => None
  }

  function StrArray(ss: seq<string>): (j: Json)
    ensures j.Arr? && |j.items| == |ss|
  {
    Arr(seq(|ss|, i requires 0 <= i < |ss| => Str(ss[i])))
  }

  lemma {:induction false} StringsOfStrArray(ss: seq<string>)
    ensures Strings(StrArray(ss).items) == Some(ss)
  {
    if ss != [] {
      StringsOfStrArray(ss[1..]);
      assert StrArray(ss).items[1..] == StrArray(ss[1..]).items;
      assert [ss[0]] + ss[1..] == ss;
    }
  }

  /** A string array read from a property, if it is one. */
  function StrArrayOf(j: Json): Option<seq<string>> {
    if j.Arr? then Strings(j.items) else None
  }

  /** An optional property: absent reads as `Some(None)`, a present value
      that decodes as `Some(Some(v))`, a present value of the wrong shape as
      a failure. */
  function OptStrArray(ms: seq<Member>, key: string): Option<Option<seq<string>>> {
    match Get(ms, key)
    case None => Some(None)
    case Some(j) =>
      match StrArrayOf(j)
      case None => None
      case Some(ss) => Some(Some(ss))
  }

  function OptStr(ms: seq<Member>, key: string): Option<Option<string>> {
    match Get(ms, key)
    case None => Some(None)
    case Some(Str(s)) => Some(Some(s))
    case Some(_) => None
  }

  function OptMember(key: string, v: Option<Json>): seq<Member> {
    if v.Some? then [Member(key, v.value)] else []
  }

  // ---------------------------------------------------------------------
  // User
  // ---------------------------------------------------------------------

  /** The properties every user has, in declaration order. */
  function UserBase(u: User): seq<Member> {
    [ Member("full_name", Str(u.fullName)),
      Member("email", Str(u.email)),
      Member("level", Num(u.level)),
      Member("total_points", Num(u.totalPoints)),
      Member("age_group", Str(AgeGroupName(u.ageGroup))),
      Member("preferred_language", Str(LanguageCode(u.preferredLanguage))) ]
  }

  function ProgressJson(u: User): Option<Json> {
    if u.learningProgress.Some? then Some(Obj([Member("current_streak", Num(u.learningProgress.value.currentStreak))])) else None
  }

  function BadgesJson(u: User): Option<Json> {
    if u.badges.Some? then Some(StrArray(u.badges.value)) else None
  }

  function PhotoJson(u: User): Option<Json> {
    if u.profilePhotoBase64.Some? then Some(Str(u.profilePhotoBase64.value)) else None
  }

  function UserMembers(u: User): seq<Member> {
    UserBase(u)
    + OptMember("learning_progress", ProgressJson(u))
    + OptMember("badges", BadgesJson(u))
    + OptMember("profile_photo_base64", PhotoJson(u))
  }

  /** `JSON.stringify(user)`, as a value. */
  function EncodeUser(u: User): Json {
    Obj(UserMembers(u))
  }

  function OptProgress(ms: seq<Member>): Option<Option<LearningProgress>> {
    match Get(ms, "learning_progress")
    case None => Some(None)
    case Some(Obj(ps)) =>
      (match IntField(ps, "current_streak")
       case Some(n) => Some(Some(LearningProgress(n)))
       case None => None)
    case Some(_) => None
  }

  /** Reads a user back; `None` when a required property is missing or any
      property has the wrong shape. */
  function DecodeUser(j: Json): Option<User> {
    if !j.Obj? then None
    else
      var ms := j.members;
      var name := StrField(ms, "full_name");
      var email := StrField(ms, "email");
      var level := IntField(ms, "level");
      var points := IntField(ms, "total_points");
      var age := if StrField(ms, "age_group").Some? then AgeGroupOf(StrField(ms, "age_group").value) else None;
      var lang := if StrField(ms, "preferred_language").Some? then LanguageOf(StrField(ms, "preferred_language").value) else None;
      var progress := OptProgress(ms);
      var badges := OptStrArray(ms, "badges");
      var photo := OptStr(ms, "profile_photo_base64");
      if name.None? || email.None? || level.None? || points.None? || age.None? || lang.None?
         || progress.None? || badges.None? || photo.None? then None
      else
        Some(User(name.value, email.value, level.value, points.value, age.value, lang.value,
                  progress.value, badges.value, photo.value))
  }

  /** Looking up a key in the written user: the optional properties come
      last and shadow only their own keys. */
  lemma UserGet(u: User, key: string)
    ensures Get(UserMembers(u), key) ==
      if key == "profile_photo_base64" && u.profilePhotoBase64.Some? then PhotoJson(u)
      else if key == "badges" && u.badges.Some? then BadgesJson(u)
      else if key == "learning_progress" && u.learningProgress.Some? then ProgressJson(u)
      else Get(UserBase(u), key)
  {
    var ms1 := UserBase(u) + OptMember("learning_progress", ProgressJson(u));
    var ms2 := ms1 + OptMember("badges", BadgesJson(u));
    GetOpt(ms2, "profile_photo_base64", PhotoJson(u), key);
    GetOpt(ms1, "badges", BadgesJson(u), key);
    GetOpt(UserBase(u), "learning_progress", ProgressJson(u), key);
  }

  lemma UserBaseDistinct(u: User)
    ensures DistinctKeys(UserBase(u))
  {
  }

  /** Each property every user has is read back from the written user. */
  lemma UserBaseField(u: User, i: int)
    requires 0 <= i < 6
    ensures Get(UserMembers(u), UserBase(u)[i].key) == Some(UserBase(u)[i].value)
  {
    var base := UserBase(u);
    UserBaseDistinct(u);
    GetDistinct(base, i);
    UserGet(u, base[i].key);
  }

  lemma UserRequiredFields(u: User)
    ensures var ms := UserMembers(u);
      && StrField(ms, "full_name") == Some(u.fullName)
      && StrField(ms, "email") == Some(u.email)
      && IntField(ms, "level") == Some(u.level)
      && IntField(ms, "total_points") == Some(u.totalPoints)
      && StrField(ms, "age_group") == Some(AgeGroupName(u.ageGroup))
      && StrField(ms, "preferred_language") == Some(LanguageCode(u.preferredLanguage))
  {
    UserBaseField(u, 0);
    UserBaseField(u, 1);
    UserBaseField(u, 2);
    UserBaseField(u, 3);
    UserBaseField(u, 4);
    UserBaseField(u, 5);
  }

  lemma UserOptionalFields(u: User)
    ensures var ms := UserMembers(u);
      && OptProgress(ms) == Some(u.learningProgress)
      && OptStrArray(ms, "badges") == Some(u.badges)
      && OptStr(ms, "profile_photo_base64") == Some(u.profilePhotoBase64)
  {
    var base := UserBase(u);
    UserGet(u, "learning_progress");
    UserGet(u, "badges");
    UserGet(u, "profile_photo_base64");
    GetAbsent(base, "learning_progress");
    GetAbsent(base, "badges");
    GetAbsent(base, "profile_photo_base64");
    if u.badges.Some? {
      StringsOfStrArray(u.badges.value);
    }
  }

  /** A user written by the store is read back unchanged. */
  lemma UserRoundTrip(u: User)
    ensures DecodeUser(EncodeUser(u)) == Some(u)
  {
    UserRequiredFields(u);
    UserOptionalFields(u);
    AgeGroupRoundTrip(u.ageGroup);
    LanguageRoundTrip(u.preferredLanguage);
  }

  // ---------------------------------------------------------------------
  // Statistics
  // ---------------------------------------------------------------------

  /** The dashboard figures the store keeps next to the user. */
  datatype Stats = Stats(totalScans: int, averageTrustScore: int)

  function StatsMembers(s: Stats): seq<Member> {
    [Member("totalScans", Num(s.totalScans)), Member("averageTrustScore", Num(s.averageTrustScore))]
  }

  function EncodeStats(s: Stats): Json {
    Obj(StatsMembers(s))
  }

  function DecodeStats(j: Json): Option<Stats> {
    if !j.Obj? then None
    else
      match (IntField(j.members, "totalScans"), IntField(j.members, "averageTrustScore"))
      case (Some(n), Some(a)) => Some(Stats(n, a))
      case _ => None
  }

  lemma StatsRoundTrip(s: Stats)
    ensures DecodeStats(EncodeStats(s)) == Some(s)
  {
    GetDistinct(StatsMembers(s), 0);
    GetDistinct(StatsMembers(s), 1);
  }

  // ---------------------------------------------------------------------
  // Completed modules
  // ---------------------------------------------------------------------

  /** `JSON.stringify(Array.from(completed))`, as a value. */
  function EncodeCompleted(c: seq<string>): Json {
    StrArray(c)
  }

  /** `new Set(array)` on a stored array of module ids. */
  function DecodeCompleted(j: Json): (r: Option<seq<string>>)
    ensures r.Some? ==> NoDups(r.value)
  {
    match StrArrayOf(j)
    case Some(ss) => Some(Dedup(ss))
    case None => None
  }

  /** A set of completed modules is read back with the same members in the
      same order. */
  lemma CompletedRoundTrip(c: seq<string>)
    requires NoDups(c)
    ensures DecodeCompleted(EncodeCompleted(c)) == Some(c)
  {
    StringsOfStrArray(c);
    DedupNoDups(c);
  }

  // ---------------------------------------------------------------------
  // Quiz questions and cached lesson content
  // ---------------------------------------------------------------------

  function QuestionMembers(q: QuizQuestion): seq<Member> {
    [ Member("question", Str(q.question)),
      Member("options", StrArray(q.options)),
      Member("correct_answer", Str(q.correctAnswer)),
      Member("explanation", Str(q.explanation)) ]
  }

  function EncodeQuestion(q: QuizQuestion): Json {
    Obj(QuestionMembers(q))
  }

  function DecodeQuestion(j: Json): Option<QuizQuestion> {
    if !j.Obj? then None
    else
      var ms := j.members;
      var options := if Get(ms, "options").Some? then StrArrayOf(Get(ms, "options").value) else None;
      match (StrField(ms, "question"), options, StrField(ms, "correct_answer"), StrField(ms, "explanation"))
      case (Some(q), Some(os), Some(c), Some(e)) => Some(QuizQuestion(q, os, c, e))
      case _ => None
  }

  lemma QuestionRoundTrip(q: QuizQuestion)
    ensures DecodeQuestion(EncodeQuestion(q)) == Some(q)
  {
    var ms := QuestionMembers(q);
    GetDistinct(ms, 0);
    GetDistinct(ms, 1);
    GetDistinct(ms, 2);
    GetDistinct(ms, 3);
    StringsOfStrArray(q.options);
  }

  function EncodeQuiz(qs: seq<QuizQuestion>): (j: Json)
    ensures j.Arr? && |j.items| == |qs|
  {
    Arr(seq(|qs|, i requires 0 <= i < |qs| => EncodeQuestion(qs[i])))
  }

  function Questions(items: seq<Json>): (r: Option<seq<QuizQuestion>>)
    ensures r.Some? ==> |r.value| == |items|
  {
    if items == [] then Some([])
    else
      match (DecodeQuestion(items[0]), Questions(items[1..]))
      case (Some(q), Some(rest)) => Some([q] + rest)
      case _ => None
  }

  lemma {:induction false} QuestionsOfQuiz(qs: seq<QuizQuestion>)
    ensures Questions(EncodeQuiz(qs).items) == Some(qs)
  {
    if qs != [] {
      QuestionRoundTrip(qs[0]);
      QuestionsOfQuiz(qs[1..]);
      assert EncodeQuiz(qs).items[1..] == EncodeQuiz(qs[1..]).items;
      assert [qs[0]] + qs[1..] == qs;
    }
  }

  function ContentJson(d: CachedContent): Option<Json> {
    if d.content.Some? then Some(Str(d.content.value)) else None
  }

  function QuizJson(d: CachedContent): Option<Json> {
    if d.quiz.Some? then Some(EncodeQuiz(d.quiz.value)) else None
  }

  function ContentMembers(d: CachedContent): seq<Member> {
    OptMember("content", ContentJson(d)) + OptMember("quiz", QuizJson(d))
  }

  function EncodeContent(d: CachedContent): Json {
    Obj(ContentMembers(d))
  }

  function OptQuiz(ms: seq<Member>): Option<Option<seq<QuizQuestion>>> {
    match Get(ms, "quiz")
    case None => Some(None)
    case Some(Arr(items)) =>
      (match Questions(items)
       case Some(qs) => Some(Some(qs))
       case None => None)
    case Some(_) => None
  }

  function DecodeContent(j: Json): Option<CachedContent> {
    if !j.Obj? then None
    else
      match (OptStr(j.members, "content"), OptQuiz(j.members))
      case (Some(c), Some(q)) => Some(CachedContent(c, q))
      case _ => None
  }

  /** Looking up a key in written content: each optional property shadows
      only its own key. */
  lemma ContentGet(d: CachedContent, key: string)
    ensures Get(ContentMembers(d), key) ==
      if key == "quiz" && d.quiz.Some? then QuizJson(d)
      else if key == "content" && d.content.Some? then ContentJson(d)
      else None
  {
    var first := OptMember("content", ContentJson(d));
    GetOpt(first, "quiz", QuizJson(d), key);
    EmptyAppend(first);
    GetOpt([], "content", ContentJson(d), key);
  }

  lemma ContentField(d: CachedContent)
    ensures OptStr(ContentMembers(d), "content") == Some(d.content)
  {
    ContentGet(d, "content");
  }

  lemma QuizField(d: CachedContent)
    ensures OptQuiz(ContentMembers(d)) == Some(d.quiz)
  {
    ContentGet(d, "quiz");
    if d.quiz.Some? {
      QuestionsOfQuiz(d.quiz.value);
    }
  }

  lemma ContentRoundTrip(d: CachedContent)
    ensures DecodeContent(EncodeContent(d)) == Some(d)
  {
    ContentField(d);
    QuizField(d);
  }

  // ---------------------------------------------------------------------
  // Module cache
  // ---------------------------------------------------------------------

  /** The module cache: lesson content per module id, in insertion order. */
  type ModuleCache = seq<Entry<CachedContent>>

  function CacheMembers(c: ModuleCache): seq<Member> {
    seq(|c|, i requires 0 <= i < |c| => Member(c[i].key, EncodeContent(c[i].value)))
  }

  /** `JSON.stringify(cache)`, as a value. */
  function EncodeCache(c: ModuleCache): Json {
    Obj(CacheMembers(c))
  }

  /** Builds the record a parsed object denotes, property by property: a
      repeated key keeps its first position and takes its last value. */
  function CacheFrom(ms: seq<Member>, acc: ModuleCache): Option<ModuleCache> {
    if ms == [] then Some(acc)
    else
      match DecodeContent(ms[0].value)
      case None => None
      case Some(d) => CacheFrom(ms[1..], Put(acc, ms[0].key, d))
  }

  function DecodeCache(j: Json): (r: Option<ModuleCache>)
    ensures r.Some? ==> UniqueKeys(r.value)
  {
    if j.Obj? then
      CacheFromUnique(j.members, []);
      CacheFrom(j.members, [])
    else None
  }

  lemma {:induction false} CacheFromMembers(rest: ModuleCache, acc: ModuleCache)
    requires UniqueKeys(acc + rest)
    ensures CacheFrom(CacheMembers(rest), acc) == Some(acc + rest)
  {
    if rest != [] {
      var e := rest[0];
      var all := acc + rest;
      assert e.key !in Keys(acc) by {
        forall i | 0 <= i < |acc| ensures acc[i].key != e.key {
          assert all[i] == acc[i] && all[|acc|] == e;
        }
      }
      var ms := CacheMembers(rest);
      PutFresh(acc, e.key, e.value);
      ContentRoundTrip(e.value);
      assert ms[0] == Member(e.key, EncodeContent(e.value));
      assert ms[1..] == CacheMembers(rest[1..]);
      assert CacheFrom(ms, acc) == CacheFrom(ms[1..], acc + [e]);
      AppendFirst(acc, rest);
      CacheFromMembers(rest[1..], acc + [e]);
    } else {
      assert CacheMembers(rest) == [] && acc + rest == acc;
    }
  }

  /** A cache with distinct module ids is read back unchanged. */
  lemma CacheRoundTrip(c: ModuleCache)
    requires UniqueKeys(c)
    ensures DecodeCache(EncodeCache(c)) == Some(c)
  {
    EmptyAppend(c);
    CacheFromMembers(c, []);
  }

  /** Reading a stored object always yields distinct module ids. */
  lemma {:induction false} CacheFromUnique(ms: seq<Member>, acc: ModuleCache)
    requires UniqueKeys(acc)
    ensures CacheFrom(ms, acc).Some? ==> UniqueKeys(CacheFrom(ms, acc).value)
  {
    if ms != [] && DecodeContent(ms[0].value).Some? {
      PutKeys(acc, ms[0].key, DecodeContent(ms[0].value).value);
      CacheFromUnique(ms[1..], Put(acc, ms[0].key, DecodeContent(ms[0].value).value));
    }
  }
}

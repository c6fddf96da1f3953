/** The learning path (pages/LearningPage.tsx): the fixed list of modules,
    how the module cache fills them in, which node is next and which are
    locked, the modal that opens a module, generates its lesson once and
    awards its points, and the quiz a lesson ends with. The progress store
    (completed modules, points, the cache) is the one of the progress
    module; the lesson request is an input. */
module Learning {
  import opened Options
  import opened Types
  import opened Collections
  import opened Gemini
  import opened ProgressCodec
  import opened Progress

  // ---------------------------------------------------------------------
  // The path
  // ---------------------------------------------------------------------

  /** A module as the path lists it: no difficulty, duration, lock flag,
      content or quiz of its own. */
  function PathModule(id: string, title: string, description: string, moduleType: ModuleType,
                      ageGroup: AgeGroup, pointsReward: Option<int>): LearningModule {
    LearningModule(id, title, description, moduleType, ageGroup, None, None, pointsReward, None, None, None)
  }

  /** `learningPathModules`, in path order. */
  const LearningPath: seq<LearningModule> := [
    PathModule("k1", "What is a Password?", "Learn why passwords are like secret codes to protect your treasures!", Lesson, Kids, Some(25)),
    PathModule("k2", "Password Builder Game", "Challenge: Build the strongest password castle to fend off dragons!", Game, Kids, None),
    PathModule("t1", "Understanding Phishing", "Learn to spot fake messages trying to steal your information.", Lesson, Teens, Some(75)),
    PathModule("t3", "Phishing Hunter", "Challenge: Hunt down suspicious emails and protect your friends!", Game, Teens, None),
    PathModule("a1", "Introduction to Deepfakes", "Learn the basics of deepfake technology and its implications.", Lesson, Adults, Some(150)),
    PathModule("a3", "Deepfake Challenge", "Can you identify the manipulated media? Test your skills!", Challenge, Adults, None),
    PathModule("a2", "Advanced Threat Detection", "A deep-dive into identifying sophisticated cyber attacks.", Lesson, Adults, Some(200))
  ]

  /** Seven modules with distinct ids; exactly the lessons carry a reward. */
  lemma PathShape()
    ensures |LearningPath| == 7
    ensures forall i, j :: 0 <= i < j < |LearningPath| ==> LearningPath[i].id != LearningPath[j].id
    ensures forall i :: 0 <= i < |LearningPath| ==>
      (LearningPath[i].pointsReward.Some? <==> LearningPath[i].moduleType == Lesson)
  {
  }

  // ---------------------------------------------------------------------
  // Enrichment from the cache
  // ---------------------------------------------------------------------

  /** `{ ...m, ...cachedData }` when the cache has an entry for `m.id`: a
      property the entry holds replaces the module's, one it lacks leaves
      the module's in place. */
  function Enrich(m: LearningModule, cache: ModuleCache): LearningModule {
    match Lookup(cache, m.id)
    case None => m
    case Some(c) =>
      m.(content := if c.content.Some? then c.content else m.content,
         quiz := if c.quiz.Some? then c.quiz else m.quiz)
  }

  /** The `modules` state: every path module, enriched. */
  function Enriched(base: seq<LearningModule>, cache: ModuleCache): seq<LearningModule> {
    seq(|base|, k requires 0 <= k < |base| => Enrich(base[k], cache))
  }

  /** Enrichment keeps the modules, their order and everything but their
      content and quiz; a module without a cache entry is kept as it is,
      and one with an entry shows the entry's content and quiz. */
  lemma EnrichedSpec(base: seq<LearningModule>, cache: ModuleCache)
    ensures |Enriched(base, cache)| == |base|
    ensures forall k :: 0 <= k < |base| ==>
      Enriched(base, cache)[k].(content := base[k].content, quiz := base[k].quiz) == base[k]
    ensures forall k :: 0 <= k < |base| && Lookup(cache, base[k].id).None? ==>
      Enriched(base, cache)[k] == base[k]
    ensures forall k :: 0 <= k < |base| && Lookup(cache, base[k].id).Some? ==>
      var c := Lookup(cache, base[k].id).value;
      && (c.content.Some? ==> Enriched(base, cache)[k].content == c.content)
      && (c.quiz.Some? ==> Enriched(base, cache)[k].quiz == c.quiz)
  {
  }

  /** Enriching twice from the same cache is enriching once. */
  lemma EnrichedIdempotent(base: seq<LearningModule>, cache: ModuleCache)
    ensures Enriched(Enriched(base, cache), cache) == Enriched(base, cache)
  {
    var once := Enriched(base, cache);
    forall k | 0 <= k < |base| ensures Enrich(once[k], cache) == once[k] {
      assert once[k].id == base[k].id;
    }
  }

  /** `module.content && module.quiz`: the lesson is there to show (an
      empty text does not count, an empty quiz does). */
  predicate HasLesson(m: LearningModule) {
    m.content.Some? && m.content.value != "" && m.quiz.Some?
  }

  /** Once a generated lesson is cached, the enriched module has it, so
      opening the module again shows it without another request. */
  lemma CachedLessonShown(m: LearningModule, cache: ModuleCache, content: string, quiz: seq<QuizQuestion>)
    requires content != ""
    ensures var e := Enrich(m, Put(cache, m.id, CachedContent(Some(content), Some(quiz))));
      e.content == Some(content) && e.quiz == Some(quiz) && HasLesson(e)
  {
    LookupPutSame(cache, m.id, CachedContent(Some(content), Some(quiz)));
  }

  /** Caching a lesson for one module leaves every other module's
      enrichment as it was. */
  lemma CacheOtherUnchanged(m: LearningModule, cache: ModuleCache, id: string, data: CachedContent)
    requires m.id != id
    ensures Enrich(m, Put(cache, id, data)) == Enrich(m, cache)
  {
    LookupPutOther(cache, id, data, m.id);
  }

  // ---------------------------------------------------------------------
  // The next node and the locked ones
  // ---------------------------------------------------------------------

  /** `modules.findIndex(m => !completedModules.has(m.id))`, searching from
      `i`. */
  function FirstIncompleteFrom(ms: seq<LearningModule>, completed: seq<string>, i: nat): int
    requires i <= |ms|
    decreases |ms| - i
  {
    if i == |ms| then -1
    else if ms[i].id !in completed then i
    else FirstIncompleteFrom(ms, completed, i + 1)
  }

  function FirstIncomplete(ms: seq<LearningModule>, completed: seq<string>): int {
    FirstIncompleteFrom(ms, completed, 0)
  }

  lemma {:induction false} FirstIncompleteFromSpec(ms: seq<LearningModule>, completed: seq<string>, i: nat)
    requires i <= |ms| && forall k :: 0 <= k < i ==> ms[k].id in completed
    ensures var r := FirstIncompleteFrom(ms, completed, i);
      && (r == -1 <==> forall k :: 0 <= k < |ms| ==> ms[k].id in completed)
      && (r != -1 ==>
            0 <= r < |ms| && ms[r].id !in completed && forall k :: 0 <= k < r ==> ms[k].id in completed)
    decreases |ms| - i
  {
    if i < |ms| && ms[i].id in completed {
      FirstIncompleteFromSpec(ms, completed, i + 1);
    }
  }

  /** The next node is the first module not completed, or -1 when all of
      them are. */
  lemma FirstIncompleteSpec(ms: seq<LearningModule>, completed: seq<string>)
    ensures var r := FirstIncomplete(ms, completed);
      && (r == -1 <==> forall k :: 0 <= k < |ms| ==> ms[k].id in completed)
      && (r != -1 ==>
            0 <= r < |ms| && ms[r].id !in completed && forall k :: 0 <= k < r ==> ms[k].id in completed)
  {
    FirstIncompleteFromSpec(ms, completed, 0);
  }

  /** `isLocked`. */
  predicate IsLocked(index: int, first: int) {
    index > first && first != -1
  }

  /** A node is locked exactly when some module before it is not
      completed, whether or not the node itself is. */
  lemma LockedIff(ms: seq<LearningModule>, completed: seq<string>, i: int)
    requires 0 <= i < |ms|
    ensures IsLocked(i, FirstIncomplete(ms, completed)) <==>
      exists k :: 0 <= k < i && ms[k].id !in completed
  {
    FirstIncompleteSpec(ms, completed);
    var first := FirstIncomplete(ms, completed);
    if exists k :: 0 <= k < i && ms[k].id !in completed {
      var k :| 0 <= k < i && ms[k].id !in completed;
      assert first != -1 && first <= k;
    }
  }

  /** How a node is drawn: completed, next, locked, or plain. */
  datatype NodeStatus = Completed | Next | Locked | Plain

  function Status(ms: seq<LearningModule>, completed: seq<string>, i: int): NodeStatus
    requires 0 <= i < |ms|
  {
    var first := FirstIncomplete(ms, completed);
    if ms[i].id in completed then Completed
    else if i == first then Next
    else if IsLocked(i, first) then Locked
    else Plain
  }

  /** The plain style is never used: a node that is neither completed nor
      next comes after the next one, so it is locked. */
  lemma NoPlainNode(ms: seq<LearningModule>, completed: seq<string>, i: int)
    requires 0 <= i < |ms|
    ensures Status(ms, completed, i) != Plain
    ensures Status(ms, completed, i) == Next <==> i == FirstIncomplete(ms, completed)
  {
    FirstIncompleteSpec(ms, completed);
  }

  // ---------------------------------------------------------------------
  // The quiz
  // ---------------------------------------------------------------------

  /** The number of answers that are the correct answer of their question. */
  function CorrectCount(questions: seq<QuizQuestion>, answers: seq<string>): nat
    requires |answers| <= |questions|
  {
    if answers == [] then 0
    else
      var n := |answers| - 1;
      CorrectCount(questions[..n], answers[..n]) + (if answers[n] == questions[n].correctAnswer then 1 else 0)
  }

  /** No more correct answers than answers. */
  lemma {:induction false} CorrectCountBound(questions: seq<QuizQuestion>, answers: seq<string>)
    requires |answers| <= |questions|
    ensures CorrectCount(questions, answers) <= |answers|
  {
    if answers != [] {
      CorrectCountBound(questions[..|answers| - 1], answers[..|answers| - 1]);
    }
  }

  /** Answering every question correctly scores every question. */
  lemma {:induction false} AllCorrect(questions: seq<QuizQuestion>, answers: seq<string>)
    requires |answers| <= |questions|
    requires forall k :: 0 <= k < |answers| ==> answers[k] == questions[k].correctAnswer
    ensures CorrectCount(questions, answers) == |answers|
  {
    if answers != [] {
      AllCorrect(questions[..|answers| - 1], answers[..|answers| - 1]);
    }
  }

  /** The count of a longer answer list: the earlier answers' count, and
      one more if the new answer is correct. */
  lemma CorrectCountSnoc(questions: seq<QuizQuestion>, answers: seq<string>, a: string)
    requires |answers| < |questions|
    ensures CorrectCount(questions, answers + [a]) ==
      CorrectCount(questions, answers) + (if a == questions[|answers|].correctAnswer then 1 else 0)
  {
    var n := |answers| + 1;
    assert (answers + [a])[..n - 1] == answers;
    CountPrefix(questions, answers);
    CountPrefix(questions[..n - 1], answers);
  }

  /** Only the first `|answers|` questions matter. */
  lemma {:induction false} CountPrefix(questions: seq<QuizQuestion>, answers: seq<string>)
    requires |answers| <= |questions|
    ensures CorrectCount(questions, answers) == CorrectCount(questions[..|answers|], answers)
  {
    if answers != [] {
      var n := |answers|;
      assert questions[..n][..n - 1] == questions[..n - 1];
    }
  }

  /** `QuizView`: the question shown, the answer picked for it, and the
      running score. `answers` records what was picked for each question so
      far. */
  class Quiz {
    const questions: seq<QuizQuestion>
    var current: nat
    var selectedAnswer: Option<string>
    var isCorrect: Option<bool>
    var score: nat
    ghost var answers: seq<string>
    /** The last question was left with "Finish Quiz". */
    ghost var finished: bool

    ghost predicate Valid()
      reads this
    {
      && 0 < |questions| && current < |questions|
      && |answers| == (if finished then |questions| else current + if selectedAnswer.Some? then 1 else 0)
      && (selectedAnswer.Some? ==>
            answers[current] == selectedAnswer.value
            && isCorrect == Some(selectedAnswer.value == questions[current].correctAnswer))
      && (selectedAnswer.None? ==> isCorrect.None?)
      && score == CorrectCount(questions, answers)
    }

    /** The quiz opens on its first question; `module.quiz!` must hold one. */
    constructor (questions: seq<QuizQuestion>)
      requires |questions| > 0
      ensures Valid() && this.questions == questions && !finished
      ensures current == 0 && selectedAnswer.None? && score == 0 && answers == []
    {
      this.questions := questions;
      current := 0;
      selectedAnswer := None;
      isCorrect := None;
      score := 0;
      answers := [];
      finished := false;
    }

    /** `handleAnswer`: the options are disabled once one is picked; the
        first pick is recorded and scores one point when it is the correct
        answer. */
    method HandleAnswer(answer: string)
      requires Valid() && !finished
      modifies this
      ensures Valid() && !finished && current == old(current)
      ensures old(selectedAnswer).Some? ==>
        selectedAnswer == old(selectedAnswer) && score == old(score) && answers == old(answers)
      ensures old(selectedAnswer).None? ==>
        && selectedAnswer == Some(answer)
        && isCorrect == Some(answer == questions[current].correctAnswer)
        && score == old(score) + (if answer == questions[current].correctAnswer then 1 else 0)
        && answers == old(answers) + [answer]
    {
      if selectedAnswer.Some? {
        return;
      }
      CorrectCountSnoc(questions, answers, answer);
      selectedAnswer := Some(answer);
      var correct := answer == questions[current].correctAnswer;
      isCorrect := Some(correct);
      answers := answers + [answer];
      if correct {
        score := score + 1;
      }
    }

    /** `handleNext`, offered once a non-empty answer is picked: the pick
        is cleared and the next question shown, or after the last question
        the score is handed back. */
    method HandleNext() returns (done: Option<nat>)
      requires Valid() && !finished
      modifies this
      ensures Valid()
      ensures (old(selectedAnswer).None? || old(selectedAnswer) == Some("")) ==>
        done.None? && current == old(current) && selectedAnswer == old(selectedAnswer)
        && score == old(score) && !finished
      ensures old(selectedAnswer).Some? && old(selectedAnswer) != Some("") ==>
        && selectedAnswer.None? && isCorrect.None? && score == old(score)
        && (old(current) < |questions| - 1 ==> current == old(current) + 1 && done.None? && !finished)
        && (old(current) == |questions| - 1 ==> done == Some(score) && finished && score <= |questions|)
    {
      done := None;
      if selectedAnswer.None? || selectedAnswer == Some("") {
        return;
      }
      selectedAnswer := None;
      isCorrect := None;
      if current < |questions| - 1 {
        current := current + 1;
      } else {
        finished := true;
        CorrectCountBound(questions, answers);
        done := Some(score);
      }
    }
  }

  // ---------------------------------------------------------------------
  // The page
  // ---------------------------------------------------------------------

  datatype ModalView = DetailsView | LoadingView | LessonView | QuizView | ResultsView

  /** `selectedModule.points_reward || 0`. */
  function PointsOf(m: LearningModule): int {
    if m.pointsReward.Some? then m.pointsReward.value else 0
  }

  /** The start button of the details view: shown enabled only for a
      lesson. */
  predicate CanStart(view: Option<ModalView>, selected: Option<LearningModule>) {
    view == Some(DetailsView) && selected.Some? && selected.value.moduleType == Lesson
  }

  class LearningPage {
    const store: ProgressStore
    var modules: seq<LearningModule>
    var selected: Option<LearningModule>
    var view: Option<ModalView>
    var error: Option<string>
    var quizScore: int

    ghost predicate Valid()
      reads this, store
    {
      store.Valid()
    }

    /** Mounting the page: the modules are the path enriched from the
        cache, and no modal is open. */
    constructor (store: ProgressStore)
      requires store.Valid()
      ensures Valid() && this.store == store
      ensures modules == Enriched(LearningPath, store.cache)
      ensures selected.None? && view.None? && error.None? && quizScore == 0
    {
      this.store := store;
      modules := Enriched(LearningPath, store.cache);
      selected := None;
      view := None;
      error := None;
      quizScore := 0;
    }

    /** The enrichment effect, run whenever the cache changes. React runs
        it after the render that follows a cache update; here the caller
        runs it, so `modules` reflects the cache only once it has. */
    method Refresh()
      modifies this
      ensures modules == Enriched(LearningPath, store.cache)
      ensures selected == old(selected) && view == old(view) && error == old(error) && quizScore == old(quizScore)
    {
      modules := Enriched(LearningPath, store.cache);
    }

    /** A click on node `i`: a locked node's button is disabled; any other
        opens the details of its module. */
    method HandleNodeClick(i: int)
      requires 0 <= i < |modules|
      modifies this
      ensures modules == old(modules) && error == old(error) && quizScore == old(quizScore)
      ensures IsLocked(i, FirstIncomplete(old(modules), store.completed)) ==>
        selected == old(selected) && view == old(view)
      ensures !IsLocked(i, FirstIncomplete(old(modules), store.completed)) ==>
        selected == Some(old(modules)[i]) && view == Some(DetailsView)
    {
      if IsLocked(i, FirstIncomplete(modules, store.completed)) {
        return;
      }
      selected := Some(modules[i]);
      view := Some(DetailsView);
    }

    /** The start button, then `handleStartModule`: a module with its
        lesson goes straight to it; otherwise the lesson is generated, and
        on success cached under the module's id before it is shown, while a
        failure shows its message on the details view and caches nothing. */
    method StartModule(apiKey: string, reply: Reply<LessonReply>)
      requires Valid()
      modifies this, store, store.storage
      ensures Valid() && modules == old(modules) && quizScore == old(quizScore)
      ensures !CanStart(old(view), old(selected)) ==>
        selected == old(selected) && view == old(view) && error == old(error)
        && unchanged(store) && unchanged(store.storage)
      ensures CanStart(old(view), old(selected)) && HasLesson(old(selected).value) ==>
        selected == old(selected) && view == Some(LessonView) && error == old(error)
        && unchanged(store) && unchanged(store.storage)
      ensures CanStart(old(view), old(selected)) && !HasLesson(old(selected).value) && (apiKey == "" || reply.Failed?) ==>
        selected == old(selected) && view == Some(DetailsView)
        && error == Some(if apiKey == "" then ConfigError else LessonFailure)
        && unchanged(store) && unchanged(store.storage)
      ensures CanStart(old(view), old(selected)) && !HasLesson(old(selected).value) && apiKey != "" && reply.Replied? ==>
        var m := old(selected).value;
        var data := CachedContent(Some(reply.value.content), Some(NormalizedQuiz(reply.value.quiz)));
        && store.cache == Put(old(store.cache), m.id, data)
        && store.user == old(store.user) && store.completed == old(store.completed)
        && store.storage.items == store.storage.Saved(old(store.storage.items), CacheKey, EncodeCache(store.cache))
        && selected == Some(m.(content := data.content, quiz := data.quiz))
        && view == Some(LessonView) && error.None?
    {
      if !CanStart(view, selected) {
        return;
      }
      var m := selected.value;
      if HasLesson(m) {
        view := Some(LessonView);
        return;
      }
      Generate(m, apiKey, reply);
    }

    /** The request half of `handleStartModule` for a module `m` without
        its lesson. */
    method Generate(m: LearningModule, apiKey: string, reply: Reply<LessonReply>)
      requires Valid()
      modifies this, store, store.storage
      ensures Valid() && modules == old(modules) && quizScore == old(quizScore)
      ensures apiKey == "" || reply.Failed? ==>
        selected == old(selected) && view == Some(DetailsView)
        && error == Some(if apiKey == "" then ConfigError else LessonFailure)
        && unchanged(store) && unchanged(store.storage)
      ensures apiKey != "" && reply.Replied? ==>
        var data := CachedContent(Some(reply.value.content), Some(NormalizedQuiz(reply.value.quiz)));
        && store.cache == Put(old(store.cache), m.id, data)
        && store.user == old(store.user) && store.completed == old(store.completed)
        && store.storage.items == store.storage.Saved(old(store.storage.items), CacheKey, EncodeCache(store.cache))
        && selected == Some(m.(content := data.content, quiz := data.quiz))
        && view == Some(LessonView) && error.None?
    {
      view := Some(LoadingView);
      error := None;
      var outcome := GenerateLearningContent(apiKey, reply);
      match outcome {
        case Ok(data) =>
          store.CacheModuleContent(m.id, data);
          selected := Some(m.(content := data.content, quiz := data.quiz));
          view := Some(LessonView);
        case Err(message) =>
          error := Some(message);
          view := Some(DetailsView);
      }
    }

    /** The lesson's "Start Quiz" button. */
    method StartQuiz()
      modifies this
      ensures old(view) == Some(LessonView) ==> view == Some(QuizView)
      ensures old(view) != Some(LessonView) ==> view == old(view)
      ensures selected == old(selected) && error == old(error) && modules == old(modules) && quizScore == old(quizScore)
    {
      if view == Some(LessonView) {
        view := Some(QuizView);
      }
    }

    /** `handleQuizComplete`: the score is kept for the results view and
        the module is completed with its reward, or 0 without one;
        completing the same module again awards nothing. */
    method HandleQuizComplete(score: int)
      requires Valid()
      modifies this, store, store.storage
      ensures Valid()
      ensures quizScore == score && view == Some(ResultsView)
      ensures selected == old(selected) && error == old(error) && modules == old(modules)
      ensures store.cache == old(store.cache)
      ensures old(selected).None? ==> unchanged(store) && unchanged(store.storage)
      ensures old(selected).Some? && old(selected).value.id in old(store.completed) ==>
        store.user == old(store.user) && store.completed == old(store.completed)
        && store.storage.items == old(store.storage.items)
      ensures old(selected).Some? && old(selected).value.id !in old(store.completed) ==>
        store.user == Award(old(store.user), PointsOf(old(selected).value))
        && store.completed == old(store.completed) + [old(selected).value.id]
        && store.storage.items == store.storage.Saved(store.storage.Saved(old(store.storage.items),
             UserKey, EncodeUser(store.user)), CompletedKey, EncodeCompleted(store.completed))
    {
      quizScore := score;
      if selected.Some? {
        store.CompleteModule(selected.value.id, PointsOf(selected.value));
      }
      view := Some(ResultsView);
    }

    /** `closeModal`. */
    method CloseModal()
      modifies this
      ensures selected.None? && view.None? && error.None?
      ensures modules == old(modules) && quizScore == old(quizScore)
    {
      selected := None;
      view := None;
      error := None;
    }
  }
}

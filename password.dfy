/** The password strength checker (pages/PasswordCheckerPage.tsx). The
    strength estimator (zxcvbn, loaded from a script tag) is not part of the
    model: what it returned for the current password is an input, a grade
    from 0 to 4 with its feedback, or a failure. */
module Password {
  import opened Options
  import opened JsString
  import opened Types

  /** The estimator's grade. */
  type Grade = g: int | 0 <= g <= 4

  /** What the estimator reports for one password. */
  datatype Estimate = Estimate(grade: Grade, warning: Option<string>, suggestions: seq<string>)

  /** One call of the estimator: it returns, or it throws. */
  datatype EstimatorOutcome = Returned(estimate: Estimate) | Threw

  const LengthNote := "Excellent length."
  const MixNote := "Good mix of characters (letters, numbers, and symbols)."
  const GenericAdvice := "Make the password longer and more complex."
  const FailureMessage := "Failed to analyze password. The analysis library might not have loaded correctly."

  /** `scoreMap`. */
  const ScoreMap: seq<int> := [10, 25, 50, 75, 100]

  /** `verdictMap`. */
  const VerdictMap: seq<PasswordVerdict> := [VeryWeak, Weak, Moderate, Strong, VeryStrong]

  /** The position of a verdict in the table, weakest first. */
  function VerdictRank(v: PasswordVerdict): (k: int)
    ensures 0 <= k < 5 && VerdictMap[k] == v
  {
    match v
    case VeryWeak => 0
    case Weak => 1
    case Moderate => 2
    case Strong => 3
    case VeryStrong => 4
  }

  /** `/\d/.test(s)`. */
  predicate HasDigit(s: string) {
    exists i :: 0 <= i < |s| && IsDigit(s[i])
  }

  /** `/[a-zA-Z]/.test(s)`. */
  predicate HasLetter(s: string) {
    exists i :: 0 <= i < |s| && IsAsciiLetter(s[i])
  }

  /** `/[^a-zA-Z\d]/.test(s)`. */
  predicate HasSymbol(s: string) {
    exists i :: 0 <= i < |s| && !IsAsciiLetter(s[i]) && !IsDigit(s[i])
  }

  /** A warning counts only when it is a non-empty string. */
  predicate HasWarning(e: Estimate) {
    e.warning.Some? && e.warning.value != ""
  }

  /** The advice list: the warning first when there is one, then the
      suggestions; a weak password without any feedback gets the generic
      advice. */
  function Enhancements(e: Estimate): seq<string> {
    var fromEstimator := (if HasWarning(e) then [e.warning.value] else []) + e.suggestions;
    if e.grade < 2 && fromEstimator == [] then [GenericAdvice] else fromEstimator
  }

  /** The praise list, given only from grade 3 up. */
  function PositivePoints(password: string, grade: Grade): seq<string> {
    if grade < 3 then []
    else
      (if Utf16Length(password) >= 12 then [LengthNote] else [])
      + (if HasDigit(password) && HasLetter(password) && HasSymbol(password) then [MixNote] else [])
  }

  /** The result the page shows for a non-empty password. */
  function Evaluate(password: string, e: Estimate): (r: PasswordAnalysisResult)
    ensures r.score == ScoreMap[e.grade] && r.verdict == VerdictMap[e.grade]
  {
    PasswordAnalysisResult(ScoreMap[e.grade], VerdictMap[e.grade], Enhancements(e), PositivePoints(password, e.grade))
  }

  /** `getStrengthInfo` of the strength meter: the bar width and the label
      for a score. */
  function StrengthInfo(score: int): (string, PasswordVerdict) {
    if score > 80 then ("100%", VeryStrong)
    else if score > 60 then ("75%", Strong)
    else if score > 40 then ("50%", Moderate)
    else if score > 20 then ("25%", Weak)
    else ("10%", VeryWeak)
  }

  /** The page state the analysis touches. */
  class PasswordChecker {
    var password: string
    var result: Option<PasswordAnalysisResult>
    var error: Option<string>

    constructor ()
      ensures password == "" && result == None && error == None
    {
      password := "";
      result := None;
      error := None;
    }

    /** Typing in the field. */
    method SetPassword(p: string)
      modifies this
      ensures password == p && result == old(result) && error == old(error)
    {
      password := p;
    }

    /** The body of the debounced effect, once its timer fires; `outcome` is
        what the estimator does on the current password. */
    method Analyze(outcome: EstimatorOutcome)
      modifies this
      ensures password == old(password)
      ensures password == "" ==> result == None && error == old(error)
      ensures password != "" && outcome.Threw? ==>
        result == old(result) && error == Some(FailureMessage)
      ensures password != "" && outcome.Returned? ==>
        result == Some(Evaluate(password, outcome.estimate)) && error == None
    {
      if password == "" {
        result := None;
        return;
      }
      error := None;
      match outcome
      case Threw =>
        error := Some(FailureMessage);
      case Returned(e) =>
        var enhancements := e.suggestions;
        if HasWarning(e) {
          enhancements := [e.warning.value] + enhancements;
        } else {
          assert enhancements == [] + e.suggestions;
        }
        var positives: seq<string> := [];
        if e.grade >= 3 {
          if Utf16Length(password) >= 12 {
            positives := positives + [LengthNote];
          }
          assert positives == if Utf16Length(password) >= 12 then [LengthNote] else [];
          if HasDigit(password) && HasLetter(password) && HasSymbol(password) {
            positives := positives + [MixNote];
          }
        }
        if e.grade < 2 && |password| > 0 && enhancements == [] {
          enhancements := enhancements + [GenericAdvice];
        }
        assert positives == PositivePoints(password, e.grade);
        assert enhancements == Enhancements(e);
        result := Some(PasswordAnalysisResult(ScoreMap[e.grade], VerdictMap[e.grade], enhancements, positives));
    }
  }

  /** A higher grade gives a strictly higher score and a strictly stronger
      verdict. */
  lemma GradeMonotonic(g: Grade, h: Grade)
    requires g < h
    ensures ScoreMap[g] < ScoreMap[h]
    ensures VerdictRank(VerdictMap[g]) < VerdictRank(VerdictMap[h])
  {
  }

  /** The meter's label for a graded score is the verdict of that grade. */
  lemma MeterAgreesWithVerdict(g: Grade)
    ensures StrengthInfo(ScoreMap[g]).1 == VerdictMap[g]
  {
  }

  /** The meter's label never weakens as the score grows. */
  lemma MeterMonotonic(s: int, t: int)
    requires s <= t
    ensures VerdictRank(StrengthInfo(s).1) <= VerdictRank(StrengthInfo(t).1)
  {
  }

  /** The warning, when there is one, comes first, and the suggestions
      follow in their original order. */
  lemma EnhancementsOrder(password: string, e: Estimate)
    ensures var r := Evaluate(password, e).enhancements;
      var k := if HasWarning(e) then 1 else 0;
      && k + |e.suggestions| <= |r|
      && (HasWarning(e) ==> r[0] == e.warning.value)
      && r[k..k + |e.suggestions|] == e.suggestions
  {
    var r := Evaluate(password, e).enhancements;
    if HasWarning(e) {
      assert r[1..1 + |e.suggestions|] == e.suggestions;
    } else if e.grade < 2 && e.suggestions == [] {
      assert r[0..0] == [];
    } else {
      assert r[0..|e.suggestions|] == e.suggestions;
    }
  }

  /** Weak passwords always get at least one piece of advice: the generic
      advice when the estimator gave none. */
  lemma WeakGetsAdvice(password: string, e: Estimate)
    requires e.grade < 2
    ensures |Evaluate(password, e).enhancements| >= 1
    ensures !HasWarning(e) && e.suggestions == [] ==> Evaluate(password, e).enhancements == [GenericAdvice]
  {
  }

  /** From grade 2 up, the advice is exactly the estimator's feedback. */
  lemma AdviceFromEstimator(password: string, e: Estimate)
    requires e.grade >= 2
    ensures |Evaluate(password, e).enhancements| == (if HasWarning(e) then 1 else 0) + |e.suggestions|
  {
  }

  /** No praise below grade 3. */
  lemma NoPraiseWhenWeak(password: string, e: Estimate)
    requires e.grade < 3
    ensures Evaluate(password, e).positivePoints == []
  {
  }

  /** From grade 3 up, each note is given exactly when its condition holds. */
  lemma PraiseConditions(password: string, e: Estimate)
    requires e.grade >= 3
    ensures LengthNote in Evaluate(password, e).positivePoints <==> Utf16Length(password) >= 12
    ensures MixNote in Evaluate(password, e).positivePoints <==>
      HasDigit(password) && HasLetter(password) && HasSymbol(password)
  {
    var p := Evaluate(password, e).positivePoints;
    assert LengthNote != MixNote by {
      assert |LengthNote| != |MixNote|;
    }
  }
}

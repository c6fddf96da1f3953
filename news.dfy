/** The news verification page (pages/NewsVerificationPage.tsx): the
    title a result is shown under, and the page state (`query`,
    `isChecking`, `result`, `error`) that the check and reset buttons
    update. The request is an input. */
module News {
  import opened Options
  import opened JsString
  import opened Types
  import opened Gemini

  datatype NewsTitle = LikelyFactualTitle | MisleadingTitle | PotentiallyFalseTitle

  /** `getVerdictInfo(result.credibility_score).title`: the title comes
      from the credibility score alone. */
  function VerdictInfo(score: real): (t: NewsTitle)
    ensures t == LikelyFactualTitle <==> score >= 70.0
    ensures t == MisleadingTitle <==> 40.0 <= score < 70.0
    ensures t == PotentiallyFalseTitle <==> score < 40.0
  {
    if score >= 70.0 then LikelyFactualTitle
    else if score >= 40.0 then MisleadingTitle
    else PotentiallyFalseTitle
  }

  /** The title of a shown result. */
  function ShownTitle(r: NewsVerificationResult): NewsTitle {
    VerdictInfo(r.credibilityScore)
  }

  /** The verdict the service returned plays no part in the title: two
      results with the same score are shown under the same title, whatever
      their verdicts (an "Unverifiable" verdict included). */
  lemma TitleIgnoresVerdict(a: NewsVerificationResult, b: NewsVerificationResult)
    requires a.credibilityScore == b.credibilityScore
    ensures ShownTitle(a) == ShownTitle(b)
  {
  }

  const CheckFailure := "Failed to verify news. The AI model may be temporarily unavailable or the content could not be analyzed. Please try again."

  class NewsPage {
    var query: string
    var isChecking: bool
    var result: Option<NewsVerificationResult>
    var error: Option<string>

    constructor ()
      ensures query == "" && !isChecking && result.None? && error.None?
    {
      query := "";
      isChecking := false;
      result := None;
      error := None;
    }

    method SetQuery(q: string)
      modifies this
      ensures query == q
      ensures isChecking == old(isChecking) && result == old(result) && error == old(error)
    {
      query := q;
    }

    /** `handleCheck`: a blank query does nothing; otherwise the error and
        the previous result are cleared, the reply becomes the result, any
        failure (the configuration error included) shows one fixed message
        and leaves no result, and the checking flag ends false. */
    method HandleCheck(apiKey: string, reply: Reply<NewsVerificationResult>)
      modifies this
      ensures query == old(query)
      ensures Trim(old(query)) == "" ==>
        isChecking == old(isChecking) && result == old(result) && error == old(error)
      ensures Trim(old(query)) != "" ==>
        var outcome := VerifyNews(apiKey, reply);
        && !isChecking
        && (outcome.Ok? ==> result == Some(outcome.value) && error.None?)
        && (outcome.Err? ==> result.None? && error == Some(CheckFailure))
    {
      if Trim(query) == "" {
        return;
      }
      isChecking := true;
      error := None;
      result := None;
      var outcome := VerifyNews(apiKey, reply);
      match outcome {
        case Ok(r) =>
          result := Some(r);
        case Err(_) =>
          error := Some(CheckFailure);
      }
      isChecking := false;
    }

    /** `reset`: clears the query, the result and the error. */
    method Reset()
      modifies this
      ensures query == "" && result.None? && error.None?
      ensures isChecking == old(isChecking)
    {
      query := "";
      result := None;
      error := None;
    }
  }

  /** A check without an API key fails with the fixed message, and one with
      a key and a reply shows that reply. */
  method CheckOutcomes(reply: NewsVerificationResult) returns (noKey: NewsPage, withKey: NewsPage)
    ensures noKey.error == Some(CheckFailure) && noKey.result.None? && !noKey.isChecking
    ensures withKey.result == Some(reply) && withKey.error.None? && !withKey.isChecking
  {
    noKey := new NewsPage();
    noKey.SetQuery("Is this true?");
    assert Trim("Is this true?") != "" by {
      TrimEmptyIff("Is this true?");
      assert !IsWhitespace('I');
    }
    noKey.HandleCheck("", Replied(reply));
    withKey := new NewsPage();
    withKey.SetQuery("Is this true?");
    withKey.HandleCheck("key", Replied(reply));
  }
}

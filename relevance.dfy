// orchestrator/src/server/services/post-application/ingestion/relevance.ts:
// the keyword score of an email, its keyword classification, and the
// policy that decides between "relevant", "ask the LLM" and "ignore".
module Relevance {
  import opened Text
  import opened JsNumber

  const HIGH_CONFIDENCE_THRESHOLD := 95
  const MIN_THRESHOLD := 60

  datatype Rule = Rule(term: string, weight: nat)

  const SUBJECT_RULES: seq<Rule> := [
    Rule("thank you for applying", 45),
    Rule("thanks for applying", 45),
    Rule("application received", 45),
    Rule("application submitted", 45),
    Rule("interview", 35),
    Rule("assessment", 35),
    Rule("offer", 35),
    Rule("rejection", 35),
    Rule("regret to inform", 35),
    Rule("not moving forward", 35),
    Rule("hiring team", 25),
    Rule("recruiter", 25),
    Rule("referral", 25)]

  const FROM_RULES: seq<Rule> := [
    Rule("careers@", 40),
    Rule("jobs@", 40),
    Rule("recruiting@", 40),
    Rule("talent@", 40),
    Rule("@greenhouse.io", 35),
    Rule("@greenhouse-mail.io", 35),
    Rule("@lever.co", 35),
    Rule("@smartrecruiters.com", 35),
    Rule("@workdaymail.com", 35),
    Rule("@myworkday.com", 35),
    Rule("@workablemail.com", 35),
    Rule("@ashbyhq.com", 35)]

  const SNIPPET_RULES: seq<Rule> := [
    Rule("we have received your application", 45),
    Rule("thank you for your application", 45),
    Rule("please share your availability", 40),
    Rule("interview", 35),
    Rule("assessment", 35),
    Rule("coding challenge", 35),
    Rule("offer", 35),
    Rule("not moving forward", 35),
    Rule("regret to inform", 35)]

  const EXCLUSION_TERMS: seq<string> := [
    "newsletter",
    "weekly roundup",
    "course",
    "promotion",
    "discount",
    "event invitation",
    "webinar",
    "unsubscribe"]

  /** `toHaystack`: trimmed and lower-cased. */
  function ToHaystack(value: string): string
  {
    Lower(Trim(value))
  }

  /** Some term of the list occurs in `text`. */
  predicate AnyIn(text: string, terms: seq<string>)
  {
    exists i :: 0 <= i < |terms| && Contains(text, terms[i])
  }

  // ---------------------------------------------------------------- the keyword score

  /** The summed weights of the rules whose term occurs in `haystack`. */
  function RuleSum(haystack: string, rules: seq<Rule>): int
  {
    if rules == [] then 0
    else
      var last := rules[|rules| - 1];
      RuleSum(haystack, rules[..|rules| - 1]) + (if Contains(haystack, last.term) then last.weight else 0)
  }

  /** The total weight of a rule list. */
  function TotalWeight(rules: seq<Rule>): int
  {
    if rules == [] then 0 else TotalWeight(rules[..|rules| - 1]) + rules[|rules| - 1].weight
  }

  /** The rule sum lies between 0 and the total weight, and is 0 when no term occurs. */
  lemma {:induction false} RuleSumBounds(haystack: string, rules: seq<Rule>)
    ensures 0 <= RuleSum(haystack, rules) <= TotalWeight(rules)
    ensures (forall i :: 0 <= i < |rules| ==> !Contains(haystack, rules[i].term)) ==> RuleSum(haystack, rules) == 0
  {
    if rules != [] {
      var init := rules[..|rules| - 1];
      RuleSumBounds(haystack, init);
      if forall i :: 0 <= i < |rules| ==> !Contains(haystack, rules[i].term) {
        assert forall i :: 0 <= i < |init| ==> init[i] == rules[i];
      }
    }
  }

  /** A rule whose term occurs adds its full weight: the sum is at least that weight. */
  lemma {:induction false} RuleSumMatched(haystack: string, rules: seq<Rule>, k: nat)
    requires k < |rules| && Contains(haystack, rules[k].term)
    ensures RuleSum(haystack, rules) >= rules[k].weight
  {
    var init := rules[..|rules| - 1];
    RuleSumBounds(haystack, init);
    if k < |rules| - 1 {
      assert init[k] == rules[k];
      RuleSumMatched(haystack, init, k);
    }
  }

  /** What `matchScore` returns. */
  function MatchScoreOf(value: string, rules: seq<Rule>): int
  {
    var haystack := ToHaystack(value);
    if haystack == "" then 0 else RuleSum(haystack, rules)
  }

  /** `matchScore`: the loop adding the weight of every rule whose term occurs. */
  method MatchScore(value: string, rules: seq<Rule>) returns (total: int)
    ensures total == MatchScoreOf(value, rules)
  {
    var haystack := ToHaystack(value);
    if |haystack| == 0 {
      return 0;
    }
    total := 0;
    for i := 0 to |rules|
      invariant total == RuleSum(haystack, rules[..i])
    {
      assert rules[..i + 1][..i] == rules[..i];
      if Contains(haystack, rules[i].term) {
        total := total + rules[i].weight;
      }
    }
    assert rules[..|rules|] == rules;
  }

  /** A blank value scores 0, whatever the rules. */
  lemma MatchScoreBlank(value: string, rules: seq<Rule>)
    requires AllIn(value, Js)
    ensures MatchScoreOf(value, rules) == 0
  {
    TrimEmpty(value);
  }

  /** `Math.max(0, Math.min(100, score))`. */
  function ClampScore(score: int): int
  {
    Max(0, Min(100, score))
  }

  /** The text the exclusion terms are looked for in: subject, a space, snippet. */
  function Joined(subject: string, snippet: string): string
  {
    ToHaystack(subject) + " " + ToHaystack(snippet)
  }

  /** What `computeKeywordRelevanceScore` returns. */
  function KeywordRelevanceScore(from: string, subject: string, snippet: string): int
  {
    if AnyIn(Joined(subject, snippet), EXCLUSION_TERMS) then 0
    else ClampScore(
      MatchScoreOf(ToHaystack(subject), SUBJECT_RULES) +
      MatchScoreOf(ToHaystack(from), FROM_RULES) +
      MatchScoreOf(ToHaystack(snippet), SNIPPET_RULES))
  }

  /** `computeKeywordRelevanceScore`. */
  method ComputeKeywordRelevanceScore(from: string, subject: string, snippet: string) returns (score: int)
    ensures score == KeywordRelevanceScore(from, subject, snippet)
  {
    var fromHay := ToHaystack(from);
    var subjectHay := ToHaystack(subject);
    var snippetHay := ToHaystack(snippet);
    var joined := subjectHay + " " + snippetHay;
    var excluded := exists i :: 0 <= i < |EXCLUSION_TERMS| && Contains(joined, EXCLUSION_TERMS[i]);
    if excluded {
      return 0;
    }
    var s1 := MatchScore(subjectHay, SUBJECT_RULES);
    var s2 := MatchScore(fromHay, FROM_RULES);
    var s3 := MatchScore(snippetHay, SNIPPET_RULES);
    score := Max(0, Min(100, s1 + s2 + s3));
  }

  /**
    * The score lies in [0, 100]; an exclusion term in subject or snippet
    * forces 0 whatever the sender; otherwise it is the clamped sum of the
    * three rule sums.
    */
  lemma KeywordRelevanceScoreSpec(from: string, subject: string, snippet: string)
    ensures 0 <= KeywordRelevanceScore(from, subject, snippet) <= 100
    ensures AnyIn(Joined(subject, snippet), EXCLUSION_TERMS) ==> KeywordRelevanceScore(from, subject, snippet) == 0
    ensures !AnyIn(Joined(subject, snippet), EXCLUSION_TERMS) ==>
      var sum := MatchScoreOf(ToHaystack(subject), SUBJECT_RULES) +
        MatchScoreOf(ToHaystack(from), FROM_RULES) + MatchScoreOf(ToHaystack(snippet), SNIPPET_RULES);
      KeywordRelevanceScore(from, subject, snippet) == if sum > 100 then 100 else sum
  {
    MatchScoreNonNegative(ToHaystack(subject), SUBJECT_RULES);
    MatchScoreNonNegative(ToHaystack(from), FROM_RULES);
    MatchScoreNonNegative(ToHaystack(snippet), SNIPPET_RULES);
  }

  lemma MatchScoreNonNegative(value: string, rules: seq<Rule>)
    ensures MatchScoreOf(value, rules) >= 0
  {
    RuleSumBounds(ToHaystack(value), rules);
  }

  /** Changing only the sender never rescues an excluded email. */
  lemma ExclusionIgnoresSender(from1: string, from2: string, subject: string, snippet: string)
    requires AnyIn(Joined(subject, snippet), EXCLUSION_TERMS)
    ensures KeywordRelevanceScore(from1, subject, snippet) == KeywordRelevanceScore(from2, subject, snippet) == 0
  {
  }

  // ---------------------------------------------------------------- keyword classification

  datatype Classification =
    | ApplicationConfirmation
    | InterviewInvitation
    | AssessmentSent
    | OfferMade
    | Rejection
    | AvailabilityRequest
    | ReferralActionRequired
    | FalsePositive

  const REJECTION_TERMS: seq<string> := ["not moving forward", "regret to inform", "rejection"]
  const OFFER_TERMS: seq<string> := ["offer"]
  const AVAILABILITY_TERMS: seq<string> := ["availability", "when are you free", "please share your availability"]
  const ASSESSMENT_TERMS: seq<string> := ["assessment", "coding challenge", "take-home"]
  const INTERVIEW_TERMS: seq<string> := ["interview", "schedule", "invitation"]
  const REFERRAL_TERMS: seq<string> := ["referral", "referred"]
  const CONFIRMATION_TERMS: seq<string> := ["thank you for applying", "application received", "application submitted"]

  /** The categories in the order they are tried, each with its terms. */
  const CATEGORIES: seq<(Classification, seq<string>)> := [
    (Rejection, REJECTION_TERMS),
    (OfferMade, OFFER_TERMS),
    (AvailabilityRequest, AVAILABILITY_TERMS),
    (AssessmentSent, ASSESSMENT_TERMS),
    (InterviewInvitation, INTERVIEW_TERMS),
    (ReferralActionRequired, REFERRAL_TERMS),
    (ApplicationConfirmation, CONFIRMATION_TERMS)]

  /** `classifyByKeywords`: the first category, in order, with a term in subject + " " + snippet. */
  function ClassifyByKeywords(subject: string, snippet: string): Classification
  {
    ClassifyText(ToHaystack(subject + " " + snippet))
  }

  /** The category chain on the lower-cased text. */
  function ClassifyText(text: string): Classification
  {
    if AnyIn(text, REJECTION_TERMS) then Rejection
    else if AnyIn(text, OFFER_TERMS) then OfferMade
    else if AnyIn(text, AVAILABILITY_TERMS) then AvailabilityRequest
    else if AnyIn(text, ASSESSMENT_TERMS) then AssessmentSent
    else if AnyIn(text, INTERVIEW_TERMS) then InterviewInvitation
    else if AnyIn(text, REFERRAL_TERMS) then ReferralActionRequired
    else if AnyIn(text, CONFIRMATION_TERMS) then ApplicationConfirmation
    else FalsePositive
  }

  /** A generic first-match search over a category list. */
  function FirstMatch(text: string, categories: seq<(Classification, seq<string>)>): Classification
  {
    if categories == [] then FalsePositive
    else if AnyIn(text, categories[0].1) then categories[0].0
    else FirstMatch(text, categories[1..])
  }

  /** The first matching category of a list: it matches and no earlier one does. */
  lemma {:induction false} FirstMatchSpec(text: string, categories: seq<(Classification, seq<string>)>)
    requires forall i :: 0 <= i < |categories| ==> categories[i].0 != FalsePositive
    ensures FirstMatch(text, categories) == FalsePositive <==>
      forall i :: 0 <= i < |categories| ==> !AnyIn(text, categories[i].1)
    ensures FirstMatch(text, categories) != FalsePositive ==>
      exists k :: 0 <= k < |categories| && categories[k].0 == FirstMatch(text, categories) &&
        AnyIn(text, categories[k].1) && forall j :: 0 <= j < k ==> !AnyIn(text, categories[j].1)
  {
    if categories != [] {
      FirstMatchSpec(text, categories[1..]);
      if !AnyIn(text, categories[0].1) && FirstMatch(text, categories) != FalsePositive {
        var k :| 0 <= k < |categories[1..]| && categories[1..][k].0 == FirstMatch(text, categories[1..]) &&
          AnyIn(text, categories[1..][k].1) && forall j :: 0 <= j < k ==> !AnyIn(text, categories[1..][j].1);
        assert categories[k + 1] == categories[1..][k];
        assert forall j :: 1 <= j < k + 1 ==> categories[j] == categories[1..][j - 1];
      }
    }
  }

  /** The classification is the first match over the category list, in order. */
  lemma ClassifyIsFirstMatch(subject: string, snippet: string)
    ensures ClassifyByKeywords(subject, snippet) == FirstMatch(ToHaystack(subject + " " + snippet), CATEGORIES)
  {
    ClassifyTextIsFirstMatch(ToHaystack(subject + " " + snippet));
  }

  lemma ClassifyTextIsFirstMatch(text: string)
    ensures ClassifyText(text) == FirstMatch(text, CATEGORIES)
  {
    var c := CATEGORIES;
    FirstMatchOfSeven(text, c);
    assert c[0] == (Rejection, REJECTION_TERMS) && c[1] == (OfferMade, OFFER_TERMS);
    assert c[2] == (AvailabilityRequest, AVAILABILITY_TERMS) && c[3] == (AssessmentSent, ASSESSMENT_TERMS);
    assert c[4] == (InterviewInvitation, INTERVIEW_TERMS) && c[5] == (ReferralActionRequired, REFERRAL_TERMS);
    assert c[6] == (ApplicationConfirmation, CONFIRMATION_TERMS);
  }

  /** `FirstMatch` over seven categories, unfolded. */
  lemma FirstMatchOfSeven(text: string, c: seq<(Classification, seq<string>)>)
    requires |c| == 7
    ensures FirstMatch(text, c) ==
      if AnyIn(text, c[0].1) then c[0].0
      else if AnyIn(text, c[1].1) then c[1].0
      else if AnyIn(text, c[2].1) then c[2].0
      else if AnyIn(text, c[3].1) then c[3].0
      else if AnyIn(text, c[4].1) then c[4].0
      else if AnyIn(text, c[5].1) then c[5].0
      else if AnyIn(text, c[6].1) then c[6].0
      else FalsePositive
  {
    FirstMatchCons(text, c);
    FirstMatchCons(text, c[1..]);
    FirstMatchCons(text, c[2..]);
    FirstMatchCons(text, c[3..]);
    FirstMatchCons(text, c[4..]);
    FirstMatchCons(text, c[5..]);
    FirstMatchCons(text, c[6..]);
    assert c[7..] == [];
  }

  lemma FirstMatchCons(text: string, categories: seq<(Classification, seq<string>)>)
    requires categories != []
    ensures FirstMatch(text, categories) ==
      if AnyIn(text, categories[0].1) then categories[0].0 else FirstMatch(text, categories[1..])
  {
  }

  /**
    * The priority order: a classification other than "False positive" has a
    * term of its own category and none of an earlier one; "False positive"
    * means no category term occurs at all.
    */
  lemma ClassifyByKeywordsSpec(subject: string, snippet: string)
    ensures var text := ToHaystack(subject + " " + snippet);
      ClassifyByKeywords(subject, snippet) == FalsePositive <==>
        forall i :: 0 <= i < |CATEGORIES| ==> !AnyIn(text, CATEGORIES[i].1)
    ensures var text := ToHaystack(subject + " " + snippet);
      ClassifyByKeywords(subject, snippet) != FalsePositive ==>
        exists k :: 0 <= k < |CATEGORIES| && CATEGORIES[k].0 == ClassifyByKeywords(subject, snippet) &&
          AnyIn(text, CATEGORIES[k].1) && forall j :: 0 <= j < k ==> !AnyIn(text, CATEGORIES[j].1)
  {
    ClassifyIsFirstMatch(subject, snippet);
    FirstMatchSpec(ToHaystack(subject + " " + snippet), CATEGORIES);
  }

  // ---------------------------------------------------------------- the policy

  datatype PolicyDecision = PolicyDecision(shouldUseLlm: bool, isRelevant: bool)

  /** `computePolicyDecision`. */
  function ComputePolicyDecision(keywordScore: int): (d: PolicyDecision)
    ensures !(d.shouldUseLlm && d.isRelevant)
  {
    if keywordScore >= HIGH_CONFIDENCE_THRESHOLD then PolicyDecision(false, true)
    else if keywordScore < MIN_THRESHOLD then PolicyDecision(false, false)
    else PolicyDecision(true, false)
  }

  /** Relevant exactly from 95 up; the LLM is consulted exactly from 60 to 94. */
  lemma PolicyDecisionSpec(keywordScore: int)
    ensures ComputePolicyDecision(keywordScore).isRelevant <==> keywordScore >= 95
    ensures ComputePolicyDecision(keywordScore).shouldUseLlm <==> 60 <= keywordScore < 95
  {
  }
}

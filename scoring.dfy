/**
  The results page's scoring: a pure function from the answers map to the
  result record. Only the number of answered questions enters the scores; the
  WISCAR facets and the guidance lists are fixed.
 */
module Scoring {

  import opened Options

  datatype Recommendation = Yes | Maybe | No

  /** The six WISCAR facets, each a percentage. */
  datatype WiscarScores = WiscarScores(
    will: int,
    interest: int,
    skill: int,
    cognitive: int,
    ability: int,
    realWorld: int)

  datatype AssessmentResults = AssessmentResults(
    overallScore: int,
    recommendation: Recommendation,
    psychometricScore: int,
    technicalScore: int,
    wiscarScores: WiscarScores,
    strengths: seq<string>,
    improvements: seq<string>,
    nextSteps: seq<string>,
    topRoles: seq<string>,
    alternativeRoles: seq<string>)

  /** An overall score at or above this is a "Yes". */
  const YesThreshold: int := 75

  /** An overall score below this is a "No". */
  const NoThreshold: int := 50

  // The fixed guidance lists of every result.

  const Strengths: seq<string> := [
    "Strong analytical thinking and problem-solving skills",
    "High curiosity and motivation for cybersecurity",
    "Good stress tolerance under pressure situations",
    "Systematic approach to complex technical challenges" ]

  const Improvements: seq<string> := [
    "Strengthen networking fundamentals and IoT protocols",
    "Gain hands-on experience with security testing tools",
    "Develop deeper understanding of encryption methods",
    "Practice with real IoT devices and environments" ]

  const NextSteps: seq<string> := [
    "Enroll in 'IoT Security Fundamentals' course",
    "Set up a home lab with Raspberry Pi for hands-on practice",
    "Learn tools like Wireshark, Metasploit, and Kali Linux",
    "Join IoT security communities and forums",
    "Consider CompTIA Security+ certification" ]

  const TopRoles: seq<string> := [
    "IoT Security Analyst",
    "Embedded Security Engineer",
    "Penetration Tester (IoT)",
    "Cybersecurity Architect" ]

  const AlternativeRoles: seq<string> := [
    "Network Security Engineer",
    "Cloud Security Analyst",
    "Software Security Developer" ]

  /** `location.state?.answers || {}`: a visit without navigation state scores no answers. */
  function AnswersOrEmpty(state: Option<map<string, string>>): map<string, string>
  {
    match state
    case None => map[]
    case Some(answers) => answers
  }

  /** `Math.min` on integers. */
  function Min(a: int, b: int): (r: int)
    ensures r <= a && r <= b
    ensures r == a || r == b
  {
    if a <= b then a else b
  }

  /** `Math.round`: the integer nearest to `x`, a half rounded up. */
  function Round(x: real): (r: int)
    ensures r as real - 0.5 <= x < r as real + 0.5
  {
    (x + 0.5).Floor
  }

  function PsychometricScore(answerCount: nat): int
  {
    Min(75 + answerCount * 2, 95)
  }

  function TechnicalScore(answerCount: nat): int
  {
    Min(65 + answerCount * 3, 90)
  }

  /** The two dimension scores' mean, rounded as `Math.round` does. */
  function OverallScore(psychometric: int, technical: int): int
  {
    Round((psychometric + technical) as real / 2.0)
  }

  /** The threshold chain: "Yes" first, then "No", "Maybe" when neither applies. */
  function Recommend(overall: int): Recommendation
  {
    if overall >= YesThreshold then Yes
    else if overall < NoThreshold then No
    else Maybe
  }

  /** `calculateResults`: the result record for an answers map. */
  function CalculateResults(answers: map<string, string>): (r: AssessmentResults)
    ensures 75 <= r.psychometricScore <= 95 && 65 <= r.technicalScore <= 90
    ensures r.technicalScore <= r.overallScore <= r.psychometricScore
    ensures r.recommendation != No
    ensures |r.strengths| == 4 && |r.improvements| == 4 && |r.nextSteps| == 5
    ensures |r.topRoles| == 4 && |r.alternativeRoles| == 3
    ensures var w := r.wiscarScores;
      && 0 <= w.will <= 100 && 0 <= w.interest <= 100 && 0 <= w.skill <= 100
      && 0 <= w.cognitive <= 100 && 0 <= w.ability <= 100 && 0 <= w.realWorld <= 100
  {
    var answerCount := |answers|;
    var psychometricScore := PsychometricScore(answerCount);
    var technicalScore := TechnicalScore(answerCount);
    var overallScore := OverallScore(psychometricScore, technicalScore);
    RoundedMean(psychometricScore + technicalScore);
    AssessmentResults(
      overallScore,
      Recommend(overallScore),
      psychometricScore,
      technicalScore,
      WiscarScores(80, 85, 60, 70, 78, 65),
      Strengths,
      Improvements,
      NextSteps,
      TopRoles,
      AlternativeRoles)
  }

  // ---------------------------------------------------------------------------
  // Properties of the scores

  /** Rounding half a whole number up is integer division of the number plus one by two. */
  lemma RoundedMean(sum: int)
    ensures Round(sum as real / 2.0) == (sum + 1) / 2
  {
    var r := Round(sum as real / 2.0);
    var q := (sum + 1) / 2;
    assert 2 * q <= sum + 1 < 2 * q + 2;
    assert (r as real) * 2.0 - 1.0 <= sum as real < (r as real) * 2.0 + 1.0;
    assert 2 * r - 1 <= sum < 2 * r + 1;
  }

  /** The dimension scores and their rounded mean, for any number of answers. */
  lemma ScoreBounds(answerCount: nat)
    ensures 75 <= PsychometricScore(answerCount) <= 95
    ensures 65 <= TechnicalScore(answerCount) <= 90
    ensures TechnicalScore(answerCount) < PsychometricScore(answerCount)
    ensures var o := OverallScore(PsychometricScore(answerCount), TechnicalScore(answerCount));
      TechnicalScore(answerCount) <= o <= PsychometricScore(answerCount) && 70 <= o <= 93
  {
    RoundedMean(PsychometricScore(answerCount) + TechnicalScore(answerCount));
  }

  /** More answers never lower any score. */
  lemma ScoresMonotone(fewer: nat, more: nat)
    requires fewer <= more
    ensures PsychometricScore(fewer) <= PsychometricScore(more)
    ensures TechnicalScore(fewer) <= TechnicalScore(more)
    ensures OverallScore(PsychometricScore(fewer), TechnicalScore(fewer))
         <= OverallScore(PsychometricScore(more), TechnicalScore(more))
  {
    RoundedMean(PsychometricScore(fewer) + TechnicalScore(fewer));
    RoundedMean(PsychometricScore(more) + TechnicalScore(more));
  }

  /** The three recommendation bands. */
  lemma RecommendationBands(overall: int)
    ensures Recommend(overall) == Yes <==> overall >= YesThreshold
    ensures Recommend(overall) == No <==> overall < NoThreshold
    ensures Recommend(overall) == Maybe <==> NoThreshold <= overall < YesThreshold
  {
  }

  /** "Yes" exactly from two answers on; "No" never happens. */
  lemma RecommendationByCount(answers: map<string, string>)
    ensures CalculateResults(answers).recommendation == Yes <==> |answers| >= 2
    ensures CalculateResults(answers).recommendation == Maybe <==> |answers| < 2
  {
    var n := |answers|;
    RoundedMean(PsychometricScore(n) + TechnicalScore(n));
    if n >= 2 {
      ScoresMonotone(2, n);
      RoundedMean(PsychometricScore(2) + TechnicalScore(2));
    }
  }

  /** The scores depend on how many questions were answered, not on which values were chosen. */
  lemma OnlyCountMatters(a: map<string, string>, b: map<string, string>)
    requires |a| == |b|
    ensures CalculateResults(a) == CalculateResults(b)
  {
  }

  /**
    The WISCAR facets and the five guidance lists do not depend on the
    answers: every answers map gets the same facets 80, 85, 60, 70, 78, 65
    and the same lists.
   */
  lemma FixedParts(a: map<string, string>, b: map<string, string>)
    ensures CalculateResults(a).wiscarScores == CalculateResults(b).wiscarScores
      == WiscarScores(80, 85, 60, 70, 78, 65)
    ensures CalculateResults(a).strengths == CalculateResults(b).strengths
    ensures CalculateResults(a).improvements == CalculateResults(b).improvements
    ensures CalculateResults(a).nextSteps == CalculateResults(b).nextSteps
    ensures CalculateResults(a).topRoles == CalculateResults(b).topRoles
    ensures CalculateResults(a).alternativeRoles == CalculateResults(b).alternativeRoles
  {
  }

  /** Without navigation state the results page still scores: 75, 65, 70 and "Maybe". */
  lemma ResultsWithoutState()
    ensures var r := CalculateResults(AnswersOrEmpty(None));
      && r.psychometricScore == 75 && r.technicalScore == 65
      && r.overallScore == 70 && r.recommendation == Maybe
  {
    RoundedMean(140);
  }

  /** From ten answers on every score is at its ceiling: 95, 90, 93 and "Yes". */
  lemma SaturatedResults(answers: map<string, string>)
    requires |answers| >= 10
    ensures var r := CalculateResults(answers);
      && r.psychometricScore == 95 && r.technicalScore == 90
      && r.overallScore == 93 && r.recommendation == Yes
  {
    RoundedMean(185);
  }
}

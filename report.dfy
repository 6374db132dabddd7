/** The rubric report: the six criteria, the overall verdict and the weakest criterion. */
module Report {
  import opened Text
  import opened Content
  import opened Metrics

  /** The criterion-specific details reported beside each score. */
  datatype Details =
    | ContentDetails(salutationScore: nat, salutationType: string, keywordsFound: KeywordResult,
                     flowScore: nat, flowFeedback: string)
    | SpeechDetails(wpm: real, category: string)
    | GrammarDetails(grammar: GrammarResult)
    | VocabularyDetails(vocabulary: VocabularyResult)
    | ClarityDetails(fillers: FillerResult)
    | EngagementDetails(sentiment: SentimentResult)

  datatype Criterion = Criterion(name: string, score: nat, maxScore: nat, details: Details, feedback: string)

  datatype AnalysisResult = AnalysisResult(
    overallScore: nat,
    wordCount: nat,
    sentenceCount: nat,
    durationSeconds: real,
    wpm: real,
    criteria: seq<Criterion>,
    summary: string)

  const ContentName := "Content & Structure"
  const SpeechName := "Speech Rate"
  const GrammarName := "Language & Grammar"
  const VocabularyName := "Vocabulary Richness"
  const ClarityName := "Clarity"
  const EngagementName := "Engagement"

  const CriterionNames: seq<string> := [ContentName, SpeechName, GrammarName, VocabularyName, ClarityName, EngagementName]
  const MaxScores: seq<nat> := [40, 10, 15, 10, 10, 15]

  // The advice that closes each criterion's feedback.
  const GreatPace := "Great pace!"
  const AdjustPace := "Consider adjusting your pace for better clarity."
  const FoundPrefix := "Found "
  const GrammarIssues := " grammar issues. "
  const ExcellentGrammar := "Excellent grammar!"
  const ReviewGrammar := "Review grammar for improvement."
  const GreatVariety := "Great variety!"
  const MoreVariety := "Try using more diverse vocabulary."
  const VeryClear := "Very clear delivery!"
  const FewerFillers := "Reduce filler words for better clarity."
  const GreatEnthusiasm := "Great enthusiasm!"
  const MoreEnergy := "Consider adding more positive energy."

  /** The advice that closes the grammar feedback, chosen at a score of 12. */
  function GrammarAdvice(score: nat): string
  {
    if score >= 12 then ExcellentGrammar else ReviewGrammar
  }

  /** The grammar feedback: it starts with `"Found "` and the number of issues found, and closes
      with the advice for the grammar score. */
  function GrammarFeedback(grammar: GrammarResult): (r: string)
    ensures var d := NatToString(grammar.errorCount);
            |FoundPrefix| + |d| <= |r| && r[..|FoundPrefix|] == FoundPrefix &&
            DigitsValue(r[|FoundPrefix|..|FoundPrefix| + |d|]) == grammar.errorCount
    ensures var advice := GrammarAdvice(grammar.score); |advice| <= |r| && r[|r| - |advice|..] == advice
  {
    var d := NatToString(grammar.errorCount);
    var advice := GrammarAdvice(grammar.score);
    NatToStringRoundTrip(grammar.errorCount);
    ReadFour(FoundPrefix, d, GrammarIssues, advice);
    FoundPrefix + d + GrammarIssues + advice
  }

  /** The six criteria in report order, each with its name, score, maximum, details and feedback. */
  function Criteria(salutation: SalutationResult, keywords: KeywordResult, flow: FlowResult,
                    contentFeedback: string, wpm: real, speech: SpeechResult, grammar: GrammarResult,
                    grammarFeedback: string, vocabulary: VocabularyResult, fillers: FillerResult,
                    sentiment: SentimentResult)
    : (r: seq<Criterion>)
    ensures |r| == 6 && PositiveMaxima(r)
    ensures forall k :: 0 <= k < 6 ==> r[k].name == CriterionNames[k] && r[k].maxScore == MaxScores[k]
    ensures r[0].score == salutation.score + keywords.score + flow.score && r[0].feedback == contentFeedback
    ensures r[1].score == speech.score && r[2].score == grammar.score && r[3].score == vocabulary.score
    ensures r[2].feedback == grammarFeedback
    ensures r[4].score == fillers.score && r[5].score == sentiment.score
  {
    [
      Criterion(ContentName, salutation.score + keywords.score + flow.score, 40,
                ContentDetails(salutation.score, salutation.tier.Label(), keywords, flow.score, flow.message),
                contentFeedback),
      Criterion(SpeechName, speech.score, 10, SpeechDetails(wpm, speech.category),
                if speech.score >= 8 then GreatPace else AdjustPace),
      Criterion(GrammarName, grammar.score, 15, GrammarDetails(grammar), grammarFeedback),
      Criterion(VocabularyName, vocabulary.score, 10, VocabularyDetails(vocabulary),
                if vocabulary.score >= 8 then GreatVariety else MoreVariety),
      Criterion(ClarityName, fillers.score, 10, ClarityDetails(fillers),
                if fillers.score >= 8 then VeryClear else FewerFillers),
      Criterion(EngagementName, sentiment.score, 15, EngagementDetails(sentiment),
                if sentiment.score >= 12 then GreatEnthusiasm else MoreEnergy)
    ]
  }

  /** The share of its maximum that a criterion earned. */
  function Ratio(c: Criterion): real
    requires c.maxScore > 0
  {
    c.score as real / c.maxScore as real
  }

  predicate PositiveMaxima(cs: seq<Criterion>)
  {
    forall k :: 0 <= k < |cs| ==> cs[k].maxScore > 0
  }

  /** Among the first `n` criteria, criterion `i` has the smallest ratio, and every criterion
      before it a larger one. */
  predicate FirstMinimalAmong(cs: seq<Criterion>, n: nat, i: nat)
    requires PositiveMaxima(cs) && i < n <= |cs|
  {
    (forall k :: 0 <= k < n ==> Ratio(cs[i]) <= Ratio(cs[k])) &&
    (forall k :: 0 <= k < i ==> Ratio(cs[k]) > Ratio(cs[i]))
  }

  /** Criterion `i` has the smallest ratio, and every criterion before it a larger one. */
  predicate FirstMinimal(cs: seq<Criterion>, i: nat)
    requires PositiveMaxima(cs) && i < |cs|
  {
    FirstMinimalAmong(cs, |cs|, i)
  }

  /** `min` over the first `n` criteria by ratio: it scans them in order and moves to a later
      criterion only when its ratio is strictly smaller. */
  function WeakestAmong(cs: seq<Criterion>, n: nat): (r: nat)
    requires 0 < n <= |cs| && PositiveMaxima(cs)
    ensures r < n && FirstMinimalAmong(cs, n, r)
  {
    if n == 1 then 0
    else
      var i := WeakestAmong(cs, n - 1);
      if Ratio(cs[n - 1]) < Ratio(cs[i]) then n - 1 else i
  }

  /** `min(cs, key=ratio)`: the index of the first criterion whose ratio is smallest. */
  function WeakestIndex(cs: seq<Criterion>): (r: nat)
    requires cs != [] && PositiveMaxima(cs)
    ensures r < |cs| && FirstMinimal(cs, r)
  {
    WeakestAmong(cs, |cs|)
  }

  const ExcellentVerdict := "Excellent self-introduction with strong communication skills."
  const GoodVerdict := "Good self-introduction with room for minor improvements."
  const DecentVerdict := "Decent introduction but needs improvement in several areas."
  const WeakVerdict := "Significant improvement needed in communication skills."

  /** The verdict tier of an overall score. */
  function OverallVerdict(score: nat): (r: string)
    ensures r == ExcellentVerdict <==> score >= 85
    ensures r == GoodVerdict <==> 70 <= score < 85
    ensures r == DecentVerdict <==> 55 <= score < 70
    ensures r == WeakVerdict <==> score < 55
  {
    if score >= 85 then ExcellentVerdict
    else if score >= 70 then GoodVerdict
    else if score >= 55 then DecentVerdict
    else WeakVerdict
  }

  /** The verdict followed by the name of the weakest criterion. */
  function GenerateSummary(score: nat, cs: seq<Criterion>): (r: string)
    requires cs != [] && PositiveMaxima(cs)
    ensures exists k :: 0 <= k < |cs| && FirstMinimal(cs, k) &&
              r == OverallVerdict(score) + " Focus on improving: " + cs[k].name + " for better results."
  {
    var weakest := cs[WeakestIndex(cs)];
    OverallVerdict(score) + " Focus on improving: " + weakest.name + " for better results."
  }

  function SumScores(cs: seq<Criterion>): nat
  {
    if cs == [] then 0 else cs[0].score + SumScores(cs[1..])
  }

  function SumMaxima(cs: seq<Criterion>): nat
  {
    if cs == [] then 0 else cs[0].maxScore + SumMaxima(cs[1..])
  }

  lemma SumSix(cs: seq<Criterion>)
    requires |cs| == 6
    ensures SumScores(cs) == cs[0].score + cs[1].score + cs[2].score + cs[3].score + cs[4].score + cs[5].score
    ensures SumMaxima(cs) == cs[0].maxScore + cs[1].maxScore + cs[2].maxScore + cs[3].maxScore + cs[4].maxScore + cs[5].maxScore
  {
    assert cs[5..][1..] == [];
    assert SumScores(cs[5..]) == cs[5].score && SumMaxima(cs[5..]) == cs[5].maxScore;
    assert cs[4..][1..] == cs[5..];
    assert SumScores(cs[4..]) == cs[4].score + SumScores(cs[5..]) && SumMaxima(cs[4..]) == cs[4].maxScore + SumMaxima(cs[5..]);
    assert cs[3..][1..] == cs[4..];
    assert SumScores(cs[3..]) == cs[3].score + SumScores(cs[4..]) && SumMaxima(cs[3..]) == cs[3].maxScore + SumMaxima(cs[4..]);
    assert cs[2..][1..] == cs[3..];
    assert SumScores(cs[2..]) == cs[2].score + SumScores(cs[3..]) && SumMaxima(cs[2..]) == cs[2].maxScore + SumMaxima(cs[3..]);
    assert cs[1..][1..] == cs[2..];
    assert SumScores(cs[1..]) == cs[1].score + SumScores(cs[2..]) && SumMaxima(cs[1..]) == cs[1].maxScore + SumMaxima(cs[2..]);
  }

  /** Scores within their maxima add up to at most the sum of the maxima. */
  lemma {:induction false} SumWithinMaxima(cs: seq<Criterion>)
    requires forall k :: 0 <= k < |cs| ==> cs[k].score <= cs[k].maxScore
    ensures SumScores(cs) <= SumMaxima(cs)
  {
    if cs != [] {
      assert forall k :: 1 <= k < |cs| ==> cs[1..][k - 1] == cs[k];
      SumWithinMaxima(cs[1..]);
    }
  }
  /** The report: overall score, counts, pace, the six criteria and the summary. */
  function BuildReport(wordCount: nat, sentenceCount: nat, durationSeconds: real, wpm: real,
                       salutation: SalutationResult, keywords: KeywordResult, flow: FlowResult,
                       contentFeedback: string, speech: SpeechResult, grammar: GrammarResult,
                       vocabulary: VocabularyResult, fillers: FillerResult, sentiment: SentimentResult)
    : (r: AnalysisResult)
    ensures |r.criteria| == 6 && r.overallScore == SumScores(r.criteria)
    ensures r.wordCount == wordCount && r.sentenceCount == sentenceCount
    ensures r.durationSeconds == durationSeconds && r.wpm == wpm
  {
    var overall := salutation.score + keywords.score + flow.score + speech.score + grammar.score +
                   vocabulary.score + fillers.score + sentiment.score;
    var criteria := Criteria(salutation, keywords, flow, contentFeedback, wpm, speech, grammar,
                             GrammarFeedback(grammar), vocabulary, fillers, sentiment);
    SumSix(criteria);
    AnalysisResult(overall, wordCount, sentenceCount, durationSeconds, wpm, criteria, GenerateSummary(overall, criteria))
  }

  /** With every component within its rubric maximum, the report has the six criteria in rubric
      order, each within its maximum, and the overall score is their sum, at most 100. */
  lemma ReportWithinRubric(wordCount: nat, sentenceCount: nat, durationSeconds: real, wpm: real,
                           salutation: SalutationResult, keywords: KeywordResult, flow: FlowResult,
                           contentFeedback: string, speech: SpeechResult, grammar: GrammarResult,
                           vocabulary: VocabularyResult, fillers: FillerResult, sentiment: SentimentResult)
    requires salutation.score + keywords.score + flow.score <= 40
    requires speech.score <= 10 && grammar.score <= 15 && vocabulary.score <= 10
    requires fillers.score <= 10 && sentiment.score <= 15
    ensures var r := BuildReport(wordCount, sentenceCount, durationSeconds, wpm, salutation, keywords, flow,
                                 contentFeedback, speech, grammar, vocabulary, fillers, sentiment);
            |r.criteria| == 6 &&
            (forall k :: 0 <= k < 6 ==>
               r.criteria[k].name == CriterionNames[k] && r.criteria[k].maxScore == MaxScores[k] &&
               r.criteria[k].score <= r.criteria[k].maxScore) &&
            r.overallScore == SumScores(r.criteria) && r.overallScore <= SumMaxima(r.criteria) == 100
  {
    var r := BuildReport(wordCount, sentenceCount, durationSeconds, wpm, salutation, keywords, flow,
                         contentFeedback, speech, grammar, vocabulary, fillers, sentiment);
    var cs := r.criteria;
    assert forall k :: 0 <= k < 6 ==> cs[k].score <= cs[k].maxScore;
    SumWithinMaxima(cs);
    assert SumMaxima(cs) == 100 by {
      SumSix(cs);
    }
  }

  /** The summary gives the verdict for the overall score and names the first criterion with
      the smallest share of its maximum. */
  lemma ReportSummary(wordCount: nat, sentenceCount: nat, durationSeconds: real, wpm: real,
                      salutation: SalutationResult, keywords: KeywordResult, flow: FlowResult,
                      contentFeedback: string, speech: SpeechResult, grammar: GrammarResult,
                      vocabulary: VocabularyResult, fillers: FillerResult, sentiment: SentimentResult)
    ensures var r := BuildReport(wordCount, sentenceCount, durationSeconds, wpm, salutation, keywords, flow,
                                 contentFeedback, speech, grammar, vocabulary, fillers, sentiment);
            PositiveMaxima(r.criteria) &&
            exists k :: 0 <= k < 6 && FirstMinimal(r.criteria, k) &&
              r.summary == OverallVerdict(r.overallScore) + " Focus on improving: " + CriterionNames[k] + " for better results."
  {
  }
}

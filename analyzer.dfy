/** The speech analyzer: it reads a transcript once and scores it on six criteria. */
module Analyzer {
  import opened Text
  import opened Transcript
  import opened Content
  import opened Metrics
  import opened Report

  class SpeechAnalyzer {
    const transcript: string
    const durationSeconds: real
    const words: seq<string>
    const wordCount: nat
    const sentences: seq<string>
    const sentenceCount: nat
    const fillerWords: seq<string>

    /** The fields are the transcript model of `transcript`. */
    predicate Valid()
    {
      words == Words(transcript) && wordCount == |words| &&
      sentences == Sentences(transcript) && sentenceCount == |sentences| &&
      NonEmptyAll(fillerWords)
    }

    /** Strips the raw transcript and splits it into words and sentences. */
    constructor (raw: string, duration: real := 52.0)
      ensures Valid()
      ensures transcript == Strip(raw) && durationSeconds == duration && fillerWords == FillerWords
      ensures forall k :: 0 <= k < sentenceCount ==> sentences[k] != [] && NoneOf(sentences[k], Terminator)
      ensures All(raw, Space) ==> wordCount == 0 && sentenceCount == 0
    {
      var text := Strip(raw);
      var ws := Words(text);
      var ss := Sentences(text);
      transcript := text;
      durationSeconds := duration;
      words := ws;
      wordCount := |ws|;
      sentences := ss;
      sentenceCount := |ss|;
      fillerWords := FillerWords;
      if All(raw, Space) {
        BlankInput(raw);
      }
    }

    /** One pass of `analyze_keywords`: checks every category in order, collecting the names of
        those mentioned in `text` and `points` for each. */
    static method ScanCategories(text: string, categories: seq<Category>, points: nat)
      returns (found: seq<string>, score: nat)
      ensures found == Matched(text, categories) && score == points * |found|
    {
      found := [];
      score := 0;
      for i := 0 to |categories|
        invariant found == Matched(text, categories[..i])
        invariant score == points * |found|
      {
        var category := categories[i];
        assert categories[..i + 1][..i] == categories[..i];
        if ContainsAny(text, category.keywords) {
          assert points * (|found| + 1) == points * |found| + points;
          found := found + [category.name];
          score := score + points;
        }
      }
      assert categories[..|categories|] == categories;
    }

    /** The must-have pass, then the good-to-have pass, then the cap on their total. */
    method AnalyzeKeywords() returns (r: KeywordResult)
      requires Valid()
      ensures r == Keywords(Lower(transcript))
    {
      var text := Lower(transcript);
      var mustHaveFound, mustHaveScore := ScanCategories(text, MustHave, MustHavePoints);
      var goodToHaveFound, goodToHaveScore := ScanCategories(text, GoodToHave, GoodToHavePoints);
      var total := mustHaveScore + goodToHaveScore;
      if total > KeywordCap {
        total := KeywordCap;
      }
      r := KeywordResult(mustHaveFound, goodToHaveFound, total);
    }

    /** Counts every filler in order, collecting a `"filler (count)"` entry for each that occurs,
        and scores the rate per hundred words. */
    method AnalyzeFillerWords() returns (r: FillerResult)
      requires Valid()
      ensures r == Fillers(Lower(transcript), fillerWords, wordCount)
    {
      var text := Lower(transcript);
      var fillerCount: nat := 0;
      var found: seq<string> := [];
      for i := 0 to |fillerWords|
        invariant fillerCount == FillerCount(text, fillerWords[..i])
        invariant found == FillerFound(text, fillerWords[..i])
      {
        var filler := fillerWords[i];
        var count: nat;
        if ' ' in filler {
          count := CountOccurrences(text, filler);
        } else {
          count := CountWholeWord(text, filler, false);
        }
        if count > 0 {
          fillerCount := fillerCount + count;
          found := found + [filler + " (" + NatToString(count) + ")"];
        }
        assert fillerWords[..i + 1][..i] == fillerWords[..i];
      }
      assert fillerWords[..|fillerWords|] == fillerWords;
      var rate := if wordCount > 0 then PerHundred(fillerCount, wordCount) else 0.0;
      r := FillerResult(fillerCount, rate, found, FillerScore(rate));
    }

    /** The report `analyze` builds from the transcript model, the number of issues the
        grammar provider reports (`None` when it fails) and the sentiment provider's polarity. */
    function Evaluation(grammarMatches: Option<nat>, polarity: real): (r: AnalysisResult)
      requires Valid()
      ensures r.wordCount == |words| && r.sentenceCount == |sentences| && r.durationSeconds == durationSeconds
      ensures |r.criteria| == 6 && r.overallScore == SumScores(r.criteria)
    {
      var wpm := WordsPerMinute(wordCount, durationSeconds);
      var salutation := AnalyzeSalutation(sentences);
      var keywords := Keywords(Lower(transcript));
      var flow := AnalyzeFlow(sentences);
      BuildReport(wordCount, sentenceCount, durationSeconds, wpm, salutation, keywords, flow,
                  ContentFeedback(salutation.score, keywords, flow.score), SpeechRate(wpm),
                  AnalyzeGrammar(grammarMatches, wordCount), AnalyzeVocabulary(words),
                  Fillers(Lower(transcript), fillerWords, wordCount), AnalyzeSentiment(polarity))
    }

    /** The full report: it runs every analysis once, in the order of the rubric. */
    method Analyze(grammarMatches: Option<nat>, polarity: real) returns (r: AnalysisResult)
      requires Valid()
      ensures r == Evaluation(grammarMatches, polarity)
    {
      var wpm := WordsPerMinute(wordCount, durationSeconds);

      var salutation := AnalyzeSalutation(sentences);
      var keywords := AnalyzeKeywords();
      var flow := AnalyzeFlow(sentences);

      var speech := SpeechRate(wpm);
      var grammar := AnalyzeGrammar(grammarMatches, wordCount);
      var vocabulary := AnalyzeVocabulary(words);
      var fillers := AnalyzeFillerWords();
      var sentiment := AnalyzeSentiment(polarity);

      var contentFeedback := GenerateContentFeedback(salutation.score, keywords, flow.score);
      r := BuildReport(wordCount, sentenceCount, durationSeconds, wpm, salutation, keywords, flow, contentFeedback,
                       speech, grammar, vocabulary, fillers, sentiment);
    }

    /** Each criterion scores the transcript with its own analysis, and the report carries the
        transcript's counts, its duration and its pace. */
    lemma EvaluationScores(grammarMatches: Option<nat>, polarity: real)
      requires Valid()
      ensures var r := Evaluation(grammarMatches, polarity);
              |r.criteria| == 6 &&
              r.criteria[0].score ==
                AnalyzeSalutation(sentences).score + Keywords(Lower(transcript)).score + AnalyzeFlow(sentences).score &&
              r.criteria[1].score == SpeechRate(r.wpm).score &&
              r.criteria[2].score == AnalyzeGrammar(grammarMatches, wordCount).score &&
              r.criteria[3].score == AnalyzeVocabulary(words).score &&
              r.criteria[4].score == Fillers(Lower(transcript), fillerWords, wordCount).score &&
              r.criteria[5].score == AnalyzeSentiment(polarity).score &&
              r.wpm == WordsPerMinute(wordCount, durationSeconds) &&
              r.wordCount == wordCount && r.sentenceCount == sentenceCount && r.durationSeconds == durationSeconds
    {
    }

    /** The content score stays within its 40 points. */
    lemma ContentWithinMaximum()
      requires Valid()
      ensures AnalyzeSalutation(sentences).score + Keywords(Lower(transcript)).score + AnalyzeFlow(sentences).score <= 40
    {
    }

    /** Every delivery score stays within its share of the rubric. */
    lemma DeliveryWithinMaxima(grammarMatches: Option<nat>, polarity: real)
      requires Valid()
      ensures SpeechRate(WordsPerMinute(wordCount, durationSeconds)).score <= 10
      ensures AnalyzeGrammar(grammarMatches, wordCount).score <= 15 && AnalyzeVocabulary(words).score <= 10
      ensures Fillers(Lower(transcript), fillerWords, wordCount).score <= 10 && AnalyzeSentiment(polarity).score <= 15
    {
    }

    /** The report has the six criteria in rubric order, each within its maximum, and the
        overall score is their sum, at most 100. */
    lemma EvaluationWithinRubric(grammarMatches: Option<nat>, polarity: real)
      requires Valid()
      ensures var r := Evaluation(grammarMatches, polarity);
              |r.criteria| == 6 &&
              (forall k :: 0 <= k < 6 ==>
                 r.criteria[k].name == CriterionNames[k] && r.criteria[k].maxScore == MaxScores[k] &&
                 r.criteria[k].score <= r.criteria[k].maxScore) &&
              r.overallScore == SumScores(r.criteria) && r.overallScore <= 100
    {
      var wpm := WordsPerMinute(wordCount, durationSeconds);
      var salutation := AnalyzeSalutation(sentences);
      var keywords := Keywords(Lower(transcript));
      var flow := AnalyzeFlow(sentences);
      ContentWithinMaximum();
      DeliveryWithinMaxima(grammarMatches, polarity);
      ReportWithinRubric(wordCount, sentenceCount, durationSeconds, wpm, salutation, keywords, flow,
                         ContentFeedback(salutation.score, keywords, flow.score), SpeechRate(wpm), AnalyzeGrammar(grammarMatches, wordCount), AnalyzeVocabulary(words),
                         Fillers(Lower(transcript), fillerWords, wordCount), AnalyzeSentiment(polarity));
    }

    /** The summary gives the verdict for the overall score and names the first criterion with
        the smallest share of its maximum. */
    lemma EvaluationSummary(grammarMatches: Option<nat>, polarity: real)
      requires Valid()
      ensures var r := Evaluation(grammarMatches, polarity);
              PositiveMaxima(r.criteria) &&
              exists k :: 0 <= k < 6 && FirstMinimal(r.criteria, k) &&
                r.summary == OverallVerdict(r.overallScore) + " Focus on improving: " + CriterionNames[k] + " for better results."
    {
      var wpm := WordsPerMinute(wordCount, durationSeconds);
      var salutation := AnalyzeSalutation(sentences);
      var keywords := Keywords(Lower(transcript));
      var flow := AnalyzeFlow(sentences);
      ReportSummary(wordCount, sentenceCount, durationSeconds, wpm, salutation, keywords, flow,
                    ContentFeedback(salutation.score, keywords, flow.score), SpeechRate(wpm),
                    AnalyzeGrammar(grammarMatches, wordCount), AnalyzeVocabulary(words),
                    Fillers(Lower(transcript), fillerWords, wordCount), AnalyzeSentiment(polarity));
    }
  }
}

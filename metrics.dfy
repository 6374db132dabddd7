/** The delivery criteria: grammar, vocabulary richness, filler words (clarity),
    sentiment (engagement) and speech rate. */
module Metrics {
  import opened Text
  import opened Transcript

  datatype Option<T> = None | Some(value: T)

  /** `n / d * 100` for a positive `d`, written as the source computes it. */
  function PerHundred(n: nat, d: nat): real
    requires d > 0
  {
    (n as real / d as real) * 100.0
  }

  /** A larger count gives a larger rate over the same number of words. */
  lemma PerHundredMonotone(n1: nat, n2: nat, d: nat)
    requires d > 0 && n1 <= n2
    ensures PerHundred(n1, d) <= PerHundred(n2, d)
  {
    var q1 := n1 as real / d as real;
    var q2 := n2 as real / d as real;
    assert q2 - q1 == (n2 - n1) as real / d as real;
  }

  /** `PerHundred(n, d) <= limit` is the integer comparison `100 * n <= limit * d`. */
  lemma PerHundredAtMost(n: nat, d: nat, limit: real)
    requires d > 0
    ensures PerHundred(n, d) <= limit <==> (100 * n) as real <= limit * d as real
  {
    var q := n as real / d as real;
    assert q * d as real == n as real;
    assert PerHundred(n, d) * d as real == (100 * n) as real;
  }

  // ---------------------------------------------------------------- Grammar

  datatype GrammarResult = GrammarResult(errorCount: nat, errorsPer100: real, ratio: real, score: nat)

  /** The grammar score of a ratio, in steps of 3 from 3 to 15. */
  function GrammarScore(ratio: real): (r: nat)
    ensures r in {3, 6, 9, 12, 15}
  {
    if ratio >= 0.9 then 15
    else if ratio >= 0.7 then 12
    else if ratio >= 0.5 then 9
    else if ratio >= 0.3 then 6
    else 3
  }

  /** The grammar criterion for `matches` issues reported in a text of `wordCount` words;
      `None` is a provider failure, which falls back to full marks. */
  function AnalyzeGrammar(matches: Option<nat>, wordCount: nat): (r: GrammarResult)
    ensures 0.0 <= r.ratio <= 1.0
    ensures r.score in {3, 6, 9, 12, 15}
    ensures matches.None? ==> r == GrammarResult(0, 0.0, 1.0, 15)
    ensures matches.Some? ==> r.errorCount == matches.value
    ensures wordCount == 0 ==> r.ratio == 1.0 && r.score == 15
    ensures matches.Some? && wordCount > 0 ==> (r.score == 15 <==> 100 * matches.value <= wordCount)
  {
    match matches
    case None => GrammarResult(0, 0.0, 1.0, 15)
    case Some(n) =>
      var per100 := if wordCount > 0 then PerHundred(n, wordCount) else 0.0;
      var capped := if per100 / 10.0 < 1.0 then per100 / 10.0 else 1.0;
      var ratio := if 1.0 - capped > 0.0 then 1.0 - capped else 0.0;
      if wordCount > 0 then
        PerHundredAtMost(n, wordCount, 1.0);
        GrammarResult(n, per100, ratio, GrammarScore(ratio))
      else
        GrammarResult(n, per100, ratio, GrammarScore(ratio))
  }

  /** More grammar issues in the same text length never raise the score. */
  lemma GrammarMonotone(n1: nat, n2: nat, wordCount: nat)
    requires n1 <= n2
    ensures AnalyzeGrammar(Some(n2), wordCount).score <= AnalyzeGrammar(Some(n1), wordCount).score
  {
    if wordCount > 0 {
      PerHundredMonotone(n1, n2, wordCount);
    }
  }

  // ---------------------------------------------------------------- Vocabulary

  datatype VocabularyResult = VocabularyResult(distinctWords: nat, totalWords: nat, ttr: real, score: nat)

  /** `re.sub(r'[^\w\s]', '', w)`: only word characters and whitespace survive. */
  function CleanWord(w: string): (r: string)
    ensures |r| <= |w|
    ensures forall i :: 0 <= i < |r| ==> IsWordChar(r[i]) || IsSpace(r[i])
  {
    if w == [] then []
    else
      var rest := CleanWord(w[1..]);
      if IsWordChar(w[0]) || IsSpace(w[0]) then [w[0]] + rest else rest
  }

  /** Cleaning a word made of word characters changes nothing. */
  lemma {:induction false} CleanWordKeepsPlainWords(w: string)
    requires forall i :: 0 <= i < |w| ==> IsWordChar(w[i])
    ensures CleanWord(w) == w
  {
    if w != [] {
      CleanWordKeepsPlainWords(w[1..]);
    }
  }

  /** A single character survives cleaning exactly when it is a word character or whitespace. */
  lemma CleanWordChar(c: char)
    ensures CleanWord([c]) == (if IsWordChar(c) || IsSpace(c) then [c] else [])
  {
    assert [c][1..] == [];
  }

  /** Cleaning works character by character: cleaning a concatenation cleans each part. */
  lemma {:induction false} CleanWordAppend(a: string, b: string)
    ensures CleanWord(a + b) == CleanWord(a) + CleanWord(b)
  {
    if a == [] {
      assert a + b == b;
    } else {
      assert (a + b)[0] == a[0];
      assert (a + b)[1..] == a[1..] + b;
      CleanWordAppend(a[1..], b);
    }
  }

  /** The set of different strings in `ws`. */
  function Distinct(ws: seq<string>): set<string>
  {
    set i | 0 <= i < |ws| :: ws[i]
  }

  /** A non-empty list has at least one and at most as many different strings as entries. */
  lemma {:induction false} DistinctBounds(ws: seq<string>)
    ensures |Distinct(ws)| <= |ws|
    ensures ws != [] ==> |Distinct(ws)| >= 1
  {
    if ws != [] {
      var init := ws[..|ws| - 1];
      DistinctBounds(init);
      assert Distinct(ws) == Distinct(init) + {ws[|ws| - 1]} by {
        forall i | 0 <= i < |init| ensures init[i] == ws[i] { }
      }
      assert ws[|ws| - 1] in Distinct(ws);
    }
  }

  /** Pairwise different strings are all counted. */
  lemma {:induction false} DistinctAllDifferent(ws: seq<string>)
    requires forall i, j :: 0 <= i < j < |ws| ==> ws[i] != ws[j]
    ensures |Distinct(ws)| == |ws|
  {
    if ws != [] {
      var init := ws[..|ws| - 1];
      DistinctAllDifferent(init);
      assert Distinct(ws) == Distinct(init) + {ws[|ws| - 1]} by {
        forall i | 0 <= i < |init| ensures init[i] == ws[i] { }
      }
      assert ws[|ws| - 1] !in Distinct(init);
    }
  }

  /** The vocabulary score of a type-token ratio. */
  function VocabularyScore(ttr: real): (r: nat)
    ensures r in {2, 4, 6, 8, 10}
  {
    if ttr > 0.9 then 10
    else if ttr >= 0.7 then 8
    else if ttr >= 0.5 then 6
    else if ttr >= 0.3 then 4
    else 2
  }

  function CleanWords(words: seq<string>): seq<string>
  {
    seq(|words|, i requires 0 <= i < |words| => CleanWord(words[i]))
  }

  /** The type-token ratio of the (lower-cased) words, after cleaning each word. */
  function AnalyzeVocabulary(words: seq<string>): (r: VocabularyResult)
    ensures words == [] ==> r == VocabularyResult(0, 0, 0.0, 0)
    ensures words != [] ==>
              r.totalWords == |words| && 1 <= r.distinctWords <= r.totalWords &&
              0.0 < r.ttr <= 1.0 && r.score in {2, 4, 6, 8, 10}
  {
    if words == [] then VocabularyResult(0, 0, 0.0, 0)
    else
      var distinct := |Distinct(CleanWords(words))|;
      DistinctBounds(CleanWords(words));
      var ttr := distinct as real / |words| as real;
      VocabularyResult(distinct, |words|, ttr, VocabularyScore(ttr))
  }

  /** Words that stay different after cleaning earn full marks. */
  lemma AllDifferentFullMarks(words: seq<string>)
    requires words != []
    requires forall i, j :: 0 <= i < j < |words| ==> CleanWord(words[i]) != CleanWord(words[j])
    ensures AnalyzeVocabulary(words).score == 10
  {
    DistinctAllDifferent(CleanWords(words));
    var n := |words| as real;
    assert |Distinct(CleanWords(words))| as real / n == n / n == 1.0;
  }

  // ---------------------------------------------------------------- Filler words

  const FillerWords: seq<string> := [
    "um", "uh", "like", "you know", "so", "actually", "basically",
    "right", "i mean", "well", "kinda", "sort of", "okay", "hmm", "ah"
  ]

  predicate NonEmptyAll(fs: seq<string>)
  {
    forall k :: 0 <= k < |fs| ==> fs[k] != []
  }

  /** How often one filler occurs: phrases with a space are counted as plain substrings,
      single words only between word boundaries. */
  function FillerOccurrences(text: string, filler: string): (r: nat)
    requires filler != []
    ensures r > 0 ==> Contains(text, filler)
  {
    if ' ' in filler then CountOccurrences(text, filler) else CountWholeWord(text, filler, false)
  }

  /** The total number of filler occurrences for the fillers `fs`: every filler's own count is
      part of it. */
  function FillerCount(text: string, fs: seq<string>): (r: nat)
    requires NonEmptyAll(fs)
    ensures forall k :: 0 <= k < |fs| ==> FillerOccurrences(text, fs[k]) <= r
  {
    if fs == [] then 0
    else
      var init := fs[..|fs| - 1];
      assert forall k :: 0 <= k < |init| ==> init[k] == fs[k];
      FillerCount(text, init) + FillerOccurrences(text, fs[|fs| - 1])
  }

  /** The entry `"filler (count)"` reported for a filler that occurs. */
  function FillerEntry(filler: string, count: nat): string
  {
    filler + " (" + NatToString(count) + ")"
  }

  /** The entries for the fillers of `fs` that occur, in list order: at most one per filler. */
  function FillerFound(text: string, fs: seq<string>): (r: seq<string>)
    requires NonEmptyAll(fs)
    ensures |r| <= |fs|
  {
    if fs == [] then []
    else
      var f := fs[|fs| - 1];
      var n := FillerOccurrences(text, f);
      FillerFound(text, fs[..|fs| - 1]) + (if n > 0 then [FillerEntry(f, n)] else [])
  }

  /** Entry `e` is reported for some filler of `fs` that occurs, with its count. */
  predicate EntryOf(text: string, fs: seq<string>, e: string)
    requires NonEmptyAll(fs)
  {
    exists k :: 0 <= k < |fs| && FillerOccurrences(text, fs[k]) > 0 && e == FillerEntry(fs[k], FillerOccurrences(text, fs[k]))
  }

  /** Every reported entry names a filler of the list that occurs, with its count. */
  lemma {:induction false} FillerFoundEntries(text: string, fs: seq<string>)
    requires NonEmptyAll(fs)
    ensures forall j :: 0 <= j < |FillerFound(text, fs)| ==> EntryOf(text, fs, FillerFound(text, fs)[j])
  {
    if fs != [] {
      var init := fs[..|fs| - 1];
      var front := FillerFound(text, init);
      var r := FillerFound(text, fs);
      FillerFoundEntries(text, init);
      forall j | 0 <= j < |r| ensures EntryOf(text, fs, r[j]) {
        if j < |front| {
          assert r[j] == front[j];
          assert EntryOf(text, init, front[j]);
          var k :| 0 <= k < |init| && FillerOccurrences(text, init[k]) > 0 &&
                   front[j] == FillerEntry(init[k], FillerOccurrences(text, init[k]));
          assert init[k] == fs[k];
        } else {
          var k := |fs| - 1;
          assert r[j] == FillerEntry(fs[k], FillerOccurrences(text, fs[k]));
        }
      }
    }
  }

  /** Every listed filler that occurs is reported, with its count. */
  lemma {:induction false} FillerFoundComplete(text: string, fs: seq<string>, k: nat)
    requires NonEmptyAll(fs)
    requires k < |fs| && FillerOccurrences(text, fs[k]) > 0
    ensures FillerEntry(fs[k], FillerOccurrences(text, fs[k])) in FillerFound(text, fs)
  {
    var init := fs[..|fs| - 1];
    var n := FillerOccurrences(text, fs[|fs| - 1]);
    assert FillerFound(text, fs) == FillerFound(text, init) + (if n > 0 then [FillerEntry(fs[|fs| - 1], n)] else []);
    if k < |fs| - 1 {
      assert init[k] == fs[k];
      FillerFoundComplete(text, init, k);
    }
  }

  /** The total over two lists joined is the sum of their totals. */
  lemma {:induction false} FillerCountAppend(text: string, fs: seq<string>, gs: seq<string>)
    requires NonEmptyAll(fs) && NonEmptyAll(gs)
    ensures NonEmptyAll(fs + gs)
    ensures FillerCount(text, fs + gs) == FillerCount(text, fs) + FillerCount(text, gs)
  {
    if gs == [] {
      assert fs + gs == fs;
    } else {
      var init := gs[..|gs| - 1];
      assert (fs + gs)[..|fs + gs| - 1] == fs + init;
      assert (fs + gs)[|fs + gs| - 1] == gs[|gs| - 1];
      FillerCountAppend(text, fs, init);
    }
  }

  /** No filler is counted exactly when none of them occurs. */
  lemma {:induction false} FillerCountZero(text: string, fs: seq<string>)
    requires NonEmptyAll(fs)
    ensures FillerCount(text, fs) == 0 <==> forall k :: 0 <= k < |fs| ==> FillerOccurrences(text, fs[k]) == 0
    ensures FillerCount(text, fs) == 0 <==> FillerFound(text, fs) == []
  {
    if fs != [] {
      var init := fs[..|fs| - 1];
      assert forall k :: 0 <= k < |init| ==> init[k] == fs[k];
      FillerCountZero(text, init);
    }
  }

  /** A text holding none of the fillers as a substring has no filler. */
  lemma NoFillerText(text: string, fs: seq<string>)
    requires NonEmptyAll(fs)
    requires forall k :: 0 <= k < |fs| ==> !Contains(text, fs[k])
    ensures FillerCount(text, fs) == 0
  {
    FillerCountZero(text, fs);
  }

  datatype FillerResult = FillerResult(fillerCount: nat, fillerRate: real, found: seq<string>, score: nat)

  /** The clarity score of a filler rate (fillers per hundred words). */
  function FillerScore(rate: real): (r: nat)
    ensures r in {2, 4, 6, 8, 10}
  {
    if rate < 0.3 then 10
    else if rate < 0.5 then 8
    else if rate < 0.7 then 6
    else if rate < 0.9 then 4
    else 2
  }

  /** The filler rate: occurrences per hundred words, and 0 for a text without words. */
  function FillerRate(count: nat, wordCount: nat): (r: real)
    ensures r >= 0.0
    ensures wordCount == 0 ==> r == 0.0
  {
    if wordCount > 0 then PerHundred(count, wordCount) else 0.0
  }

  /** The clarity criterion of a lower-cased text of `wordCount` words. */
  function Fillers(text: string, fillers: seq<string>, wordCount: nat): (r: FillerResult)
    requires NonEmptyAll(fillers)
    ensures r.score in {2, 4, 6, 8, 10}
    ensures wordCount == 0 ==> r.fillerRate == 0.0 && r.score == 10
    ensures r.fillerCount == 0 ==> r.score == 10 && r.found == []
  {
    var count := FillerCount(text, fillers);
    var rate := FillerRate(count, wordCount);
    if count == 0 then
      FillerCountZero(text, fillers);
      assert rate == 0.0;
      FillerResult(count, rate, FillerFound(text, fillers), FillerScore(rate))
    else
      FillerResult(count, rate, FillerFound(text, fillers), FillerScore(rate))
  }

  /** More fillers in the same number of words never raise the clarity score. */
  lemma FillerScoreMonotone(n1: nat, n2: nat, wordCount: nat)
    requires n1 <= n2
    ensures FillerScore(FillerRate(n2, wordCount)) <= FillerScore(FillerRate(n1, wordCount))
  {
    if wordCount > 0 {
      PerHundredMonotone(n1, n2, wordCount);
    }
  }

  /** `s` is the text "um um um", spelled out character by character. */
  predicate SpellsUmUmUm(s: string)
  {
    |s| == 8 && s[0] == 'u' && s[1] == 'm' && s[2] == ' ' && s[3] == 'u' && s[4] == 'm' &&
    s[5] == ' ' && s[6] == 'u' && s[7] == 'm'
  }

  /** `\bum\b` is found three times in "um um um". */
  lemma ThreeUms(s: string)
    requires SpellsUmUmUm(s)
    ensures CountWholeWord(s, "um", false) == 3
  {
    assert s[..2] == "um" && s[3..][..2] == "um" && s[6..][..2] == "um";
    assert s[2..][1..] == s[3..] && s[3..][2..] == s[5..] && s[5..][1..] == s[6..] && s[6..][2..] == [];
    assert !StartsWith(s[2..], "um") && !StartsWith(s[5..], "um");
    assert CountWholeWord(s[6..], "um", false) == 1 + CountWholeWord([], "um", true);
    assert CountWholeWord(s[5..], "um", true) == CountWholeWord(s[6..], "um", false);
    assert CountWholeWord(s[3..], "um", false) == 1 + CountWholeWord(s[5..], "um", true);
    assert CountWholeWord(s[2..], "um", true) == CountWholeWord(s[3..], "um", false);
  }

  /** When only the first filler occurs, the total is its count. */
  lemma {:induction false} FillerCountOnlyFirst(text: string, fs: seq<string>)
    requires fs != [] && NonEmptyAll(fs)
    requires forall k :: 1 <= k < |fs| ==> FillerOccurrences(text, fs[k]) == 0
    ensures FillerCount(text, fs) == FillerOccurrences(text, fs[0])
  {
    if |fs| > 1 {
      var init := fs[..|fs| - 1];
      assert forall k :: 0 <= k < |init| ==> init[k] == fs[k];
      FillerCountOnlyFirst(text, init);
    }
  }

  predicate UmText(s: string)
  {
    forall i :: 0 <= i < |s| ==> s[i] == 'u' || s[i] == 'm' || s[i] == ' '
  }

  lemma OnlyUmsLow(s: string)
    requires UmText(s)
    ensures forall k :: 1 <= k < 8 ==> FillerOccurrences(s, FillerWords[k]) == 0
  {
    AbsentCharNoWholeWord(s, FillerWords[1], false, 1);
    AbsentCharNoWholeWord(s, FillerWords[2], false, 0);
    AbsentCharNoOccurrence(s, FillerWords[3], 0);
    AbsentCharNoWholeWord(s, FillerWords[4], false, 0);
    AbsentCharNoWholeWord(s, FillerWords[5], false, 0);
    AbsentCharNoWholeWord(s, FillerWords[6], false, 0);
    AbsentCharNoWholeWord(s, FillerWords[7], false, 0);
  }

  lemma OnlyUmsHigh(s: string)
    requires UmText(s)
    ensures forall k :: 8 <= k < |FillerWords| ==> FillerOccurrences(s, FillerWords[k]) == 0
  {
    AbsentCharNoOccurrence(s, FillerWords[8], 0);
    AbsentCharNoWholeWord(s, FillerWords[9], false, 0);
    AbsentCharNoWholeWord(s, FillerWords[10], false, 0);
    AbsentCharNoOccurrence(s, FillerWords[11], 0);
    AbsentCharNoWholeWord(s, FillerWords[12], false, 0);
    AbsentCharNoWholeWord(s, FillerWords[13], false, 0);
    AbsentCharNoWholeWord(s, FillerWords[14], false, 0);
  }

  /** When only the first filler occurs, it alone is reported. */
  lemma {:induction false} FillerFoundOnlyFirst(text: string, fs: seq<string>)
    requires fs != [] && NonEmptyAll(fs)
    requires forall k :: 1 <= k < |fs| ==> FillerOccurrences(text, fs[k]) == 0
    ensures FillerFound(text, fs) == FillerFound(text, fs[..1])
  {
    if |fs| > 1 {
      var init := fs[..|fs| - 1];
      assert forall k :: 0 <= k < |init| ==> init[k] == fs[k];
      assert init[..1] == fs[..1];
      FillerFoundOnlyFirst(text, init);
    }
  }

  /** "um um um" has three fillers, all of them "um". */
  lemma UmUmUmCount(s: string)
    requires SpellsUmUmUm(s)
    ensures FillerCount(s, FillerWords) == 3
    ensures FillerFound(s, FillerWords) == ["um (3)"]
  {
    assert UmText(s);
    OnlyUmsLow(s);
    OnlyUmsHigh(s);
    ThreeUms(s);
    FillerCountOnlyFirst(s, FillerWords);
    FillerFoundOnlyFirst(s, FillerWords);
    var first := FillerWords[..1];
    assert first == ["um"] && first[..0] == [];
    assert FillerOccurrences(s, "um") == 3;
    assert NatToString(3) == "3";
    assert FillerFound(s, first) == FillerFound(s, []) + [FillerEntry("um", 3)];
    assert "um" + " (" + "3" + ")" == "um (3)";
    assert FillerFound(s, first) == ["um (3)"];
    assert FillerFound(s, FillerWords) == FillerFound(s, first);
  }

  /** "um um um" is three words, each of them "um". */
  lemma UmUmUmWords(s: string)
    requires SpellsUmUmUm(s)
    ensures Words(s) == ["um", "um", "um"]
  {
    assert Lower(s) == s;
    var um := "um";
    assert NoneOf(um, Space);
    OneWord(um);
    SplitWordsAtSpace(um, ' ', um);
    assert s[3..] == um + [' '] + um;
    SplitWordsAtSpace(um, ' ', s[3..]);
    assert s == um + [' '] + s[3..];
  }

  /** So "um um um", counted by its own words, is a rate of 100 and the lowest clarity score. */
  lemma UmUmUm(s: string)
    requires SpellsUmUmUm(s)
    ensures Fillers(s, FillerWords, |Words(s)|) == FillerResult(3, 100.0, ["um (3)"], 2)
  {
    UmUmUmWords(s);
    UmUmUmCount(s);
    assert FillerRate(3, 3) == 100.0;
  }

  // ---------------------------------------------------------------- Sentiment

  datatype SentimentResult = SentimentResult(sentiment: string, probability: real, score: nat)

  /** The engagement criterion for a polarity in [-1, 1], read as a positive probability. */
  function AnalyzeSentiment(polarity: real): (r: SentimentResult)
    ensures -1.0 <= polarity <= 1.0 ==> 0.0 <= r.probability <= 1.0
    ensures r.score in {3, 6, 9, 12, 15}
    ensures r.score == 15 <==> polarity >= 0.8
    ensures r.score >= 12 <==> polarity >= 0.4
    ensures r.score >= 9 <==> polarity >= 0.0
    ensures r.score >= 6 <==> polarity >= -0.4
    ensures r.sentiment == (if r.score >= 12 then "Positive" else if r.score >= 6 then "Neutral" else "Negative")
  {
    var p := (polarity + 1.0) / 2.0;
    if p >= 0.9 then SentimentResult("Positive", p, 15)
    else if p >= 0.7 then SentimentResult("Positive", p, 12)
    else if p >= 0.5 then SentimentResult("Neutral", p, 9)
    else if p >= 0.3 then SentimentResult("Neutral", p, 6)
    else SentimentResult("Negative", p, 3)
  }

  /** A more positive polarity never lowers the engagement score. */
  lemma SentimentMonotone(p1: real, p2: real)
    requires p1 <= p2
    ensures AnalyzeSentiment(p1).score <= AnalyzeSentiment(p2).score
  {
  }

  // ---------------------------------------------------------------- Speech rate

  /** `x` rounded to two decimals, halves rounded up. */
  function Round2(x: real): (r: real)
    ensures x - 0.005 < r <= x + 0.005
    ensures x >= 0.0 ==> r >= 0.0
    ensures (r * 100.0).Floor as real == r * 100.0
  {
    var hundredths := (x * 100.0 + 0.5).Floor;
    assert hundredths as real <= x * 100.0 + 0.5 < hundredths as real + 1.0;
    hundredths as real / 100.0
  }

  /** Words per minute over `durationSeconds`, rounded to two decimals; 0 for no duration. */
  function WordsPerMinute(wordCount: nat, durationSeconds: real): (r: real)
    ensures r >= 0.0
    ensures durationSeconds <= 0.0 ==> r == 0.0
    ensures durationSeconds > 0.0 ==>
              var exact := wordCount as real / durationSeconds * 60.0;
              exact - 0.005 < r <= exact + 0.005
  {
    if durationSeconds > 0.0 then
      var exact := wordCount as real / durationSeconds * 60.0;
      assert exact >= 0.0;
      Round2(exact)
    else 0.0
  }

  datatype SpeechResult = SpeechResult(score: nat, category: string)

  /** The speech-rate criterion: 10 in the ideal band, 6 just outside it, 2 further out. */
  function SpeechRate(wpm: real): (r: SpeechResult)
    ensures r.score in {2, 6, 10}
    ensures r.score == 10 <==> 111.0 <= wpm < 141.0
    ensures r.score == 2 <==> wpm < 81.0 || wpm > 161.0
    ensures r.category == "Ideal" <==> r.score == 10
  {
    if wpm > 161.0 then SpeechResult(2, "Too Fast")
    else if wpm >= 141.0 then SpeechResult(6, "Fast")
    else if wpm >= 111.0 then SpeechResult(10, "Ideal")
    else if wpm >= 81.0 then SpeechResult(6, "Slow")
    else SpeechResult(2, "Too Slow")
  }

  /** The score rises towards the ideal band and falls beyond it. */
  lemma SpeechRatePeak(w1: real, w2: real)
    requires w1 <= w2
    ensures w2 < 141.0 ==> SpeechRate(w1).score <= SpeechRate(w2).score
    ensures w1 >= 111.0 ==> SpeechRate(w1).score >= SpeechRate(w2).score
  {
  }

  /** 220 words in two minutes is 110 words per minute: "Slow", 6 points. */
  lemma SlowExample()
    ensures WordsPerMinute(220, 120.0) == 110.0
    ensures SpeechRate(WordsPerMinute(220, 120.0)) == SpeechResult(6, "Slow")
  {
    assert 220 as real / 120.0 * 60.0 == 110.0;
    assert (110.0 * 100.0 + 0.5).Floor == 11000;
  }
}

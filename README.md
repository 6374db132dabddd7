# Self-introduction scoring engine, in Dafny

This project models the scoring engine of the self-introduction assessment tool: the
`SpeechAnalyzer` class of `NIRMAAN_SELF_INTRODUCING_SCORING_AI_TOOL/app.py`. It scores a
transcript of a spoken self-introduction out of 100 on six criteria:

- Content & Structure (40): the salutation tier of the opening sentence, the coverage of the
  must-have and good-to-have keyword categories, and the order of the introduction;
- Speech Rate (10): words per minute;
- Language & Grammar (15): the number of issues a grammar checker reports, per hundred words;
- Vocabulary Richness (10): the type-token ratio of the words;
- Clarity (10): filler words per hundred words;
- Engagement (15): the positivity the sentiment analyser reports.

It also produces a summary. The summary gives a verdict tier for the overall score and names
the first criterion with the smallest share of its maximum.

Modules, one per file:

| file | module | what it holds |
|---|---|---|
| `text.dfy` | `Text` | Python's whitespace, `strip()`, `lower()`, `in`, `str.count`, `\bw\b` matching, `str(n)` and `" ".join` |
| `transcript.dfy` | `Transcript` | the word split (`split()`) and the sentence split (`re.split(r'[.!?]+')`, strip, drop empty) |
| `content.dfy` | `Content` | salutation tiers, keyword categories, the flow check, the content feedback |
| `metrics.dfy` | `Metrics` | grammar, vocabulary, filler words, sentiment, words per minute and speech rate |
| `report.dfy` | `Report` | the six criteria, the overall score, the verdict and the weakest criterion |
| `analyzer.dfy` | `Analyzer` | the class `SpeechAnalyzer`: the transcript model it builds once, its two loops and `Analyze` |

The source's pure parts are functions. These are the bucketing chains, the tier choices, the
`any`/`next` comprehensions and `min`.

The source's imperative parts stay imperative:

- The constructor sets the fields once. They are `const` fields, tied to their definitions by `Valid()`.
- `AnalyzeKeywords` and `AnalyzeFillerWords` are loops that append and accumulate. Each is
  proved equal to a specification function (`Content.Keywords`, `Metrics.Fillers`).
- `GenerateContentFeedback` appends to a list and joins it. It is proved equal to `Content.ContentFeedback`.
- `Analyze` is proved equal to `SpeechAnalyzer.Evaluation`, and the rubric properties are lemmas about that function.

The two external services become inputs:

- The grammar checker becomes `Option<nat>`: the number of issues, or `None` when the checker fails.
- The sentiment analyser becomes the polarity it reports, a `real`.

## Model

| member | source | states |
|---|---|---|
| Text.TrimStart | NIRMAAN_SELF_INTRODUCING_SCORING_AI_TOOL/app.py:23 | leading whitespace removed: the result is empty exactly when the text is all whitespace, and otherwise starts with a non-space |
| Text.TrimStartDropsSpaces | NIRMAAN_SELF_INTRODUCING_SCORING_AI_TOOL/app.py:23 | the result of removing leading whitespace is a suffix of the text, and everything before it is whitespace |
| Text.TrimEnd | NIRMAAN_SELF_INTRODUCING_SCORING_AI_TOOL/app.py:23 | trailing whitespace removed: empty exactly for an all-whitespace text, otherwise ends with a non-space and keeps the first character |
| Text.TrimEndDropsSpaces | NIRMAAN_SELF_INTRODUCING_SCORING_AI_TOOL/app.py:23 | the result of removing trailing whitespace is a prefix of the text, and everything after it is whitespace |
| Text.Strip | NIRMAAN_SELF_INTRODUCING_SCORING_AI_TOOL/app.py:23 | `strip()` is empty exactly when the text is all whitespace, and otherwise starts and ends with a non-space |
| Text.StripBetweenSpaces | NIRMAAN_SELF_INTRODUCING_SCORING_AI_TOOL/app.py:23 | `strip()` gives a contiguous piece of the text with only whitespace before and after it; with `Strip`'s own contract this fixes the result |
| Text.StripKeepsAbsence | NIRMAAN_SELF_INTRODUCING_SCORING_AI_TOOL/app.py:27 | stripping never introduces a character class (terminators stay absent) |
| Text.TrimStartKeepsAbsence | NIRMAAN_SELF_INTRODUCING_SCORING_AI_TOOL/app.py:27 | removing leading whitespace keeps an absent class absent |
| Text.TrimEndKeepsAbsence | NIRMAAN_SELF_INTRODUCING_SCORING_AI_TOOL/app.py:27 | removing trailing whitespace keeps an absent class absent |
| Text.Lower | NIRMAAN_SELF_INTRODUCING_SCORING_AI_TOOL/app.py:25 | `lower()` keeps the length, leaves no upper-case letter, turns each upper-case letter into its lower-case letter and keeps every other character |
| Text.LowerKeepsClasses | NIRMAAN_SELF_INTRODUCING_SCORING_AI_TOOL/app.py:25 | `lower()` keeps whitespace, terminators and word characters what they are |
| Text.Contains | NIRMAAN_SELF_INTRODUCING_SCORING_AI_TOOL/app.py:51 | `p in s` needs `p` no longer than `s` |
| Text.ContainsAt | NIRMAAN_SELF_INTRODUCING_SCORING_AI_TOOL/app.py:51 | `p in s` holds exactly when `p` occurs at some position of `s` |
| Text.ContainsTransitive | NIRMAAN_SELF_INTRODUCING_SCORING_AI_TOOL/app.py:58-59 | a substring of a substring of `s` is a substring of `s` |
| Text.AbsentCharNotContained | NIRMAAN_SELF_INTRODUCING_SCORING_AI_TOOL/app.py:88 | a pattern with a character the text lacks is not in the text |
| Text.ContainsAny | NIRMAAN_SELF_INTRODUCING_SCORING_AI_TOOL/app.py:88 | `any(k in s for k in ks)` holds exactly when some listed string is in `s` |
| Text.CountOccurrences | NIRMAAN_SELF_INTRODUCING_SCORING_AI_TOOL/app.py:206 | `str.count` is positive exactly when the phrase is in the text, and its non-overlapping occurrences fit in the text |
| Text.CountWholeWord | NIRMAAN_SELF_INTRODUCING_SCORING_AI_TOOL/app.py:211-212 | a positive `\bw\b` match count implies the word is in the text |
| Text.CountWholeWordPositive | NIRMAAN_SELF_INTRODUCING_SCORING_AI_TOOL/app.py:211-213 | the `findall` count is positive exactly when `\bw\b` matches at some position |
| Text.AbsentCharNoWholeWord | NIRMAAN_SELF_INTRODUCING_SCORING_AI_TOOL/app.py:211-213 | a word with a character the text lacks has no match |
| Text.AbsentCharNoOccurrence | NIRMAAN_SELF_INTRODUCING_SCORING_AI_TOOL/app.py:206 | a phrase with a character the text lacks is counted zero times |
| Text.Remove | NIRMAAN_SELF_INTRODUCING_SCORING_AI_TOOL/app.py:25-27 | removing a class of characters never lengthens a text |
| Text.RemoveAppend | NIRMAAN_SELF_INTRODUCING_SCORING_AI_TOOL/app.py:25-27 | removing a class distributes over concatenation |
| Text.RemoveAll | NIRMAAN_SELF_INTRODUCING_SCORING_AI_TOOL/app.py:25-27 | a text made only of the class vanishes |
| Text.RemoveNone | NIRMAAN_SELF_INTRODUCING_SCORING_AI_TOOL/app.py:25-27 | a text without the class is unchanged |
| Text.NatToString | NIRMAAN_SELF_INTRODUCING_SCORING_AI_TOOL/app.py:209 | `str(n)` is a non-empty string of decimal digits with no leading zero: it starts with `0` only for `n = 0` |
| Text.NatToStringRoundTrip | NIRMAAN_SELF_INTRODUCING_SCORING_AI_TOOL/app.py:209 | reading back the digits of `str(n)` gives `n` |
| Text.JoinThree | NIRMAAN_SELF_INTRODUCING_SCORING_AI_TOOL/app.py:408 | `sep.join` of three parts puts the separator between neighbours only |
| Transcript.SplitWordsFrom | NIRMAAN_SELF_INTRODUCING_SCORING_AI_TOOL/app.py:25 | every word of `split()` is non-empty and free of whitespace; there is none exactly when the text is all whitespace; which words they are is fixed by `SplitWordsFromAtSpace` and `SplitWordsFromOneWord` |
| Transcript.SplitWordsFromAtSpace | NIRMAAN_SELF_INTRODUCING_SCORING_AI_TOOL/app.py:25 | a whitespace character ends the word being read: the words of `a + [c] + b` are those of `a` followed by those of `b` |
| Transcript.SplitWordsAtSpace | NIRMAAN_SELF_INTRODUCING_SCORING_AI_TOOL/app.py:25 | `split(a + c + b)` is `split(a) + split(b)` for every whitespace character `c` |
| Transcript.SplitWordsFromOneWord | NIRMAAN_SELF_INTRODUCING_SCORING_AI_TOOL/app.py:25 | without whitespace, the characters read form one word |
| Transcript.OneWord | NIRMAAN_SELF_INTRODUCING_SCORING_AI_TOOL/app.py:25 | a non-empty text without whitespace is exactly one word, the text itself |
| Transcript.SplitWordsKeepsText | NIRMAAN_SELF_INTRODUCING_SCORING_AI_TOOL/app.py:25 | the words written one after another are the text without its whitespace |
| Transcript.SplitRunsFrom | NIRMAAN_SELF_INTRODUCING_SCORING_AI_TOOL/app.py:27 | `re.split(r'[.!?]+')` gives at least one piece, and no piece holds a terminator; which sentences they yield is fixed by `SplitRunsFromAtTerminator` and `SplitRunsFromOnePiece` |
| Transcript.SplitRunsFromAtTerminator | NIRMAAN_SELF_INTRODUCING_SCORING_AI_TOOL/app.py:27 | a terminator closes the piece being read: the kept sentences of `a + [c] + b` are those of `a` followed by those of `b`, whatever terminators surround `c` |
| Transcript.SplitRunsFromOnePiece | NIRMAAN_SELF_INTRODUCING_SCORING_AI_TOOL/app.py:27 | without terminators, the characters read form one piece |
| Transcript.SplitRunsKeepsText | NIRMAAN_SELF_INTRODUCING_SCORING_AI_TOOL/app.py:27 | the pieces written one after another are the text without its terminators |
| Transcript.StripNonEmpty | NIRMAAN_SELF_INTRODUCING_SCORING_AI_TOOL/app.py:27 | the kept sentences are non-empty and neither start nor end with whitespace, and there are no more of them than pieces |
| Transcript.StripNonEmptyAppend | NIRMAAN_SELF_INTRODUCING_SCORING_AI_TOOL/app.py:27 | stripping and dropping works piece by piece: it distributes over concatenation of the piece lists |
| Transcript.StripLeadingRun | NIRMAAN_SELF_INTRODUCING_SCORING_AI_TOOL/app.py:27 | a terminator run at the start of the text adds only an empty piece, which is dropped |
| Transcript.StripNonEmptyEmptyIff | NIRMAAN_SELF_INTRODUCING_SCORING_AI_TOOL/app.py:27 | no sentence is kept exactly when every piece is blank |
| Transcript.StripNonEmptyKeepsNoTerminator | NIRMAAN_SELF_INTRODUCING_SCORING_AI_TOOL/app.py:27 | stripped sentences stay free of terminators |
| Transcript.PiecesBlankIff | NIRMAAN_SELF_INTRODUCING_SCORING_AI_TOOL/app.py:27 | all pieces are blank exactly when the text holds only whitespace and terminators |
| Transcript.Words | NIRMAAN_SELF_INTRODUCING_SCORING_AI_TOOL/app.py:25 | `transcript.lower().split()`: every word is non-empty and free of whitespace, and the words written one after another are the lower-cased text without its whitespace |
| Transcript.Sentences | NIRMAAN_SELF_INTRODUCING_SCORING_AI_TOOL/app.py:27 | every sentence is non-empty, free of `.`, `!` and `?`, and neither starts nor ends with whitespace |
| Transcript.SentencesAtTerminator | NIRMAAN_SELF_INTRODUCING_SCORING_AI_TOOL/app.py:27 | every terminator ends a sentence: the sentences of `a + c + b` are those of `a` followed by those of `b` |
| Transcript.OneSentence | NIRMAAN_SELF_INTRODUCING_SCORING_AI_TOOL/app.py:27 | a text without terminators is one sentence, the stripped text, or none when it is blank |
| Transcript.NoSentencesIff | NIRMAAN_SELF_INTRODUCING_SCORING_AI_TOOL/app.py:27-28 | there is no sentence exactly when the text holds only whitespace and terminators |
| Transcript.NoWordsIff | NIRMAAN_SELF_INTRODUCING_SCORING_AI_TOOL/app.py:25-26 | there is no word exactly when the text is all whitespace |
| Transcript.BlankInput | NIRMAAN_SELF_INTRODUCING_SCORING_AI_TOOL/app.py:22-28 | an empty or whitespace-only input gives no words and no sentences |
| Analyzer.SpeechAnalyzer.constructor | NIRMAAN_SELF_INTRODUCING_SCORING_AI_TOOL/app.py:22-34 | the fields are the stripped transcript, its lower-cased words, its sentences and their counts, the duration (52 by default) and the fifteen fillers; every sentence is non-empty and terminator-free; a blank input gives 0 words and 0 sentences |
| Content.AnalyzeSalutation | NIRMAAN_SELF_INTRODUCING_SCORING_AI_TOOL/app.py:42-62 | the score is in {0, 2, 4, 5} and is the tier's points; 5 exactly when an excellent phrase is in the lower-cased first sentence, 4 exactly when none is but a good phrase is, 2 exactly when only a normal phrase is; no sentences gives 0, "No Salutation", "" |
| Content.ExcellentOutranksGreeting | NIRMAAN_SELF_INTRODUCING_SCORING_AI_TOOL/app.py:50-56 | an example of the tier priority that `AnalyzeSalutation` states in general: the sentence "hello everyone, i am feeling great" holds both a good and an excellent phrase and scores 5 |
| Content.SubstringGreeting | NIRMAAN_SELF_INTRODUCING_SCORING_AI_TOOL/app.py:48-60 | phrases match as substrings: an opening containing "this" holds "hi" and earns at least 2 |
| Content.Matched | NIRMAAN_SELF_INTRODUCING_SCORING_AI_TOOL/app.py:87-90 | the matched categories are at most as many as the categories |
| Content.MatchedNames | NIRMAAN_SELF_INTRODUCING_SCORING_AI_TOOL/app.py:87-89 | a category name is reported exactly when a category of that name has a keyword in the text |
| Content.MatchedAll | NIRMAAN_SELF_INTRODUCING_SCORING_AI_TOOL/app.py:87-89 | every category is reported exactly when every category is mentioned |
| Content.MatchedGrows | NIRMAAN_SELF_INTRODUCING_SCORING_AI_TOOL/app.py:87-98 | a text that mentions at least the same categories has at least as many matches |
| Content.KeywordScore | NIRMAAN_SELF_INTRODUCING_SCORING_AI_TOOL/app.py:100 | the keyword score is `min(4m + 2g, 20)`: at most 20, at most the raw points, and one of the two |
| Content.Keywords | NIRMAAN_SELF_INTRODUCING_SCORING_AI_TOOL/app.py:64-106 | at most five categories of each kind are found, and the score is the capped sum of their points |
| Content.KeywordScoreMonotone | NIRMAAN_SELF_INTRODUCING_SCORING_AI_TOOL/app.py:90-100 | more matched categories never lower the keyword score |
| Content.MentionsInLarger | NIRMAAN_SELF_INTRODUCING_SCORING_AI_TOOL/app.py:88 | a category mentioned in a text is mentioned in every text containing it |
| Content.KeywordsMonotone | NIRMAAN_SELF_INTRODUCING_SCORING_AI_TOOL/app.py:84-100 | extending a transcript never lowers its keyword score |
| Content.AllMustHaveReachesCap | NIRMAAN_SELF_INTRODUCING_SCORING_AI_TOOL/app.py:84-100 | all five must-have categories reach exactly the cap of 20, with or without the others |
| Analyzer.SpeechAnalyzer.ScanCategories | NIRMAAN_SELF_INTRODUCING_SCORING_AI_TOOL/app.py:84-98 | one pass of the loop collects the names of the mentioned categories in order and the points per category |
| Analyzer.SpeechAnalyzer.AnalyzeKeywords | NIRMAAN_SELF_INTRODUCING_SCORING_AI_TOOL/app.py:64-106 | the two loops and the cap compute `Keywords` of the lower-cased transcript |
| Content.NamePosition | NIRMAAN_SELF_INTRODUCING_SCORING_AI_TOOL/app.py:118-119 | the index of the first sentence naming the speaker, or -1 when none does, with no naming sentence before it |
| Content.NamePositionEarly | NIRMAAN_SELF_INTRODUCING_SCORING_AI_TOOL/app.py:118-126 | the first name sentence is among the first three exactly when some such sentence is |
| Content.AnalyzeFlow | NIRMAAN_SELF_INTRODUCING_SCORING_AI_TOOL/app.py:108-131 | the score is in {10, 13, 15}; at least 13 exactly when the first sentence greets and one of the first three names the speaker; 15 exactly when the last sentence also closes; the message matches the score; no sentences gives 10 |
| Content.GenerateContentFeedback | NIRMAAN_SELF_INTRODUCING_SCORING_AI_TOOL/app.py:389-408 | the appended parts joined by spaces are the opening, coverage and structure sentences |
| Content.CoverageAdvice | NIRMAAN_SELF_INTRODUCING_SCORING_AI_TOOL/app.py:397-401 | the coverage sentence reports completeness exactly when no must-have category is missing |
| Content.CoverageAdviceCounts | NIRMAAN_SELF_INTRODUCING_SCORING_AI_TOOL/app.py:397-401 | the coverage sentence reports completeness exactly when all five must-have categories were found, and otherwise names the number missing |
| Content.ContentFeedback | NIRMAAN_SELF_INTRODUCING_SCORING_AI_TOOL/app.py:389-408 | the content feedback is the opening sentence chosen at a salutation score of 4, the coverage sentence and the structure sentence chosen at a flow score of 13, in that order with single spaces between them |
| Metrics.PerHundredMonotone | NIRMAAN_SELF_INTRODUCING_SCORING_AI_TOOL/app.py:139 | a larger count gives a larger rate per hundred words |
| Metrics.PerHundredAtMost | NIRMAAN_SELF_INTRODUCING_SCORING_AI_TOOL/app.py:139 | a rate bound is the integer comparison `100·n <= limit·d` |
| Metrics.GrammarScore | NIRMAAN_SELF_INTRODUCING_SCORING_AI_TOOL/app.py:143-152 | the grammar score is in {3, 6, 9, 12, 15} |
| Metrics.AnalyzeGrammar | NIRMAAN_SELF_INTRODUCING_SCORING_AI_TOOL/app.py:133-167 | the ratio is in [0, 1] and the score in {3, 6, 9, 12, 15}; a checker failure gives exactly (0, 0, 1.0, 15); no words gives 15; otherwise 15 exactly when there is at most one issue per hundred words |
| Metrics.GrammarMonotone | NIRMAAN_SELF_INTRODUCING_SCORING_AI_TOOL/app.py:138-152 | more issues over the same words never raise the grammar score |
| Metrics.CleanWord | NIRMAAN_SELF_INTRODUCING_SCORING_AI_TOOL/app.py:175 | `re.sub(r'[^\w\s]', '', w)` keeps only word characters and whitespace and never lengthens the word |
| Metrics.CleanWordKeepsPlainWords | NIRMAAN_SELF_INTRODUCING_SCORING_AI_TOOL/app.py:175 | a word of word characters is unchanged by cleaning |
| Metrics.CleanWordChar | NIRMAAN_SELF_INTRODUCING_SCORING_AI_TOOL/app.py:175 | a single character is kept exactly when it is a word character or whitespace, and dropped otherwise |
| Metrics.CleanWordAppend | NIRMAAN_SELF_INTRODUCING_SCORING_AI_TOOL/app.py:175 | cleaning a concatenation is the concatenation of the cleaned parts; with `CleanWordChar` this determines the result for every word |
| Metrics.DistinctBounds | NIRMAAN_SELF_INTRODUCING_SCORING_AI_TOOL/app.py:176 | a non-empty list has between one and as many distinct entries as entries |
| Metrics.DistinctAllDifferent | NIRMAAN_SELF_INTRODUCING_SCORING_AI_TOOL/app.py:176 | pairwise different entries are all distinct |
| Metrics.VocabularyScore | NIRMAAN_SELF_INTRODUCING_SCORING_AI_TOOL/app.py:180-189 | the vocabulary score is in {2, 4, 6, 8, 10} |
| Metrics.AnalyzeVocabulary | NIRMAAN_SELF_INTRODUCING_SCORING_AI_TOOL/app.py:169-196 | no words gives all zeros; otherwise 1 <= distinct <= total, the ratio is in (0, 1] and the score in {2, 4, 6, 8, 10} |
| Metrics.AllDifferentFullMarks | NIRMAAN_SELF_INTRODUCING_SCORING_AI_TOOL/app.py:176-181 | words that stay different after cleaning earn 10 |
| Metrics.FillerOccurrences | NIRMAAN_SELF_INTRODUCING_SCORING_AI_TOOL/app.py:205-214 | a filler is counted only if it is in the text |
| Metrics.FillerCount | NIRMAAN_SELF_INTRODUCING_SCORING_AI_TOOL/app.py:204-215 | each filler's own count is at most the total |
| Metrics.FillerFound | NIRMAAN_SELF_INTRODUCING_SCORING_AI_TOOL/app.py:204-215 | no more entries are reported than there are fillers |
| Metrics.FillerFoundEntries | NIRMAAN_SELF_INTRODUCING_SCORING_AI_TOOL/app.py:204-215 | every reported entry is `"filler (count)"` for a listed filler that occurs, with its count |
| Metrics.FillerFoundComplete | NIRMAAN_SELF_INTRODUCING_SCORING_AI_TOOL/app.py:204-215 | conversely, every listed filler that occurs is reported as `"filler (count)"` with its count |
| Metrics.FillerCountAppend | NIRMAAN_SELF_INTRODUCING_SCORING_AI_TOOL/app.py:204-214 | the total over two filler lists joined is the sum of their totals, so the total is the sum of the fillers' counts |
| Metrics.FillerCountZero | NIRMAAN_SELF_INTRODUCING_SCORING_AI_TOOL/app.py:204-215 | the total is 0 exactly when no filler occurs, and exactly when nothing is reported |
| Metrics.NoFillerText | NIRMAAN_SELF_INTRODUCING_SCORING_AI_TOOL/app.py:204-215 | a text containing none of the fillers has no filler |
| Metrics.FillerScore | NIRMAAN_SELF_INTRODUCING_SCORING_AI_TOOL/app.py:219-228 | the clarity score is in {2, 4, 6, 8, 10} |
| Metrics.FillerRate | NIRMAAN_SELF_INTRODUCING_SCORING_AI_TOOL/app.py:217 | the rate is non-negative and 0 for a text without words |
| Metrics.Fillers | NIRMAAN_SELF_INTRODUCING_SCORING_AI_TOOL/app.py:198-235 | the score is in {2, 4, 6, 8, 10}; no words gives rate 0 and 10; no filler gives 10 and an empty report |
| Metrics.FillerScoreMonotone | NIRMAAN_SELF_INTRODUCING_SCORING_AI_TOOL/app.py:217-228 | more fillers over the same words never raise the clarity score |
| Metrics.ThreeUms | NIRMAAN_SELF_INTRODUCING_SCORING_AI_TOOL/app.py:211-212 | `\bum\b` is found three times in "um um um" |
| Metrics.FillerCountOnlyFirst | NIRMAAN_SELF_INTRODUCING_SCORING_AI_TOOL/app.py:204-214 | when only the first filler occurs, the total is its count |
| Metrics.OnlyUmsLow | NIRMAAN_SELF_INTRODUCING_SCORING_AI_TOOL/app.py:31-33 | fillers two to eight never occur in a text of `u`, `m` and spaces |
| Metrics.OnlyUmsHigh | NIRMAAN_SELF_INTRODUCING_SCORING_AI_TOOL/app.py:31-33 | fillers nine to fifteen never occur in a text of `u`, `m` and spaces |
| Metrics.FillerFoundOnlyFirst | NIRMAAN_SELF_INTRODUCING_SCORING_AI_TOOL/app.py:204-215 | when only the first filler occurs, it alone is reported |
| Metrics.UmUmUmCount | NIRMAAN_SELF_INTRODUCING_SCORING_AI_TOOL/app.py:204-215 | "um um um" has three fillers, reported as "um (3)" |
| Metrics.UmUmUmWords | NIRMAAN_SELF_INTRODUCING_SCORING_AI_TOOL/app.py:25 | "um um um" is three words, each "um" |
| Metrics.UmUmUm | NIRMAAN_SELF_INTRODUCING_SCORING_AI_TOOL/app.py:198-235 | "um um um", with the word count taken from its own words, gives count 3, rate 100, report ["um (3)"] and score 2 |
| Analyzer.SpeechAnalyzer.AnalyzeFillerWords | NIRMAAN_SELF_INTRODUCING_SCORING_AI_TOOL/app.py:198-235 | the counting loop and the rate bucketing compute `Fillers` of the lower-cased transcript |
| Metrics.AnalyzeSentiment | NIRMAAN_SELF_INTRODUCING_SCORING_AI_TOOL/app.py:237-265 | the probability is in [0, 1] for a polarity in [-1, 1]; the score is in {3, 6, 9, 12, 15} with thresholds 0.8, 0.4, 0.0, -0.4 on the polarity; the label follows the score |
| Metrics.SentimentMonotone | NIRMAAN_SELF_INTRODUCING_SCORING_AI_TOOL/app.py:243-259 | a more positive polarity never lowers the engagement score |
| Metrics.Round2 | NIRMAAN_SELF_INTRODUCING_SCORING_AI_TOOL/app.py:39 | rounding to two decimals gives a whole number of hundredths, moves a value by at most half a hundredth and keeps it non-negative |
| Metrics.WordsPerMinute | NIRMAAN_SELF_INTRODUCING_SCORING_AI_TOOL/app.py:36-40 | the pace is non-negative, 0 when the duration is not positive, and otherwise within half a hundredth of words / seconds · 60 |
| Metrics.SpeechRate | NIRMAAN_SELF_INTRODUCING_SCORING_AI_TOOL/app.py:279-293 | the score is in {2, 6, 10}; 10 exactly when 111 <= wpm < 141, "Ideal" exactly then; 2 exactly when wpm < 81 or wpm > 161 |
| Metrics.SpeechRatePeak | NIRMAAN_SELF_INTRODUCING_SCORING_AI_TOOL/app.py:279-293 | the score rises up to the ideal band and falls after it |
| Metrics.SlowExample | NIRMAAN_SELF_INTRODUCING_SCORING_AI_TOOL/app.py:36-40 | 220 words in 120 seconds is 110 words per minute: "Slow", 6 |
| Report.GrammarFeedback | NIRMAAN_SELF_INTRODUCING_SCORING_AI_TOOL/app.py:348-349 | the grammar feedback starts with "Found " and the number of issues, which reads back as the count, and ends with the advice chosen at a grammar score of 12 |
| Report.Criteria | NIRMAAN_SELF_INTRODUCING_SCORING_AI_TOOL/app.py:318-375 | six criteria in rubric order with their names and maxima (40, 10, 15, 10, 10, 15), each scored by its component |
| Report.WeakestAmong | NIRMAAN_SELF_INTRODUCING_SCORING_AI_TOOL/app.py:420 | scanning the first `n` criteria finds one with the smallest ratio and every earlier one has a larger ratio |
| Report.WeakestIndex | NIRMAAN_SELF_INTRODUCING_SCORING_AI_TOOL/app.py:420 | `min` by score / max score picks the first criterion of minimal ratio |
| Report.OverallVerdict | NIRMAAN_SELF_INTRODUCING_SCORING_AI_TOOL/app.py:411-418 | each verdict is given exactly in its band: 85 and above, 70 to 84, 55 to 69, below 55 |
| Report.GenerateSummary | NIRMAAN_SELF_INTRODUCING_SCORING_AI_TOOL/app.py:410-422 | the summary is the verdict followed by the name of a first minimal criterion |
| Report.SumSix | NIRMAAN_SELF_INTRODUCING_SCORING_AI_TOOL/app.py:308-315 | the sums over six criteria are the six terms added |
| Report.SumWithinMaxima | NIRMAAN_SELF_INTRODUCING_SCORING_AI_TOOL/app.py:308-315 | scores within their maxima add up to at most the sum of the maxima |
| Report.BuildReport | NIRMAAN_SELF_INTRODUCING_SCORING_AI_TOOL/app.py:307-387 | the overall score is the sum of the six criterion scores, and the report carries the word and sentence counts, the duration and the pace |
| Report.ReportWithinRubric | NIRMAAN_SELF_INTRODUCING_SCORING_AI_TOOL/app.py:267-387 | with every component within its maximum, the report has six named criteria each within its maximum, and the overall score is their sum, at most the maxima's sum of 100 |
| Report.ReportSummary | NIRMAAN_SELF_INTRODUCING_SCORING_AI_TOOL/app.py:377 | the report's summary gives the verdict of its overall score and names a first minimal criterion |
| Analyzer.SpeechAnalyzer.Evaluation | NIRMAAN_SELF_INTRODUCING_SCORING_AI_TOOL/app.py:267-387 | the report of the transcript model carries its word count, sentence count and duration, has six criteria, and its overall score is their sum; the rubric lemmas below state the rest |
| Analyzer.SpeechAnalyzer.Analyze | NIRMAAN_SELF_INTRODUCING_SCORING_AI_TOOL/app.py:267-387 | running every analysis once and assembling the report gives `Evaluation` of the transcript and the two provider answers |
| Analyzer.SpeechAnalyzer.EvaluationScores | NIRMAAN_SELF_INTRODUCING_SCORING_AI_TOOL/app.py:269-315 | each criterion is scored by its own analysis; the report carries the counts, the duration and the pace |
| Analyzer.SpeechAnalyzer.ContentWithinMaximum | NIRMAAN_SELF_INTRODUCING_SCORING_AI_TOOL/app.py:276 | salutation, keywords and flow together stay within 40 |
| Analyzer.SpeechAnalyzer.DeliveryWithinMaxima | NIRMAAN_SELF_INTRODUCING_SCORING_AI_TOOL/app.py:279-305 | speech, grammar, vocabulary, clarity and engagement stay within 10, 15, 10, 10 and 15 |
| Analyzer.SpeechAnalyzer.EvaluationWithinRubric | NIRMAAN_SELF_INTRODUCING_SCORING_AI_TOOL/app.py:308-375 | every transcript's report has the six criteria in order, each within its maximum, and an overall score that is their sum and at most 100 |
| Analyzer.SpeechAnalyzer.EvaluationSummary | NIRMAAN_SELF_INTRODUCING_SCORING_AI_TOOL/app.py:377 | every transcript's summary gives its verdict and names the first criterion with the smallest share of its maximum |

## Left out

- The web layer (Flask routes, CORS, the 400 reply for an empty request) is not part of this model. A whitespace-only transcript still reaches the engine and is modelled.
- The grammar checker (`language_tool_python` and its cached instance) is replaced by its answer. That answer is the number of issues, or `None` for any exception, which takes the fallback.
- The sentiment analyser (TextBlob) is replaced by the polarity it reports.
- Metrics.AnalyzeSentiment: a failure of the sentiment analyser is not modelled. The source has no fallback for it, unlike the grammar checker, so the exception escapes `analyze` and no report is produced. The model always receives a polarity.
- Metrics.AnalyzeSentiment: the model takes any real polarity. The probability bound is stated only for polarities in [-1, 1], the range the analyser reports.
- Display rounding of the reported values is not modelled: `errors_per_100`, `grammar_ratio`, `ttr`, `filler_rate` and `positive_probability` are kept exact. No score depends on these rounded values.
- Metrics.WordsPerMinute: the pace is rounded half up on exact rationals, so it lies in `(exact - 0.005, exact + 0.005]`. Python rounds the binary float of `words / seconds * 60` half to even, and its result meets only `exact - 0.005 <= r`. For 1 word in 96 seconds the exact pace is 0.625; the source reports 0.62 and the model 0.63.
- Metrics.SpeechRate: for 32201 words in 12000 seconds the exact pace is 161.005. The source rounds it to 161.0 and scores 6 "Fast". The model rounds it to 161.01 and scores 2 "Too Fast".
- All thresholds and ratios are exact reals instead of binary floats. With denominators of at most 40, the ratios compared by the summary are far enough apart that floats order them the same way. The grammar 15-point boundary also comes out the same in floats. The grammar, filler, sentiment and speech-rate boundaries do not always agree; the lines around this one give the cases.
- Metrics.AnalyzeGrammar: for 7 issues in 100 words, and for every pair in the same ratio (14 in 200, 21 in 300, 700 in 10000, and so on, since the float quotient is the same), the source computes `errors_per_100` as 7.000000000000001, so the ratio is 0.29999999999999993. That is below 0.3, and the source scores 3. The model has the exact ratio 0.3 and scores 6.
- Metrics.AnalyzeSentiment: the model compares `(polarity + 1) / 2` with the thresholds as exact reals, and the source as binary floats. For the polarity -2.78e-17 (the float of `0.3 - 0.1 - 0.2`) the source's probability is 0.5 and it scores 9 "Neutral"; the model scores 6. For the polarity 0.39999999999999997 the source's probability is 0.7 and it scores 12 "Positive"; the model scores 9 "Neutral". For the float -0.4 the source's probability is 0.3 and it scores 6; the model scores 3.
- Metrics.Fillers: for 9 fillers in 1000 words, and for every pair in the same ratio (18 in 2000, 27 in 3000, and so on, since the float quotient is the same), the source's rate is 0.8999999999999999. That is below 0.9, and the source scores 4. The model has the exact rate 0.9 and scores 2.
- Unicode: `lower()`, `\w` and `\b` are modelled for ASCII letters and digits only. Whitespace follows `str.isspace()` exactly.
- The feedback of the Speech Rate, Vocabulary Richness, Clarity and Engagement criteria: only the fixed advice phrase is modelled. The f-string prefix that prints a float is not. The content and grammar feedback are modelled in full.
- Report.Criteria: the details are carried as typed records rather than dictionaries.
- Metrics.Fillers takes the filler list as a parameter. The constructor sets it to the source's fifteen fillers, and `UmUmUm` is stated for that list.
- Metrics.UmUmUm is stated for any string spelled "um um um" character by character, rather than for the literal. Its word count comes from `Words` of that string.
- `test_api_py.py` is an HTTP client with console output and is not part of this model.

/** Content & Structure: the salutation tier of the opening sentence, the coverage of the
    keyword categories and the order of the introduction. */
module Content {
  import opened Text

  // ---------------------------------------------------------------- Salutation

  const ExcellentPhrases: seq<string> := ["excited to introduce", "feeling great", "pleasure to introduce"]
  const GoodPhrases: seq<string> := ["good morning", "good afternoon", "good evening", "good day", "hello everyone"]
  const NormalPhrases: seq<string> := ["hi", "hello"]

  datatype SalutationTier = Excellent | Good | Normal | NoSalutation
  {
    /** The label reported for the tier. */
    function Label(): string
    {
      match this
      case Excellent => "Excellent"
      case Good => "Good"
      case Normal => "Normal"
      case NoSalutation => "No Salutation"
    }

    function Points(): nat
    {
      match this
      case Excellent => 5
      case Good => 4
      case Normal => 2
      case NoSalutation => 0
    }
  }

  datatype SalutationResult = SalutationResult(score: nat, tier: SalutationTier, firstSentence: string)

  /** The lower-cased first sentence, or the empty string when there is none. */
  function FirstSentence(sentences: seq<string>): string
  {
    if sentences == [] then "" else Lower(sentences[0])
  }

  /** The tiers are tried best first and the first tier with a phrase in the opening sentence wins. */
  function AnalyzeSalutation(sentences: seq<string>): (r: SalutationResult)
    ensures r.firstSentence == FirstSentence(sentences)
    ensures r.score in {0, 2, 4, 5} && r.score == r.tier.Points()
    ensures r.score == 5 <==>
              exists k :: 0 <= k < |ExcellentPhrases| && Contains(r.firstSentence, ExcellentPhrases[k])
    ensures r.score == 4 <==>
              (forall k :: 0 <= k < |ExcellentPhrases| ==> !Contains(r.firstSentence, ExcellentPhrases[k])) &&
              exists k :: 0 <= k < |GoodPhrases| && Contains(r.firstSentence, GoodPhrases[k])
    ensures r.score == 2 <==>
              (forall k :: 0 <= k < |ExcellentPhrases| ==> !Contains(r.firstSentence, ExcellentPhrases[k])) &&
              (forall k :: 0 <= k < |GoodPhrases| ==> !Contains(r.firstSentence, GoodPhrases[k])) &&
              exists k :: 0 <= k < |NormalPhrases| && Contains(r.firstSentence, NormalPhrases[k])
    ensures sentences == [] ==> r == SalutationResult(0, NoSalutation, "")
  {
    var first := FirstSentence(sentences);
    var tier :=
      if ContainsAny(first, ExcellentPhrases) then Excellent
      else if ContainsAny(first, GoodPhrases) then Good
      else if ContainsAny(first, NormalPhrases) then Normal
      else NoSalutation;
    if sentences == [] then
      assert !Contains(first, "hi") && !Contains(first, "hello");
      assert forall k :: 0 <= k < |GoodPhrases| ==> !Contains(first, GoodPhrases[k]);
      assert forall k :: 0 <= k < |ExcellentPhrases| ==> !Contains(first, ExcellentPhrases[k]);
      SalutationResult(tier.Points(), tier, first)
    else
      SalutationResult(tier.Points(), tier, first)
  }

  /** An excellent phrase outranks a good greeting in the same sentence. */
  lemma ExcellentOutranksGreeting()
    ensures AnalyzeSalutation(["hello everyone, i am feeling great"]).score == 5
  {
    var s := "hello everyone, i am feeling great";
    assert Lower(s) == s;
    assert OccursAt(s, "feeling great", 21);
    ContainsAt(s, "feeling great");
  }

  /** Greetings are matched as substrings: an opening holding the word "this" holds the
      normal greeting "hi", so it earns at least the normal tier. */
  lemma SubstringGreeting(sentences: seq<string>)
    requires sentences != [] && Contains(Lower(sentences[0]), "this")
    ensures AnalyzeSalutation(sentences).score >= 2
  {
    assert OccursAt("this", "hi", 1);
    ContainsAt("this", "hi");
    ContainsTransitive(Lower(sentences[0]), "this", "hi");
    assert Contains(FirstSentence(sentences), NormalPhrases[0]);
  }

  // ---------------------------------------------------------------- Keywords

  /** A keyword category: it is covered when any of its keywords occurs in the text. */
  datatype Category = Category(name: string, keywords: seq<string>)

  const MustHave: seq<Category> := [
    Category("name", ["name", "myself", "i am", "i'm"]),
    Category("age", ["year", "age", "old"]),
    Category("school", ["school", "class", "grade", "studying"]),
    Category("family", ["family", "mother", "father", "parents", "siblings", "brother", "sister"]),
    Category("hobbies", ["hobby", "hobbies", "enjoy", "like", "love", "play", "interest"])
  ]

  const GoodToHave: seq<Category> := [
    Category("family_details", ["kind", "caring", "supportive", "members", "people in my family"]),
    Category("location", ["from", "live in", "native", "hometown"]),
    Category("ambition", ["want to", "goal", "dream", "ambition", "aspire", "future"]),
    Category("unique_fact", ["fun fact", "interesting", "unique", "special thing"]),
    Category("strengths", ["strength", "achievement", "good at", "excel"])
  ]

  const MustHavePoints: nat := 4
  const GoodToHavePoints: nat := 2
  const KeywordCap: nat := 20

  predicate Mentions(text: string, c: Category)
  {
    ContainsAny(text, c.keywords)
  }

  /** The names of the categories of `cats` that `text` mentions, in list order. */
  function Matched(text: string, cats: seq<Category>): (r: seq<string>)
    ensures |r| <= |cats|
  {
    if cats == [] then []
    else
      var last := cats[|cats| - 1];
      Matched(text, cats[..|cats| - 1]) + (if Mentions(text, last) then [last.name] else [])
  }

  /** A name is reported exactly when a category of that name is mentioned. */
  lemma {:induction false} MatchedNames(text: string, cats: seq<Category>, name: string)
    ensures name in Matched(text, cats) <==>
              exists k :: 0 <= k < |cats| && cats[k].name == name && Mentions(text, cats[k])
  {
    if cats != [] {
      var init := cats[..|cats| - 1];
      MatchedNames(text, init, name);
      assert forall k :: 0 <= k < |init| ==> init[k] == cats[k];
      if exists k :: 0 <= k < |cats| && cats[k].name == name && Mentions(text, cats[k]) {
        var k :| 0 <= k < |cats| && cats[k].name == name && Mentions(text, cats[k]);
        if k < |init| {
          assert init[k] == cats[k];
        }
      }
    }
  }

  /** Every category is reported exactly when every category is mentioned. */
  lemma {:induction false} MatchedAll(text: string, cats: seq<Category>)
    ensures |Matched(text, cats)| == |cats| <==> forall k :: 0 <= k < |cats| ==> Mentions(text, cats[k])
  {
    if cats != [] {
      var init := cats[..|cats| - 1];
      MatchedAll(text, init);
      assert forall k :: 0 <= k < |init| ==> init[k] == cats[k];
    }
  }

  /** A text that mentions every category `t` mentions has at least as many matches. */
  lemma {:induction false} MatchedGrows(t: string, u: string, cats: seq<Category>)
    requires forall k :: 0 <= k < |cats| ==> Mentions(t, cats[k]) ==> Mentions(u, cats[k])
    ensures |Matched(t, cats)| <= |Matched(u, cats)|
  {
    if cats != [] {
      var init := cats[..|cats| - 1];
      assert forall k :: 0 <= k < |init| ==> init[k] == cats[k];
      MatchedGrows(t, u, init);
    }
  }

  /** `min(4 * mustHave + 2 * goodToHave, 20)`. */
  function KeywordScore(mustHaveCount: nat, goodToHaveCount: nat): (r: nat)
    ensures r <= KeywordCap
    ensures r <= MustHavePoints * mustHaveCount + GoodToHavePoints * goodToHaveCount
    ensures r == KeywordCap || r == MustHavePoints * mustHaveCount + GoodToHavePoints * goodToHaveCount
  {
    var raw := MustHavePoints * mustHaveCount + GoodToHavePoints * goodToHaveCount;
    if raw < KeywordCap then raw else KeywordCap
  }

  datatype KeywordResult = KeywordResult(mustHave: seq<string>, goodToHave: seq<string>, score: nat)

  /** The keyword coverage of an already lower-cased text. */
  function Keywords(text: string): (r: KeywordResult)
    ensures |r.mustHave| <= |MustHave| && |r.goodToHave| <= |GoodToHave|
    ensures r.score == KeywordScore(|r.mustHave|, |r.goodToHave|)
  {
    var m := Matched(text, MustHave);
    var g := Matched(text, GoodToHave);
    KeywordResult(m, g, KeywordScore(|m|, |g|))
  }

  /** More matched categories never lower the keyword score. */
  lemma KeywordScoreMonotone(m: nat, g: nat, m': nat, g': nat)
    requires m <= m' && g <= g'
    ensures KeywordScore(m, g) <= KeywordScore(m', g')
  {
  }

  /** Every mention in a text is still a mention in any text that contains it. */
  lemma MentionsInLarger(t: string, u: string, c: Category)
    requires Contains(u, t) && Mentions(t, c)
    ensures Mentions(u, c)
  {
    var k :| 0 <= k < |c.keywords| && Contains(t, c.keywords[k]);
    ContainsTransitive(u, t, c.keywords[k]);
  }

  /** Extending a transcript never lowers its keyword score. */
  lemma KeywordsMonotone(t: string, u: string)
    requires Contains(u, t)
    ensures Keywords(t).score <= Keywords(u).score
  {
    forall c | Mentions(t, c) ensures Mentions(u, c) {
      MentionsInLarger(t, u, c);
    }
    MatchedGrows(t, u, MustHave);
    MatchedGrows(t, u, GoodToHave);
  }

  /** The five must-have categories alone reach the cap; so do all ten categories. */
  lemma AllMustHaveReachesCap(text: string)
    requires forall k :: 0 <= k < |MustHave| ==> Mentions(text, MustHave[k])
    ensures Keywords(text).score == KeywordCap
  {
    MatchedAll(text, MustHave);
  }

  // ---------------------------------------------------------------- Flow

  const FlowGreetings: seq<string> := ["hi", "hello", "good morning", "good afternoon", "good evening"]
  const NamePhrases: seq<string> := ["myself", "i am", "my name"]
  const ClosingWords: seq<string> := ["thank", "thanks", "grateful"]

  predicate Greets(sentence: string)
  {
    ContainsAny(Lower(sentence), FlowGreetings)
  }

  predicate NamesSpeaker(sentence: string)
  {
    ContainsAny(Lower(sentence), NamePhrases)
  }

  predicate Closes(sentence: string)
  {
    ContainsAny(Lower(sentence), ClosingWords)
  }

  /** Some sentence among the first three names the speaker. */
  predicate NamedEarly(sentences: seq<string>)
  {
    exists i :: 0 <= i < |sentences| && i <= 2 && NamesSpeaker(sentences[i])
  }

  /** The index of the first sentence that names the speaker, or -1 when none does. */
  function NamePosition(sentences: seq<string>): (r: int)
    ensures -1 <= r < |sentences|
    ensures r >= 0 ==> NamesSpeaker(sentences[r])
    ensures forall j :: 0 <= j < |sentences| && (r == -1 || j < r) ==> !NamesSpeaker(sentences[j])
  {
    if sentences == [] then -1
    else if NamesSpeaker(sentences[0]) then 0
    else
      var p := NamePosition(sentences[1..]);
      assert forall j :: 1 <= j < |sentences| ==> sentences[j] == sentences[1..][j - 1];
      if p == -1 then -1 else p + 1
  }

  /** The first name sentence is among the first three exactly when some such sentence is. */
  lemma NamePositionEarly(sentences: seq<string>)
    ensures 0 <= NamePosition(sentences) <= 2 <==> NamedEarly(sentences)
  {
    var p := NamePosition(sentences);
    if 0 <= p <= 2 {
      assert NamesSpeaker(sentences[p]);
    }
  }

  datatype FlowResult = FlowResult(score: nat, message: string)

  const FlowFull := "Good flow with proper opening and closing"
  const FlowNoClosing := "Good flow but could improve closing"
  const FlowPoor := "Flow could be improved - consider: Salutation \U{2192} Name \U{2192} Details \U{2192} Closing"

  /** 15 for greeting, early name and closing; 13 without the closing; 10 otherwise. */
  function AnalyzeFlow(sentences: seq<string>): (r: FlowResult)
    ensures r.score in {10, 13, 15}
    ensures r.score >= 13 <==> sentences != [] && Greets(sentences[0]) && NamedEarly(sentences)
    ensures r.score == 15 <==>
              sentences != [] && Greets(sentences[0]) && NamedEarly(sentences) && Closes(sentences[|sentences| - 1])
    ensures r.message == (if r.score == 15 then FlowFull else if r.score == 13 then FlowNoClosing else FlowPoor)
    ensures sentences == [] ==> r == FlowResult(10, FlowPoor)
  {
    var greeting := sentences != [] && Greets(sentences[0]);
    var namePos := NamePosition(sentences);
    var closing := sentences != [] && Closes(sentences[|sentences| - 1]);
    NamePositionEarly(sentences);
    if greeting && namePos >= 0 && namePos <= 2 then
      if closing then FlowResult(15, FlowFull) else FlowResult(13, FlowNoClosing)
    else
      FlowResult(10, FlowPoor)
  }

  // ---------------------------------------------------------------- Feedback

  const StrongOpening := "Strong opening."
  const WeakOpening := "Consider a more engaging greeting."
  const AllEssentials := "All essential information included."
  const GoodStructure := "Well-structured flow."
  const WeakStructure := "Structure could be improved."

  /** The sentence about the must-have categories still missing: completeness is reported
      exactly when none is missing. */
  function CoverageAdvice(mustHaveCount: nat): (r: string)
    ensures r == AllEssentials <==> mustHaveCount >= |MustHave|
  {
    if mustHaveCount < |MustHave| then
      var r := "Missing " + NatToString(|MustHave| - mustHaveCount) + " key details.";
      assert r[0] == 'M' != AllEssentials[0];
      r
    else AllEssentials
  }

  /** The opening sentence, chosen at a salutation score of 4. */
  function OpeningAdvice(salutationScore: nat): string
  {
    if salutationScore >= 4 then StrongOpening else WeakOpening
  }

  /** The structure sentence, chosen at a flow score of 13. */
  function StructureAdvice(flowScore: nat): string
  {
    if flowScore >= 13 then GoodStructure else WeakStructure
  }

  /** The content feedback: the opening sentence, the coverage sentence and the structure
      sentence, with single spaces between them. */
  function ContentFeedback(salutationScore: nat, keywords: KeywordResult, flowScore: nat): (r: string)
    ensures SpaceSeparated(r, OpeningAdvice(salutationScore), CoverageAdvice(|keywords.mustHave|), StructureAdvice(flowScore))
  {
    var opening := OpeningAdvice(salutationScore);
    var advice := CoverageAdvice(|keywords.mustHave|);
    var structure := StructureAdvice(flowScore);
    SpacedThree(opening, advice, structure);
    opening + " " + advice + " " + structure
  }

  /** Collects the three feedback sentences in a list and joins them with single spaces. */
  method GenerateContentFeedback(salutationScore: nat, keywords: KeywordResult, flowScore: nat)
    returns (feedback: string)
    ensures feedback == ContentFeedback(salutationScore, keywords, flowScore)
  {
    var parts: seq<string> := [];
    if salutationScore >= 4 {
      parts := parts + [StrongOpening];
    } else {
      parts := parts + [WeakOpening];
    }
    var missing := |MustHave| - |keywords.mustHave|;
    if missing > 0 {
      parts := parts + ["Missing " + NatToString(missing) + " key details."];
    } else {
      parts := parts + [AllEssentials];
    }
    if flowScore >= 13 {
      parts := parts + [GoodStructure];
    } else {
      parts := parts + [WeakStructure];
    }
    feedback := Join(parts, " ");
    JoinThree(parts[0], parts[1], parts[2], " ");
    assert parts == [parts[0], parts[1], parts[2]];
  }

  /** The coverage sentence names the number of missing must-have categories, and reports
      completeness exactly when all five were found. */
  lemma {:induction false} CoverageAdviceCounts(mustHaveCount: nat)
    requires mustHaveCount <= |MustHave|
    ensures CoverageAdvice(mustHaveCount) == AllEssentials <==> mustHaveCount == |MustHave|
    ensures mustHaveCount < |MustHave| ==>
              var a := CoverageAdvice(mustHaveCount);
              DigitsValue(a[8..|a| - 13]) == |MustHave| - mustHaveCount
  {
    if mustHaveCount < |MustHave| {
      var digits := NatToString(|MustHave| - mustHaveCount);
      var a := CoverageAdvice(mustHaveCount);
      assert a == "Missing " + digits + " key details.";
      assert a[8..|a| - 13] == digits;
      NatToStringRoundTrip(|MustHave| - mustHaveCount);
      assert a[0] == 'M';
    }
  }
}

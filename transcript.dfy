/** The transcript model the analyzer builds once: the stripped text, its lower-cased
    words and its sentences. */
module Transcript {
  import opened Text

  /** Python's `s.split()` with no separator, resumed inside a word: `word` holds the
      characters of the word read so far. The words are the maximal runs of
      non-whitespace, in order. */
  function SplitWordsFrom(s: string, word: string): (r: seq<string>)
    requires NoneOf(word, Space)
    ensures forall k :: 0 <= k < |r| ==> r[k] != [] && NoneOf(r[k], Space)
    ensures r == [] <==> word == [] && All(s, Space)
    decreases |s|
  {
    if s == [] then
      (if word == [] then [] else [word])
    else if IsSpace(s[0]) then
      (if word == [] then [] else [word]) + SplitWordsFrom(s[1..], [])
    else
      var r := SplitWordsFrom(s[1..], word + [s[0]]);
      assert !All(s, Space);
      r
  }

  /** Python's `s.split()`. */
  function SplitWords(s: string): seq<string>
  {
    SplitWordsFrom(s, [])
  }

  lemma ConcatCons(w: string, rest: seq<string>)
    ensures Concat([w] + rest) == w + Concat(rest)
  {
    assert ([w] + rest)[1..] == rest;
  }

  /** Splitting into words loses the whitespace and nothing else. */
  lemma {:induction false} SplitWordsKeepsText(s: string, word: string)
    requires NoneOf(word, Space)
    ensures Concat(SplitWordsFrom(s, word)) == word + Remove(s, Space)
    decreases |s|
  {
    if s == [] {
      if word != [] {
        ConcatCons(word, []);
      }
    } else if IsSpace(s[0]) {
      SplitWordsKeepsText(s[1..], []);
      assert Remove(s, Space) == Remove(s[1..], Space);
      var rest := SplitWordsFrom(s[1..], []);
      if word != [] {
        assert SplitWordsFrom(s, word) == [word] + rest;
        ConcatCons(word, rest);
      } else {
        assert SplitWordsFrom(s, word) == [] + rest == rest;
      }
    } else {
      SplitWordsKeepsText(s[1..], word + [s[0]]);
      assert Remove(s, Space) == [s[0]] + Remove(s[1..], Space);
    }
  }

  /** A whitespace character ends the word being read: the words of `a + [c] + b` are those of
      `a` followed by those of `b`. */
  lemma {:induction false} SplitWordsFromAtSpace(a: string, c: char, b: string, word: string)
    requires NoneOf(word, Space) && IsSpace(c)
    ensures SplitWordsFrom(a + [c] + b, word) == SplitWordsFrom(a, word) + SplitWordsFrom(b, [])
    decreases |a|
  {
    if a == [] {
      assert a + [c] + b == [c] + b && ([c] + b)[1..] == b;
    } else {
      assert (a + [c] + b)[0] == a[0] && (a + [c] + b)[1..] == a[1..] + [c] + b;
      if IsSpace(a[0]) {
        SplitWordsFromAtSpace(a[1..], c, b, []);
      } else {
        SplitWordsFromAtSpace(a[1..], c, b, word + [a[0]]);
      }
    }
  }

  /** `split()` breaks the text at every whitespace character. */
  lemma SplitWordsAtSpace(a: string, c: char, b: string)
    requires IsSpace(c)
    ensures SplitWords(a + [c] + b) == SplitWords(a) + SplitWords(b)
  {
    SplitWordsFromAtSpace(a, c, b, []);
  }

  /** Without whitespace, what is read is one word. */
  lemma {:induction false} SplitWordsFromOneWord(t: string, word: string)
    requires NoneOf(word, Space) && NoneOf(t, Space) && word + t != []
    ensures SplitWordsFrom(t, word) == [word + t]
    decreases |t|
  {
    if t == [] {
      assert word + t == word;
    } else {
      assert NoneOf(t[1..], Space) by {
        assert forall i :: 0 <= i < |t| - 1 ==> t[1..][i] == t[i + 1];
      }
      assert (word + [t[0]]) + t[1..] == word + t;
      SplitWordsFromOneWord(t[1..], word + [t[0]]);
    }
  }

  /** A non-empty text without whitespace is one word. */
  lemma OneWord(t: string)
    requires t != [] && NoneOf(t, Space)
    ensures SplitWords(t) == [t]
  {
    SplitWordsFromOneWord(t, []);
    assert [] + t == t;
  }

  /** Python's `re.split(r'[.!?]+', s)`, resumed inside a piece: `piece` holds the characters
      of the piece read so far and `inRun` tells that the last character read was a
      terminator. A maximal run of terminators ends a piece, so a leading or trailing run
      leaves an empty piece at that end. */
  function SplitRunsFrom(s: string, piece: string, inRun: bool): (r: seq<string>)
    requires NoneOf(piece, Terminator)
    ensures |r| >= 1
    ensures forall k :: 0 <= k < |r| ==> NoneOf(r[k], Terminator)
    decreases |s|
  {
    if s == [] then
      [piece]
    else if IsTerminator(s[0]) then
      if inRun then SplitRunsFrom(s[1..], piece, true) else [piece] + SplitRunsFrom(s[1..], [], true)
    else
      SplitRunsFrom(s[1..], piece + [s[0]], false)
  }

  /** Python's `re.split(r'[.!?]+', s)`. */
  function SplitOnTerminatorRuns(s: string): seq<string>
  {
    SplitRunsFrom(s, [], false)
  }

  /** Splitting into pieces loses the terminators and nothing else. */
  lemma {:induction false} SplitRunsKeepsText(s: string, piece: string, inRun: bool)
    requires NoneOf(piece, Terminator)
    ensures Concat(SplitRunsFrom(s, piece, inRun)) == piece + Remove(s, Terminator)
    decreases |s|
  {
    if s == [] {
      ConcatCons(piece, []);
    } else if IsTerminator(s[0]) {
      if inRun {
        SplitRunsKeepsText(s[1..], piece, true);
      } else {
        SplitRunsKeepsText(s[1..], [], true);
        ConcatCons(piece, SplitRunsFrom(s[1..], [], true));
      }
    } else {
      SplitRunsKeepsText(s[1..], piece + [s[0]], false);
    }
  }

  /** Strips every piece and keeps those that are not left empty. */
  function StripNonEmpty(pieces: seq<string>): (r: seq<string>)
    ensures |r| <= |pieces|
    ensures forall k :: 0 <= k < |r| ==> r[k] != [] && !IsSpace(r[k][0]) && !IsSpace(r[k][|r[k]| - 1])
  {
    if pieces == [] then []
    else
      var head := Strip(pieces[0]);
      var rest := StripNonEmpty(pieces[1..]);
      if head == [] then rest
      else
        var r := [head] + rest;
        assert r[0] == head && !IsSpace(head[0]) && !IsSpace(head[|head| - 1]);
        assert forall k :: 1 <= k < |r| ==> r[k] == rest[k - 1];
        r
  }

  /** Stripping and dropping works piece by piece, so it distributes over concatenation. */
  lemma {:induction false} StripNonEmptyAppend(x: seq<string>, y: seq<string>)
    ensures StripNonEmpty(x + y) == StripNonEmpty(x) + StripNonEmpty(y)
  {
    if x != [] {
      assert (x + y)[0] == x[0] && (x + y)[1..] == x[1..] + y;
      StripNonEmptyAppend(x[1..], y);
    } else {
      assert x + y == y;
    }
  }

  /** A terminator run at the start of the text leaves an empty piece only, which is dropped. */
  lemma StripLeadingRun(b: string)
    ensures StripNonEmpty(SplitRunsFrom(b, [], true)) == StripNonEmpty(SplitRunsFrom(b, [], false))
  {
    if b != [] && IsTerminator(b[0]) {
      StripNonEmptyAppend([[]], SplitRunsFrom(b[1..], [], true));
    }
  }

  /** A terminator closes the piece being read: the kept sentences of `a + [c] + b` are those of
      `a` followed by those of `b`. */
  lemma {:induction false} SplitRunsFromAtTerminator(a: string, c: char, b: string, piece: string, inRun: bool)
    requires NoneOf(piece, Terminator) && IsTerminator(c) && (inRun ==> piece == [])
    ensures StripNonEmpty(SplitRunsFrom(a + [c] + b, piece, inRun))
         == StripNonEmpty(SplitRunsFrom(a, piece, inRun)) + StripNonEmpty(SplitRunsFrom(b, [], true))
    decreases |a|
  {
    var rest := SplitRunsFrom(b, [], true);
    if a == [] {
      assert a + [c] + b == [c] + b && ([c] + b)[1..] == b;
      if inRun {
        StripNonEmptyAppend([[]], rest);
      } else {
        StripNonEmptyAppend([piece], rest);
      }
    } else {
      assert (a + [c] + b)[0] == a[0] && (a + [c] + b)[1..] == a[1..] + [c] + b;
      if IsTerminator(a[0]) {
        if inRun {
          SplitRunsFromAtTerminator(a[1..], c, b, piece, true);
        } else {
          SplitRunsFromAtTerminator(a[1..], c, b, [], true);
          StripNonEmptyAppend([piece], SplitRunsFrom(a[1..] + [c] + b, [], true));
          StripNonEmptyAppend([piece], SplitRunsFrom(a[1..], [], true));
        }
      } else {
        SplitRunsFromAtTerminator(a[1..], c, b, piece + [a[0]], false);
      }
    }
  }

  /** Without terminators, what is read is one piece. */
  lemma {:induction false} SplitRunsFromOnePiece(t: string, piece: string, inRun: bool)
    requires NoneOf(piece, Terminator) && NoneOf(t, Terminator)
    ensures SplitRunsFrom(t, piece, inRun) == [piece + t]
    decreases |t|
  {
    if t == [] {
      assert piece + t == piece;
    } else {
      assert NoneOf(t[1..], Terminator) by {
        assert forall i :: 0 <= i < |t| - 1 ==> t[1..][i] == t[i + 1];
      }
      assert (piece + [t[0]]) + t[1..] == piece + t;
      SplitRunsFromOnePiece(t[1..], piece + [t[0]], false);
    }
  }

  /** Every piece holds nothing but whitespace. */
  predicate AllBlank(pieces: seq<string>)
  {
    forall j :: 0 <= j < |pieces| ==> All(pieces[j], Space)
  }

  /** Nothing is kept exactly when every piece is blank. */
  lemma {:induction false} StripNonEmptyEmptyIff(pieces: seq<string>)
    ensures StripNonEmpty(pieces) == [] <==> AllBlank(pieces)
  {
    if pieces != [] {
      StripNonEmptyEmptyIff(pieces[1..]);
      assert forall j :: 1 <= j < |pieces| ==> pieces[j] == pieces[1..][j - 1];
    }
  }

  /** Stripping keeps a piece free of terminators. */
  lemma {:induction false} StripNonEmptyKeepsNoTerminator(pieces: seq<string>)
    requires forall j :: 0 <= j < |pieces| ==> NoneOf(pieces[j], Terminator)
    ensures forall k :: 0 <= k < |StripNonEmpty(pieces)| ==> NoneOf(StripNonEmpty(pieces)[k], Terminator)
  {
    if pieces != [] {
      var head := Strip(pieces[0]);
      StripNonEmptyKeepsNoTerminator(pieces[1..]);
      StripKeepsAbsence(pieces[0], Terminator);
    }
  }

  /** `[s.strip() for s in re.split(r'[.!?]+', text) if s.strip()]`: every sentence is
      non-empty, free of `.`, `!` and `?`, and neither starts nor ends with whitespace. */
  function Sentences(text: string): (r: seq<string>)
    ensures forall k :: 0 <= k < |r| ==>
              r[k] != [] && NoneOf(r[k], Terminator) && !IsSpace(r[k][0]) && !IsSpace(r[k][|r[k]| - 1])
  {
    StripNonEmptyKeepsNoTerminator(SplitOnTerminatorRuns(text));
    StripNonEmpty(SplitOnTerminatorRuns(text))
  }

  /** Every terminator ends a sentence: the sentences of `a + [c] + b` are those of `a`
      followed by those of `b`. */
  lemma SentencesAtTerminator(a: string, c: char, b: string)
    requires IsTerminator(c)
    ensures Sentences(a + [c] + b) == Sentences(a) + Sentences(b)
  {
    SplitRunsFromAtTerminator(a, c, b, [], false);
    StripLeadingRun(b);
  }

  /** A text without terminators is one sentence once stripped, or none when it is blank. */
  lemma OneSentence(t: string)
    requires NoneOf(t, Terminator)
    ensures Sentences(t) == (if Strip(t) == [] then [] else [Strip(t)])
  {
    SplitRunsFromOnePiece(t, [], false);
    assert [] + t == t;
  }

  /** `text.lower().split()`: every word is non-empty and free of whitespace, and the words
      written one after another are the lower-cased text without its whitespace. */
  function Words(text: string): (r: seq<string>)
    ensures forall k :: 0 <= k < |r| ==> r[k] != [] && NoneOf(r[k], Space)
    ensures Concat(r) == Remove(Lower(text), Space)
  {
    SplitWordsKeepsText(Lower(text), []);
    SplitWords(Lower(text))
  }

  /** The pieces are all blank exactly when the piece read so far is blank and the rest of
      the text holds nothing but whitespace and terminators. */
  lemma {:induction false} PiecesBlankIff(s: string, piece: string, inRun: bool)
    requires NoneOf(piece, Terminator)
    ensures AllBlank(SplitRunsFrom(s, piece, inRun)) <==> All(piece, Space) && All(s, SpaceOrTerminator)
    decreases |s|
  {
    if s == [] {
      assert SplitRunsFrom(s, piece, inRun) == [piece];
      assert All(s, SpaceOrTerminator);
      assert (forall j :: 0 <= j < |[piece]| ==> All([piece][j], Space)) <==> All(piece, Space) by {
        assert [piece][0] == piece;
      }
    } else {
      assert All(s, SpaceOrTerminator) <==> In(s[0], SpaceOrTerminator) && All(s[1..], SpaceOrTerminator) by {
        assert forall i :: 1 <= i < |s| ==> s[i] == s[1..][i - 1];
      }
      if IsTerminator(s[0]) {
        if inRun {
          PiecesBlankIff(s[1..], piece, true);
          assert SplitRunsFrom(s, piece, inRun) == SplitRunsFrom(s[1..], piece, true);
        } else {
          PiecesBlankIff(s[1..], [], true);
          var rest := SplitRunsFrom(s[1..], [], true);
          var all := [piece] + rest;
          assert SplitRunsFrom(s, piece, inRun) == all;
          assert all[0] == piece;
          assert forall j :: 1 <= j < |all| ==> all[j] == rest[j - 1];
          assert (forall j :: 0 <= j < |all| ==> All(all[j], Space))
                 <==> All(piece, Space) && (forall j :: 0 <= j < |rest| ==> All(rest[j], Space)) by {
            if forall j :: 0 <= j < |all| ==> All(all[j], Space) {
              forall j | 0 <= j < |rest| ensures All(rest[j], Space) {
                assert rest[j] == all[j + 1];
              }
            }
          }
        }
      } else {
        var longer := piece + [s[0]];
        PiecesBlankIff(s[1..], longer, false);
        assert SplitRunsFrom(s, piece, inRun) == SplitRunsFrom(s[1..], longer, false);
        assert In(s[0], SpaceOrTerminator) == IsSpace(s[0]);
        assert All(longer, Space) <==> All(piece, Space) && IsSpace(s[0]) by {
          assert longer[|piece|] == s[0];
          assert forall i :: 0 <= i < |piece| ==> longer[i] == piece[i];
        }
      }
    }
  }

  /** A transcript has no sentence exactly when it holds nothing but whitespace and terminators. */
  lemma {:induction false} NoSentencesIff(text: string)
    ensures Sentences(text) == [] <==> All(text, SpaceOrTerminator)
  {
    var pieces := SplitRunsFrom(text, [], false);
    PiecesBlankIff(text, [], false);
    assert All([], Space);
    StripNonEmptyEmptyIff(pieces);
  }

  /** A transcript has no word exactly when it holds nothing but whitespace. */
  lemma {:induction false} NoWordsIff(text: string)
    ensures Words(text) == [] <==> All(text, Space)
  {
    forall i | 0 <= i < |text| ensures In(Lower(text)[i], Space) == In(text[i], Space) {
      LowerKeepsClasses(text[i]);
    }
    assert All(Lower(text), Space) <==> All(text, Space);
  }

  /** An empty or whitespace-only input gives no words and no sentences once stripped. */
  lemma BlankInput(raw: string)
    requires All(raw, Space)
    ensures Words(Strip(raw)) == [] && Sentences(Strip(raw)) == []
  {
    NoSentencesIff(Strip(raw));
    NoWordsIff(Strip(raw));
  }
}

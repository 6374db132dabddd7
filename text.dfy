/** Character classes and the string operations the scoring engine relies on:
    lower-casing, stripping, substring tests and occurrence counts. */
module Text {

  /** Whitespace as Python's `str.isspace()` defines it (used by `strip()` and `split()`). */
  predicate IsSpace(c: char)
  {
    var n := c as int;
    (9 <= n <= 13) || (28 <= n <= 32) || n == 0x85 || n == 0xA0 || n == 0x1680
    || (0x2000 <= n <= 0x200A) || n == 0x2028 || n == 0x2029 || n == 0x202F
    || n == 0x205F || n == 0x3000
  }

  /** A regular-expression word character (`\w`), restricted to ASCII. */
  predicate IsWordChar(c: char)
  {
    ('a' <= c <= 'z') || ('A' <= c <= 'Z') || ('0' <= c <= '9') || c == '_'
  }

  /** A sentence terminator: one of `.`, `!` and `?`. */
  predicate IsTerminator(c: char)
  {
    c == '.' || c == '!' || c == '?'
  }

  /** `str.lower()` on one character, restricted to ASCII letters. */
  function LowerChar(c: char): char
  {
    if 'A' <= c <= 'Z' then (c as int + 32) as char else c
  }

  /** `str.lower()`: no upper-case letter remains, each one becomes its lower-case letter, and
      every other character is kept. */
  function Lower(s: string): (r: string)
    ensures |r| == |s|
    ensures forall i :: 0 <= i < |r| ==> !('A' <= r[i] <= 'Z')
    ensures forall i :: 0 <= i < |r| ==> r[i] == s[i] || ('A' <= s[i] <= 'Z' && r[i] as int == s[i] as int + 32)
  {
    seq(|s|, i requires 0 <= i < |s| => LowerChar(s[i]))
  }

  /** Lower-casing changes letters only: whitespace and terminators stay what they are. */
  lemma LowerKeepsClasses(c: char)
    ensures IsSpace(LowerChar(c)) == IsSpace(c)
    ensures IsTerminator(LowerChar(c)) == IsTerminator(c)
    ensures IsWordChar(LowerChar(c)) == IsWordChar(c)
  {
  }

  /** The character classes that splitting and stripping work with. */
  datatype CharClass = Space | Terminator | SpaceOrTerminator

  predicate In(c: char, k: CharClass)
  {
    match k
    case Space => IsSpace(c)
    case Terminator => IsTerminator(c)
    case SpaceOrTerminator => IsSpace(c) || IsTerminator(c)
  }

  predicate All(s: string, k: CharClass)
  {
    forall i :: 0 <= i < |s| ==> In(s[i], k)
  }

  predicate NoneOf(s: string, k: CharClass)
  {
    forall i :: 0 <= i < |s| ==> !In(s[i], k)
  }

  /** `s` without its leading whitespace. */
  function TrimStart(s: string): (r: string)
    ensures |r| <= |s|
    ensures r == [] <==> All(s, Space)
    ensures r != [] ==> !IsSpace(r[0])
    decreases |s|
  {
    if s != [] && IsSpace(s[0]) then
      var r := TrimStart(s[1..]);
      assert All(s, Space) <==> All(s[1..], Space) by {
        assert forall i :: 1 <= i < |s| ==> s[i] == s[1..][i - 1];
      }
      r
    else
      s
  }

  /** `s` without its trailing whitespace. */
  function TrimEnd(s: string): (r: string)
    ensures |r| <= |s|
    ensures r == [] <==> All(s, Space)
    ensures r != [] ==> !IsSpace(r[|r| - 1]) && r[0] == s[0]
    decreases |s|
  {
    if s != [] && IsSpace(s[|s| - 1]) then
      var r := TrimEnd(s[..|s| - 1]);
      assert All(s, Space) <==> All(s[..|s| - 1], Space) by {
        assert forall i :: 0 <= i < |s| - 1 ==> s[i] == s[..|s| - 1][i];
      }
      r
    else
      s
  }

  /** Python's `s.strip()`: the text between the leading and the trailing whitespace. */
  function Strip(s: string): (r: string)
    ensures r == [] <==> All(s, Space)
    ensures r != [] ==> !IsSpace(r[0]) && !IsSpace(r[|r| - 1])
  {
    TrimEnd(TrimStart(s))
  }

  /** What `lstrip()` keeps is a suffix of the text, and what it drops is whitespace. */
  lemma {:induction false} TrimStartDropsSpaces(s: string)
    ensures var r := TrimStart(s); r == s[|s| - |r|..] && All(s[..|s| - |r|], Space)
    decreases |s|
  {
    if s != [] && IsSpace(s[0]) {
      TrimStartDropsSpaces(s[1..]);
      var r := TrimStart(s[1..]);
      var n := |s| - |r|;
      assert r == s[n..] by {
        assert s[1..][n - 1..] == s[n..];
      }
      assert All(s[..n], Space) by {
        forall i | 0 <= i < n ensures IsSpace(s[..n][i]) {
          if i > 0 {
            assert s[..n][i] == s[1..][..n - 1][i - 1];
          }
        }
      }
    }
  }

  /** What `rstrip()` keeps is a prefix of the text, and what it drops is whitespace. */
  lemma {:induction false} TrimEndDropsSpaces(s: string)
    ensures var r := TrimEnd(s); r == s[..|r|] && All(s[|r|..], Space)
    decreases |s|
  {
    if s != [] && IsSpace(s[|s| - 1]) {
      TrimEndDropsSpaces(s[..|s| - 1]);
      var r := TrimEnd(s[..|s| - 1]);
      assert r == s[..|r|] by {
        assert s[..|s| - 1][..|r|] == s[..|r|];
      }
      assert All(s[|r|..], Space) by {
        forall i | 0 <= i < |s| - |r| ensures IsSpace(s[|r|..][i]) {
          if i < |s| - 1 - |r| {
            assert s[|r|..][i] == s[..|s| - 1][|r|..][i];
          }
        }
      }
    } else {
      assert s[|s|..] == [];
    }
  }

  /** `strip()` keeps the middle of the text: what it drops on either side is whitespace. */
  lemma StripBetweenSpaces(s: string)
    ensures var r := Strip(s);
      exists i :: 0 <= i <= |s| - |r| && r == s[i..i + |r|] && All(s[..i], Space) && All(s[i + |r|..], Space)
  {
    var t := TrimStart(s);
    var r := TrimEnd(t);
    var i := |s| - |t|;
    TrimStartDropsSpaces(s);
    TrimEndDropsSpaces(t);
    assert t == s[i..] && All(s[..i], Space);
    assert r == t[..|r|] && All(t[|r|..], Space);
    assert r == s[i..i + |r|];
    assert s[i + |r|..] == t[|r|..];
    assert 0 <= i <= |s| - |r| && r == s[i..i + |r|] && All(s[..i], Space) && All(s[i + |r|..], Space);
  }

  lemma {:induction false} TrimStartKeepsAbsence(s: string, k: CharClass)
    requires NoneOf(s, k)
    ensures NoneOf(TrimStart(s), k)
    decreases |s|
  {
    if s != [] && IsSpace(s[0]) {
      assert forall i :: 1 <= i < |s| ==> s[i] == s[1..][i - 1];
      TrimStartKeepsAbsence(s[1..], k);
    }
  }

  lemma {:induction false} TrimEndKeepsAbsence(s: string, k: CharClass)
    requires NoneOf(s, k)
    ensures NoneOf(TrimEnd(s), k)
    decreases |s|
  {
    if s != [] && IsSpace(s[|s| - 1]) {
      assert forall i :: 0 <= i < |s| - 1 ==> s[i] == s[..|s| - 1][i];
      TrimEndKeepsAbsence(s[..|s| - 1], k);
    }
  }

  /** Stripping only removes characters: a class absent from `s` stays absent. */
  lemma StripKeepsAbsence(s: string, k: CharClass)
    requires NoneOf(s, k)
    ensures NoneOf(Strip(s), k)
  {
    TrimStartKeepsAbsence(s, k);
    TrimEndKeepsAbsence(TrimStart(s), k);
  }

  predicate StartsWith(s: string, p: string)
  {
    |p| <= |s| && s[..|p|] == p
  }

  /** Python's `p in s`: `p` occurs as a contiguous piece of `s` (the empty string occurs everywhere). */
  predicate Contains(s: string, p: string)
    ensures Contains(s, p) ==> |p| <= |s|
    decreases |s|
  {
    StartsWith(s, p) || (s != [] && Contains(s[1..], p))
  }

  /** `p` occurs in `s` starting at index `i`. */
  predicate OccursAt(s: string, p: string, i: int)
  {
    0 <= i <= |s| - |p| && s[i..i + |p|] == p
  }

  /** `Contains` agrees with the positional definition of a substring. */
  lemma {:induction false} ContainsAt(s: string, p: string)
    ensures Contains(s, p) <==> exists i :: OccursAt(s, p, i)
    decreases |s|
  {
    if s == [] {
      if i :| OccursAt(s, p, i) {
        assert StartsWith(s, p);
      }
      if Contains(s, p) {
        assert OccursAt(s, p, 0);
      }
    } else {
      ContainsAt(s[1..], p);
      if StartsWith(s, p) {
        assert OccursAt(s, p, 0);
      }
      if Contains(s[1..], p) {
        var i :| OccursAt(s[1..], p, i);
        assert s[i + 1..i + 1 + |p|] == s[1..][i..i + |p|];
        assert OccursAt(s, p, i + 1);
      }
      if i :| OccursAt(s, p, i) {
        if i == 0 {
          assert StartsWith(s, p);
        } else {
          assert s[1..][i - 1..i - 1 + |p|] == s[i..i + |p|];
          assert OccursAt(s[1..], p, i - 1);
        }
      }
    }
  }

  /** A string holding a character that `s` lacks does not occur in `s`. */
  lemma {:induction false} AbsentCharNotContained(s: string, p: string, i: nat)
    requires i < |p| && p[i] !in s
    ensures !Contains(s, p)
  {
    if s != [] {
      AbsentCharNotContained(s[1..], p, i);
    }
  }

  /** Python's `any(p in s for p in ps)`. */
  predicate ContainsAny(s: string, ps: seq<string>)
    ensures ContainsAny(s, ps) <==> exists k :: 0 <= k < |ps| && Contains(s, ps[k])
  {
    if ps == [] then false
    else if Contains(s, ps[0]) then true
    else
      var rest := ContainsAny(s, ps[1..]);
      assert forall k :: 1 <= k < |ps| ==> ps[k] == ps[1..][k - 1];
      rest
  }

  /** Python's `s.count(p)` for a non-empty `p`: occurrences that do not overlap,
      found scanning from the left. */
  function CountOccurrences(s: string, p: string): (r: nat)
    requires p != []
    ensures r > 0 <==> Contains(s, p)
    ensures r * |p| <= |s|
    decreases |s|
  {
    if |s| < |p| then 0
    else if StartsWith(s, p) then
      var rest := CountOccurrences(s[|p|..], p);
      assert (1 + rest) * |p| == |p| + rest * |p|;
      1 + rest
    else
      CountOccurrences(s[1..], p)
  }

  /** A regular-expression word boundary `\b` lies between a character whose word-ness is
      `before` (false at the start of the text) and the text `rest`. */
  predicate Boundary(before: bool, rest: string)
  {
    before != (rest != [] && IsWordChar(rest[0]))
  }

  /** The pattern `\bw\b` matches at the head of `s`, the character before `s` having word-ness `before`. */
  predicate WholeWordAtHead(s: string, w: string, before: bool)
    requires w != []
  {
    StartsWith(s, w) && Boundary(before, s) && Boundary(IsWordChar(w[|w| - 1]), s[|w|..])
  }

  /** `\bw\b` matches at position `i` of `s`, where `before` is the word-ness of what precedes `s`. */
  predicate WholeWordAt(s: string, w: string, before: bool, i: int)
    requires w != []
  {
    0 <= i <= |s| && WholeWordAtHead(s[i..], w, if i == 0 then before else IsWordChar(s[i - 1]))
  }

  /** `len(re.findall(r'\b' + re.escape(w) + r'\b', s))` for a non-empty `w`: the engine tries
      each position from the left and resumes after each match. */
  function CountWholeWord(s: string, w: string, before: bool): (r: nat)
    requires w != []
    ensures r > 0 ==> Contains(s, w)
    decreases |s|
  {
    if |s| < |w| then 0
    else if WholeWordAtHead(s, w, before) then 1 + CountWholeWord(s[|w|..], w, IsWordChar(w[|w| - 1]))
    else CountWholeWord(s[1..], w, IsWordChar(s[0]))
  }

  /** The count is positive exactly when the pattern matches somewhere. */
  lemma {:induction false} CountWholeWordPositive(s: string, w: string, before: bool)
    requires w != []
    ensures CountWholeWord(s, w, before) > 0 <==> exists i :: WholeWordAt(s, w, before, i)
    decreases |s|
  {
    if |s| < |w| {
      if i :| WholeWordAt(s, w, before, i) {
        assert |s[i..]| >= |w|;
      }
    } else if WholeWordAtHead(s, w, before) {
      assert s[0..] == s;
      assert WholeWordAt(s, w, before, 0);
    } else {
      var next := IsWordChar(s[0]);
      CountWholeWordPositive(s[1..], w, next);
      if i :| WholeWordAt(s[1..], w, next, i) {
        assert s[1..][i..] == s[i + 1..];
        assert WholeWordAt(s, w, before, i + 1);
      }
      if i :| WholeWordAt(s, w, before, i) {
        assert s[0..] == s;
        assert i != 0;
        assert s[1..][i - 1..] == s[i..];
        assert WholeWordAt(s[1..], w, next, i - 1);
      }
    }
  }

  /** A word that holds a character the text lacks is never counted. */
  lemma AbsentCharNoWholeWord(s: string, w: string, before: bool, i: nat)
    requires i < |w| && w[i] !in s
    ensures CountWholeWord(s, w, before) == 0
  {
    AbsentCharNotContained(s, w, i);
  }

  /** Being a substring is transitive: a piece of a piece of `s` is a piece of `s`. */
  lemma ContainsTransitive(s: string, p: string, q: string)
    requires Contains(s, p) && Contains(p, q)
    ensures Contains(s, q)
  {
    ContainsAt(s, p);
    ContainsAt(p, q);
    var i :| OccursAt(s, p, i);
    var j :| OccursAt(p, q, j);
    assert s[i..i + |p|] == p;
    forall k | i + j <= k < i + j + |q|
      ensures s[k] == q[k - i - j]
    {
      assert s[k] == s[i..i + |p|][k - i];
      assert p[k - i] == p[j..j + |q|][k - i - j];
    }
    assert s[i + j..i + j + |q|] == q;
    assert OccursAt(s, q, i + j);
    ContainsAt(s, q);
  }

  /** A string holding a character the text lacks is never counted. */
  lemma AbsentCharNoOccurrence(s: string, p: string, i: nat)
    requires i < |p| && p[i] !in s
    ensures CountOccurrences(s, p) == 0
  {
    AbsentCharNotContained(s, p, i);
  }

  /** The strings of `ss` written one after another. */
  function Concat(ss: seq<string>): string
  {
    if ss == [] then [] else ss[0] + Concat(ss[1..])
  }

  /** `s` without its characters of class `k`. */
  function Remove(s: string, k: CharClass): (r: string)
    ensures |r| <= |s|
  {
    if s == [] then []
    else (if In(s[0], k) then [] else [s[0]]) + Remove(s[1..], k)
  }

  lemma {:induction false} RemoveAppend(a: string, b: string, k: CharClass)
    ensures Remove(a + b, k) == Remove(a, k) + Remove(b, k)
  {
    if a != [] {
      assert (a + b)[1..] == a[1..] + b;
      RemoveAppend(a[1..], b, k);
    } else {
      assert a + b == b;
    }
  }

  lemma {:induction false} RemoveAll(s: string, k: CharClass)
    requires All(s, k)
    ensures Remove(s, k) == []
  {
    if s != [] {
      RemoveAll(s[1..], k);
    }
  }

  lemma {:induction false} RemoveNone(s: string, k: CharClass)
    requires NoneOf(s, k)
    ensures Remove(s, k) == s
  {
    if s != [] {
      RemoveNone(s[1..], k);
    }
  }

  /** The decimal digits of `n`, as Python's `str(n)` writes them. */
  function NatToString(n: nat): (r: string)
    ensures |r| >= 1
    ensures forall i :: 0 <= i < |r| ==> '0' <= r[i] <= '9'
    ensures r[0] == '0' ==> n == 0
    ensures |r| > 1 ==> r[0] != '0'
  {
    if n < 10 then [('0' as int + n) as char]
    else NatToString(n / 10) + [('0' as int + n % 10) as char]
  }

  /** The number a string of decimal digits denotes. */
  function DigitsValue(s: string): nat
  {
    if s == [] then 0
    else
      var d := s[|s| - 1] as int - '0' as int;
      DigitsValue(s[..|s| - 1]) * 10 + (if 0 <= d <= 9 then d else 0)
  }

  /** Reading back the digits written for `n` gives `n`. */
  lemma {:induction false} NatToStringRoundTrip(n: nat)
    ensures DigitsValue(NatToString(n)) == n
  {
    if n >= 10 {
      NatToStringRoundTrip(n / 10);
      var r := NatToString(n);
      assert r[..|r| - 1] == NatToString(n / 10);
    }
  }

  /** Python's `sep.join(parts)`. */
  function Join(parts: seq<string>, sep: string): string
  {
    if parts == [] then []
    else if |parts| == 1 then parts[0]
    else parts[0] + sep + Join(parts[1..], sep)
  }

  /** `r` is `a`, `b` and `c` in that order, with a single space between neighbours. */
  predicate SpaceSeparated(r: string, a: string, b: string, c: string)
  {
    |r| == |a| + |b| + |c| + 2 && r[..|a|] == a && r[|a|] == ' ' &&
    r[|a| + 1..|a| + 1 + |b|] == b && r[|a| + 1 + |b|] == ' ' && r[|r| - |c|..] == c
  }

  /** Writing three parts with spaces between them gives a space-separated text. */
  lemma SpacedThree(a: string, b: string, c: string)
    ensures SpaceSeparated(a + " " + b + " " + c, a, b, c)
  {
  }

  /** The first, second and last of four parts written one after another can be read back by position. */
  lemma ReadFour(a: string, b: string, c: string, e: string)
    ensures var x := a + b + c + e;
            |a| + |b| <= |x| && |e| <= |x| && x[..|a|] == a && x[|a|..|a| + |b|] == b && x[|x| - |e|..] == e
  {
  }

  /** Joining three parts puts the separator between neighbours and nowhere else. */
  lemma JoinThree(a: string, b: string, c: string, sep: string)
    ensures Join([a, b, c], sep) == a + sep + b + sep + c
  {
    assert [a, b, c][1..] == [b, c];
    assert [b, c][1..] == [c];
    assert Join([c], sep) == c;
    assert Join([b, c], sep) == b + sep + c;
    assert Join([a, b, c], sep) == a + sep + (b + sep + c);
  }
}

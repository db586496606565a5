/** The reading-grade estimator `_reading_grade_estimate` over plain page text:
    characters outside `[a-zA-Z0-9.?! ]` are replaced (a run by one space),
    words are the `\w+` tokens, sentences the pieces between runs of `.?!`,
    syllables the vowel runs of each word. The grade is kept exactly, as the
    nearest number of tenths (ties to even), instead of a binary float. */
module Readability {
  import opened Numeric

  predicate IsAlnum(c: char) {
    ('a' <= c <= 'z') || ('A' <= c <= 'Z') || ('0' <= c <= '9')
  }

  /** The characters the cleaning substitution leaves alone. */
  predicate Kept(c: char) {
    IsAlnum(c) || c == '.' || c == '?' || c == '!' || c == ' '
  }

  /** `\w` as it can match on cleaned text: ASCII letters, digits and '_'. */
  predicate IsWordChar(c: char) {
    IsAlnum(c) || c == '_'
  }

  predicate IsTerminator(c: char) {
    c == '.' || c == '?' || c == '!'
  }

  /** `[aeiouyAEIOUY]`. */
  predicate IsVowel(c: char) {
    c in "aeiouyAEIOUY"
  }

  /** The ASCII characters `str.strip()` removes. */
  predicate IsSpace(c: char) {
    c == ' ' || (9 <= c as int <= 13) || (0x1c <= c as int <= 0x1f)
  }

  /** Length of the longest prefix of s whose characters all satisfy p. */
  function Span(s: string, p: char -> bool): (n: nat)
    ensures n <= |s|
  {
    if |s| == 0 || !p(s[0]) then 0 else 1 + Span(s[1..], p)
  }

  /** The span is made of p-characters and stops at the first other one. */
  lemma {:induction false} SpanShape(s: string, p: char -> bool)
    ensures forall i :: 0 <= i < Span(s, p) ==> p(s[i])
    ensures Span(s, p) < |s| ==> !p(s[Span(s, p)])
    decreases |s|
  {
    if |s| > 0 && p(s[0]) {
      SpanShape(s[1..], p);
      forall i | 0 < i < Span(s, p)
        ensures s[i] == s[1..][i - 1]
      {
      }
    }
  }

  /** `re.sub(r"[^a-zA-Z0-9\.?! ]+", " ", text)`. */
  function Clean(s: string): (r: string)
    ensures |r| <= |s|
    ensures forall i :: 0 <= i < |r| ==> Kept(r[i])
    decreases |s|
  {
    if |s| == 0 then []
    else if Kept(s[0]) then [s[0]] + Clean(s[1..])
    else
      var n := Span(s, c => !Kept(c));
      [' '] + Clean(s[n..])
  }

  /** The maximal runs of p-characters, left to right (`re.findall(r"[p]+", s)`). */
  function Runs(s: string, p: char -> bool): seq<string>
    decreases |s|
  {
    if |s| == 0 then []
    else if !p(s[0]) then Runs(s[1..], p)
    else
      var n := Span(s, p);
      [s[..n]] + Runs(s[n..], p)
  }

  /** Every run is non-empty and made only of p-characters. */
  lemma {:induction false} RunsShape(s: string, p: char -> bool)
    ensures forall k :: 0 <= k < |Runs(s, p)| ==> |Runs(s, p)[k]| > 0
    ensures forall k, j :: 0 <= k < |Runs(s, p)| && 0 <= j < |Runs(s, p)[k]| ==> p(Runs(s, p)[k][j])
    decreases |s|
  {
    if |s| > 0 {
      if !p(s[0]) {
        RunsShape(s[1..], p);
      } else {
        var n := Span(s, p);
        var rest := Runs(s[n..], p);
        SpanShape(s, p);
        RunsShape(s[n..], p);
        assert Runs(s, p) == [s[..n]] + rest;
        forall k | 0 < k < |Runs(s, p)|
          ensures Runs(s, p)[k] == rest[k - 1]
        {
        }
      }
    }
  }

  /** `re.split(r"[\.?!]+", s)` for a delimiter class d: never empty. */
  function SplitOn(s: string, d: char -> bool): (r: seq<string>)
    ensures |r| >= 1
    ensures forall k :: 0 <= k < |r| ==> forall j :: 0 <= j < |r[k]| ==> !d(r[k][j])
    decreases |s|
  {
    var n := Span(s, c => !d(c));
    SpanShape(s, c => !d(c));
    if n == |s| then [s]
    else
      var m := Span(s[n..], d);
      [s[..n]] + SplitOn(s[n + m..], d)
  }

  /** A span over a string made of p-characters followed by a boundary is
      exactly that string. */
  lemma {:induction false} SpanAll(a: string, b: string, p: char -> bool)
    requires forall i :: 0 <= i < |a| ==> p(a[i])
    requires |b| == 0 || !p(b[0])
    ensures Span(a + b, p) == |a|
    decreases |a|
  {
    if |a| == 0 {
      assert a + b == b;
    } else {
      assert (a + b)[1..] == a[1..] + b;
      SpanAll(a[1..], b, p);
    }
  }

  /** Kept characters pass through the substitution unchanged. */
  lemma {:induction false} CleanKeptPrefix(k: string, t: string)
    requires forall i :: 0 <= i < |k| ==> Kept(k[i])
    ensures Clean(k + t) == k + Clean(t)
    decreases |k|
  {
    if |k| == 0 {
      assert k + t == t;
    } else {
      assert (k + t)[1..] == k[1..] + t;
      CleanKeptPrefix(k[1..], t);
      assert k == [k[0]] + k[1..];
    }
  }

  /** A text made only of kept characters is its own cleaning. */
  lemma CleanKept(s: string)
    requires forall i :: 0 <= i < |s| ==> Kept(s[i])
    ensures Clean(s) == s
  {
    CleanKeptPrefix(s, []);
    assert s + [] == s;
  }

  /** A maximal run of characters outside the class becomes a single space. */
  lemma CleanJunkRun(j: string, t: string)
    requires |j| > 0 && forall i :: 0 <= i < |j| ==> !Kept(j[i])
    requires |t| == 0 || Kept(t[0])
    ensures Clean(j + t) == " " + Clean(t)
  {
    SpanAll(j, t, c => !Kept(c));
    assert (j + t)[0] == j[0];
    assert (j + t)[|j|..] == t;
  }

  /** A text without a delimiter is a single piece. */
  lemma SplitNoDelim(s: string, d: char -> bool)
    requires forall i :: 0 <= i < |s| ==> !d(s[i])
    ensures SplitOn(s, d) == [s]
  {
    SpanAll(s, [], c => !d(c));
    assert s + [] == s;
  }

  /** The first piece is the text before the first delimiter run; splitting
      goes on after the whole run. */
  lemma SplitOnPiece(a: string, dl: string, rest: string, d: char -> bool)
    requires forall i :: 0 <= i < |a| ==> !d(a[i])
    requires |dl| > 0 && forall i :: 0 <= i < |dl| ==> d(dl[i])
    requires |rest| == 0 || !d(rest[0])
    ensures SplitOn(a + dl + rest, d) == [a] + SplitOn(rest, d)
  {
    var s := a + dl + rest;
    assert s == a + (dl + rest);
    assert (dl + rest)[0] == dl[0];
    SpanAll(a, dl + rest, c => !d(c));
    assert s[..|a|] == a;
    assert s[|a|..] == dl + rest;
    SpanAll(dl, rest, d);
    assert s[|a| + |dl|..] == rest;
  }

  predicate Blank(p: string) {
    forall i :: 0 <= i < |p| ==> IsSpace(p[i])
  }

  /** `len([s for s in pieces if s.strip()])`. */
  function CountNonBlank(pieces: seq<string>): (n: nat)
    ensures n <= |pieces|
  {
    if |pieces| == 0 then 0
    else (if Blank(pieces[0]) then 0 else 1) + CountNonBlank(pieces[1..])
  }

  /** The per-word loop `syllables += len(vowels.findall(w))`. */
  function SumSyllables(words: seq<string>): nat {
    if |words| == 0 then 0 else |Runs(words[0], IsVowel)| + SumSyllables(words[1..])
  }

  datatype Stats = Stats(words: nat, sentences: nat, syllables: nat)

  /** The three counts the formula needs, taken from the cleaned text. */
  function TextStats(text: string): (st: Stats)
    ensures st.sentences >= 1
  {
    var t := Clean(text);
    var ws := Runs(t, IsWordChar);
    var nonBlank := CountNonBlank(SplitOn(t, IsTerminator));
    Stats(|ws|, if nonBlank < 1 then 1 else nonBlank, SumSyllables(ws))
  }

  /** `0.39 * words/sentences + 11.8 * syllables/words - 15.59`, exactly. */
  function RawGrade(st: Stats): real
    requires st.words > 0 && st.sentences > 0
  {
    0.39 * (st.words as real / st.sentences as real)
      + 11.8 * (st.syllables as real / st.words as real) - 15.59
  }

  /** `_reading_grade_estimate(text)` in tenths of a grade: 0 when the text
      has no word token, else the formula rounded to one decimal. */
  function GradeTenths(text: string): (g: int)
    ensures TextStats(text).words == 0 ==> g == 0
    ensures TextStats(text).words > 0 ==> g == RoundHalfEven(10.0 * RawGrade(TextStats(text)))
  {
    var t := Clean(text);
    var ws := Runs(t, IsWordChar);
    var pieces := SplitOn(t, IsTerminator);
    if |ws| == 0 || |pieces| == 0 then 0
    else RoundHalfEven(10.0 * RawGrade(TextStats(text)))
  }

  /** The grade can also come out as exactly 0.0 for a text that has words:
      7 words in 7 sentences with 9 syllables give -0.03, which rounds to 0.0. */
  lemma ZeroGradeWithWords()
    ensures RoundHalfEven(10.0 * RawGrade(Stats(7, 7, 9))) == 0
  {
    assert 10.0 * RawGrade(Stats(7, 7, 9)) == -2.0 / 7.0;
  }

  /** Short sentences of one-syllable words always land in the good band:
      at most 25 words per sentence and no more syllables than words give a
      grade of at most 6.0. */
  lemma PlainTextIsEasy(st: Stats)
    requires st.words > 0 && st.sentences > 0
    requires st.syllables <= st.words
    requires st.words <= 25 * st.sentences
    ensures RoundHalfEven(10.0 * RawGrade(st)) <= 60
  {
    var w, s, y := st.words as real, st.sentences as real, st.syllables as real;
    RealDivAtMost(w, s, 25.0);
    RealDivAtMost(y, w, 1.0);
    var a, b := w / s, y / w;
    assert RawGrade(st) == 0.39 * a + 11.8 * b - 15.59;
    assert 10.0 * RawGrade(st) <= 59.6;
    RoundHalfEvenMonotone(10.0 * RawGrade(st), 59.6);
    assert RoundHalfEven(59.6) == 60 by {
      assert (59.6).Floor == 59;
    }
  }

  // ---- syllables: counting per word equals counting over the whole text ----

  /** A span cannot run past a boundary where p fails. */
  lemma {:induction false} SpanAppend(a: string, b: string, p: char -> bool)
    requires |b| == 0 || !p(b[0])
    ensures Span(a + b, p) == Span(a, p)
    decreases |a|
  {
    if |a| == 0 {
      assert a + b == b;
    } else if p(a[0]) {
      assert (a + b)[1..] == a[1..] + b;
      SpanAppend(a[1..], b, p);
    }
  }

  /** Joining two strings where a run cannot continue joins their runs. */
  lemma {:induction false} RunsAppend(a: string, b: string, p: char -> bool)
    requires |b| == 0 || !p(b[0])
    ensures Runs(a + b, p) == Runs(a, p) + Runs(b, p)
    decreases |a|
  {
    if |a| == 0 {
      assert a + b == b;
    } else if !p(a[0]) {
      assert (a + b)[1..] == a[1..] + b;
      RunsAppend(a[1..], b, p);
    } else {
      var m := Span(a, p);
      SpanAppend(a, b, p);
      assert (a + b)[..m] == a[..m];
      assert (a + b)[m..] == a[m..] + b;
      RunsAppend(a[m..], b, p);
    }
  }

  /** Summing the vowel runs of every word counts the vowel runs of the whole
      cleaned text, since vowels are word characters. */
  lemma {:induction false} SyllablesAreVowelRuns(s: string)
    ensures SumSyllables(Runs(s, IsWordChar)) == |Runs(s, IsVowel)|
    decreases |s|
  {
    if |s| > 0 {
      if !IsWordChar(s[0]) {
        assert !IsVowel(s[0]);
        SyllablesAreVowelRuns(s[1..]);
      } else {
        var n := Span(s, IsWordChar);
        SpanShape(s, IsWordChar);
        assert n == |s| || !IsVowel(s[n]);
        assert s == s[..n] + s[n..];
        RunsAppend(s[..n], s[n..], IsVowel);
        SyllablesAreVowelRuns(s[n..]);
      }
    }
  }

  // ---- texts of one-word sentences: the counts are known exactly ----

  /** A non-empty token of letters and digits. */
  predicate IsWord(w: string) {
    |w| > 0 && forall i :: 0 <= i < |w| ==> IsAlnum(w[i])
  }

  /** The text "w1.w2.…wn." with one word per sentence. */
  function Sentences(ws: seq<string>): string {
    if |ws| == 0 then "" else ws[0] + "." + Sentences(ws[1..])
  }

  lemma SentencesStart(ws: seq<string>)
    requires forall k :: 0 <= k < |ws| ==> IsWord(ws[k])
    ensures |Sentences(ws)| == 0 || IsAlnum(Sentences(ws)[0])
  {
    if |ws| > 0 {
      assert Sentences(ws)[0] == ws[0][0];
    }
  }

  lemma {:induction false} SentencesKept(ws: seq<string>)
    requires forall k :: 0 <= k < |ws| ==> IsWord(ws[k])
    ensures forall i :: 0 <= i < |Sentences(ws)| ==> Kept(Sentences(ws)[i])
  {
    if |ws| > 0 {
      SentencesKept(ws[1..]);
      var w, rest := ws[0], Sentences(ws[1..]);
      forall i | 0 <= i < |Sentences(ws)|
        ensures Kept(Sentences(ws)[i])
      {
        if i < |w| {
          assert Sentences(ws)[i] == w[i];
        } else if i > |w| {
          assert Sentences(ws)[i] == rest[i - |w| - 1];
        }
      }
    }
  }

  /** A non-empty string of p-characters is a single run. */
  lemma RunsWhole(w: string, p: char -> bool)
    requires |w| > 0 && forall i :: 0 <= i < |w| ==> p(w[i])
    ensures Runs(w, p) == [w]
  {
    SpanAll(w, [], p);
    assert w + [] == w;
  }

  /** A leading character outside the class starts no run. */
  lemma RunsSkip(c: char, rest: string, p: char -> bool)
    requires !p(c)
    ensures Runs([c] + rest, p) == Runs(rest, p)
  {
    assert ([c] + rest)[1..] == rest;
  }

  lemma WordThenDotRuns(w: string, rest: string)
    requires IsWord(w)
    requires |rest| == 0 || IsAlnum(rest[0])
    ensures Runs(w + "." + rest, IsWordChar) == [w] + Runs(rest, IsWordChar)
  {
    assert w + "." + rest == w + ("." + rest);
    RunsAppend(w, "." + rest, IsWordChar);
    RunsWhole(w, IsWordChar);
    RunsSkip('.', rest, IsWordChar);
  }

  lemma {:induction false} SentencesWords(ws: seq<string>)
    requires forall k :: 0 <= k < |ws| ==> IsWord(ws[k])
    ensures Runs(Sentences(ws), IsWordChar) == ws
  {
    if |ws| > 0 {
      SentencesWords(ws[1..]);
      SentencesStart(ws[1..]);
      WordThenDotRuns(ws[0], Sentences(ws[1..]));
    }
  }

  /** Each word is one non-blank piece; the empty tail after the last '.' is
      blank. */
  lemma {:induction false} SentencesCount(ws: seq<string>)
    requires forall k :: 0 <= k < |ws| ==> IsWord(ws[k])
    ensures CountNonBlank(SplitOn(Sentences(ws), IsTerminator)) == |ws|
  {
    if |ws| == 0 {
      SplitNoDelim("", IsTerminator);
      assert Blank("");
    } else {
      var w, rest := ws[0], Sentences(ws[1..]);
      SentencesCount(ws[1..]);
      SentencesStart(ws[1..]);
      SplitOnPiece(w, ".", rest, IsTerminator);
      assert !Blank(w) by { assert !IsSpace(w[0]); }
      var ps := SplitOn(Sentences(ws), IsTerminator);
      assert ps[0] == w;
      assert ps[1..] == SplitOn(rest, IsTerminator);
    }
  }

  /** n one-word sentences count as n words and n sentences (at least one),
      with the syllables of the words. */
  lemma SentencesStats(ws: seq<string>)
    requires forall k :: 0 <= k < |ws| ==> IsWord(ws[k])
    ensures TextStats(Sentences(ws)) == Stats(|ws|, if |ws| == 0 then 1 else |ws|, SumSyllables(ws))
  {
    SentencesKept(ws);
    CleanKept(Sentences(ws));
    SentencesWords(ws);
    SentencesCount(ws);
  }

  /** Seven one-word sentences with nine syllables between them have words
      and still grade exactly 0.0, the value an empty text gets. */
  lemma ZeroGradeSentences(ws: seq<string>)
    requires forall k :: 0 <= k < |ws| ==> IsWord(ws[k])
    requires |ws| == 7 && SumSyllables(ws) == 9
    ensures TextStats(Sentences(ws)).words == 7
    ensures GradeTenths(Sentences(ws)) == 0
  {
    SentencesStats(ws);
    ZeroGradeWithWords();
  }

  lemma VowelRunsOfAba()
    ensures Runs("aba", IsVowel) == ["a", "a"]
  {
    assert IsVowel('a') && !IsVowel('b');
    assert "aba" == "a" + "ba";
    RunsAppend("a", "ba", IsVowel);
    RunsWhole("a", IsVowel);
    assert "ba" == ['b'] + "a";
    RunsSkip('b', "a", IsVowel);
  }

  /** The seven words a, a, a, a, a, aba, aba carry nine syllables, so the
      text "a.a.a.a.a.aba.aba." is one ZeroGradeSentences speaks of. */
  lemma ZeroGradeSample()
    ensures IsWord("a") && IsWord("aba")
    ensures SumSyllables(["a", "a", "a", "a", "a", "aba", "aba"]) == 9
  {
    VowelRunsOfAba();
    RunsWhole("a", IsVowel);
  }

  /** `max(range(len(texts)), key=lambda i: len(texts[i]))`: the first of the
      longest texts. */
  function LongestIndex(texts: seq<string>): (k: nat)
    requires |texts| > 0
    ensures k < |texts|
    ensures forall i :: 0 <= i < |texts| ==> |texts[i]| <= |texts[k]|
    ensures forall i :: 0 <= i < k ==> |texts[i]| < |texts[k]|
  {
    if |texts| == 1 then 0
    else
      var k := LongestIndex(texts[..|texts| - 1]);
      if |texts[|texts| - 1]| > |texts[k]| then |texts| - 1 else k
  }
}

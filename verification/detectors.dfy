/** The content detectors of aeo_logic1.py (`_third_person_signal`,
    `_has_faq`, `_testimonial_score`, `_has_comparison_table`) and the way
    `run_audit` combines them across pages. Parsing is abstract: a page is
    the text the parser extracts plus the counts its regular expressions and
    tree queries produce. */
module Detectors {
  import opened Seqs
  import opened Text

  datatype Tone = Third | First | Mixed

  /** `_third_person_signal`, given how often the first-person pattern
      `\b(we|our|us|i|my)\b` and the third-person pattern
      `\b(they|their|the company|the team)\b` match the lower-cased text. */
  function ToneOf(first: nat, third: nat): (t: Tone)
    ensures t == Third <==> third > first
    ensures t == First <==> first > third
    ensures t == Mixed <==> first == third
  {
    if third > first then Third else if first > third then First else Mixed
  }

  /** The cross-page verdict: a tone wins when strictly more than half of
      the pages show it (`tones.count(x) > len(tones) / 2.0`), "third" being
      tried first; otherwise mixed. At most one tone can have a strict
      majority, so the order of the two tests never matters. */
  function MajorityTone(tones: seq<Tone>): (t: Tone)
    ensures t == Third <==> 2 * Count(tones, Third) > |tones|
    ensures t == First <==> 2 * Count(tones, First) > |tones|
    ensures t == Mixed <==> 2 * Count(tones, Third) <= |tones| && 2 * Count(tones, First) <= |tones|
  {
    CountTwoBound(tones, Third, First);
    if 2 * Count(tones, Third) > |tones| then Third
    else if 2 * Count(tones, First) > |tones| then First
    else Mixed
  }

  /** The three FAQ signals of `_has_faq`: matches of `\b(q:|question)\b` in
      the lower-cased text, `details summary` elements, and elements whose
      itemtype contains "FAQPage". */
  datatype FaqSignals = FaqSignals(keywordHits: nat, detailsSummaries: nat, faqPageItems: nat)

  /** `_has_faq`: at least two FAQ signals in total, of whatever kind. */
  predicate HasFaq(f: FaqSignals) {
    f.keywordHits + f.detailsSummaries + f.faqPageItems >= 2
  }

  /** The three testimonial signals of `_testimonial_score`: matches of
      `\b(testimonial|what our customers|reviews?)\b`, of `5\s*-?\s*star`,
      and double-quoted spans of ten or more characters. */
  datatype TestimonialSignals = TestimonialSignals(reviewWords: nat, starPhrases: nat, longQuotes: nat)

  function TestimonialScore(t: TestimonialSignals): nat {
    t.reviewWords + t.starPhrases + t.longQuotes
  }

  /** `_has_comparison_table`: a table exists and the lower-cased page text
      contains " vs " (with both spaces), "compare" or "comparison". */
  predicate HasComparisonTable(hasTable: bool, text: string) {
    var t := Lower(text);
    hasTable && (Contains(t, " vs ") || Contains(t, "compare") || Contains(t, "comparison"))
  }

  /** Without a table nothing counts as a comparison, whatever the wording. */
  lemma NoTableNoComparison(text: string)
    ensures !HasComparisonTable(false, text)
  {
  }

  lemma {:induction false} LowerAppend(a: string, b: string)
    ensures Lower(a + b) == Lower(a) + Lower(b)
  {
  }

  lemma LowerOfLowercase(w: string)
    requires forall i :: 0 <= i < |w| ==> !('A' <= w[i] <= 'Z')
    ensures Lower(w) == w
  {
  }

  lemma StartsWithAppend(w: string, rest: string)
    ensures Contains(w + rest, w)
  {
    assert (w + rest)[..|w|] == w;
  }

  lemma LowerAround(prefix: string, w: string, suffix: string)
    requires Lower(w) == w
    ensures Lower(prefix + w + suffix) == Lower(prefix) + (w + Lower(suffix))
  {
    LowerAppend(prefix + w, suffix);
    LowerAppend(prefix, w);
  }

  /** Any text that mentions "compare" somewhere, in any ASCII letter case,
      makes a page with a table a comparison page. */
  lemma CompareAnywhere(prefix: string, suffix: string)
    ensures HasComparisonTable(true, prefix + "compare" + suffix)
  {
    var w := "compare";
    LowerOfLowercase(w);
    LowerAround(prefix, w, suffix);
    StartsWithAppend(w, Lower(suffix));
    ContainsSuffix(Lower(prefix), w + Lower(suffix), w);
  }

  /** What the parser collaborator yields for one fetched page: the text of
      `soup.get_text(" ")`, the two tone counts, and the three tree-based
      detector inputs, each None when querying the tree raised. */
  datatype PageView = PageView(
    text: string,
    firstPerson: nat,
    thirdPerson: nat,
    faq: Option<FaqSignals>,
    testimonials: Option<TestimonialSignals>,
    hasTable: Option<bool>)

  /** Where `any` stops: the first element that is not a plain false
      (a true, or a computation that raised), or the length if there is none. */
  function StopIndex(xs: seq<Option<bool>>): (k: nat)
    ensures k <= |xs|
    ensures forall j :: 0 <= j < k ==> xs[j] == Some(false)
    ensures k < |xs| ==> xs[k] != Some(false)
  {
    if |xs| == 0 || xs[0] != Some(false) then 0 else 1 + StopIndex(xs[1..])
  }

  /** Python's `any(gen)` over lazily computed booleans, None standing for a
      computation that raised: it returns true at the first true value, raises
      at the first failing computation it reaches, and is false otherwise. */
  function AnyLazy(xs: seq<Option<bool>>): (r: Option<bool>)
    ensures r == (if StopIndex(xs) == |xs| then Some(false) else xs[StopIndex(xs)])
    ensures r == Some(false) <==> forall k :: 0 <= k < |xs| ==> xs[k] == Some(false)
  {
    if |xs| == 0 then Some(false)
    else
      match xs[0]
      case None => None
      case Some(b) =>
        if b then Some(true)
        else
          assert forall k :: 1 <= k < |xs| ==> xs[k] == xs[1..][k - 1];
          assert StopIndex(xs) == 1 + StopIndex(xs[1..]);
          AnyLazy(xs[1..])
  }

  /** `sum(gen)` over lazily computed counts, None standing for a raise. */
  function SumLazy(xs: seq<Option<nat>>): (r: Option<nat>)
    ensures r.None? <==> exists k :: 0 <= k < |xs| && xs[k].None?
  {
    if |xs| == 0 then Some(0)
    else if xs[0].None? then None
    else
      var rest := SumLazy(xs[1..]);
      assert forall k :: 1 <= k < |xs| ==> xs[k] == xs[1..][k - 1];
      if rest.None? then None else Some(xs[0].value + rest.value)
  }

  /** The total of the computed values, added from the left: the reference
      for what `sum` returns when nothing raises. */
  function ValueSum(xs: seq<Option<nat>>): nat {
    if |xs| == 0 then 0
    else ValueSum(xs[..|xs| - 1]) + (match xs[|xs| - 1] case None => 0 case Some(n) => n)
  }

  /** Summing a concatenation sums the two parts; it raises when either does. */
  lemma {:induction false} SumLazyAppend(a: seq<Option<nat>>, b: seq<Option<nat>>)
    ensures SumLazy(a + b) ==
              if SumLazy(a).Some? && SumLazy(b).Some? then Some(SumLazy(a).value + SumLazy(b).value) else None
    decreases |a|
  {
    if |a| == 0 {
      assert a + b == b;
    } else {
      assert (a + b)[0] == a[0];
      assert (a + b)[1..] == a[1..] + b;
      SumLazyAppend(a[1..], b);
    }
  }

  /** When no computation raises, `sum` returns the total of the values. */
  lemma {:induction false} SumLazyTotal(xs: seq<Option<nat>>)
    requires forall k :: 0 <= k < |xs| ==> xs[k].Some?
    ensures SumLazy(xs) == Some(ValueSum(xs))
    decreases |xs|
  {
    if |xs| > 0 {
      var init, last := xs[..|xs| - 1], xs[|xs| - 1];
      SumLazyTotal(init);
      var tail: seq<Option<nat>> := [last];
      assert xs == init + tail;
      SumLazyAppend(init, tail);
      assert |tail[1..]| == 0;
    }
  }

  function Tones(views: seq<PageView>): (ts: seq<Tone>)
    ensures |ts| == |views|
    ensures forall i :: 0 <= i < |views| ==> ts[i] == ToneOf(views[i].firstPerson, views[i].thirdPerson)
  {
    seq(|views|, i requires 0 <= i < |views| => ToneOf(views[i].firstPerson, views[i].thirdPerson))
  }

  /** `any(_has_faq(s) for s in soups)`. */
  function AnyFaq(views: seq<PageView>): Option<bool> {
    AnyLazy(seq(|views|, i requires 0 <= i < |views| =>
      match views[i].faq
      case None => None
      case Some(f) => Some(HasFaq(f))))
  }

  /** `_testimonial_score(s)` for each page, None where the query raised. */
  function PageScores(views: seq<PageView>): (xs: seq<Option<nat>>)
    ensures |xs| == |views|
    ensures forall i :: 0 <= i < |views| ==>
              xs[i] == match views[i].testimonials case None => None case Some(t) => Some(TestimonialScore(t))
  {
    seq(|views|, i requires 0 <= i < |views| =>
      match views[i].testimonials
      case None => None
      case Some(t) => Some(TestimonialScore(t)))
  }

  /** `sum(_testimonial_score(s) for s in soups)`. */
  function TestimonialTotal(views: seq<PageView>): Option<nat> {
    SumLazy(PageScores(views))
  }

  /** The testimonial signals of all pages added up, page by page. */
  function SignalSum(views: seq<PageView>): nat {
    if |views| == 0 then 0
    else
      var last := views[|views| - 1];
      SignalSum(views[..|views| - 1])
        + (match last.testimonials case None => 0 case Some(t) => TestimonialScore(t))
  }

  lemma {:induction false} PageScoresSum(views: seq<PageView>)
    ensures ValueSum(PageScores(views)) == SignalSum(views)
    decreases |views|
  {
    if |views| > 0 {
      var init := views[..|views| - 1];
      PageScoresSum(init);
      assert PageScores(views)[..|views| - 1] == PageScores(init);
    }
  }

  /** `any(_has_comparison_table(s) for s in soups)`. */
  function AnyComparison(views: seq<PageView>): Option<bool> {
    AnyLazy(seq(|views|, i requires 0 <= i < |views| =>
      match views[i].hasTable
      case None => None
      case Some(b) => Some(HasComparisonTable(b, views[i].text))))
  }

  /** When every page answers the FAQ query, the FAQ verdict is whether some
      page has an FAQ. */
  lemma AnyFaqWhenAllAnswer(views: seq<PageView>)
    requires forall i :: 0 <= i < |views| ==> views[i].faq.Some?
    ensures AnyFaq(views).Some?
    ensures AnyFaq(views).value <==> exists i :: 0 <= i < |views| && HasFaq(views[i].faq.value)
  {
    var xs := seq(|views|, i requires 0 <= i < |views| =>
      match views[i].faq
      case None => None
      case Some(f) => Some(HasFaq(f)));
    assert forall i :: 0 <= i < |views| ==> xs[i] == Some(HasFaq(views[i].faq.value));
    if exists i :: 0 <= i < |views| && HasFaq(views[i].faq.value) {
      var i :| 0 <= i < |views| && HasFaq(views[i].faq.value);
      assert xs[i] != Some(false);
    }
  }

  /** When every page answers the testimonial query, the testimonial verdict
      is the sum of the pages' signal counts. */
  lemma TestimonialTotalWhenAllAnswer(views: seq<PageView>)
    requires forall i :: 0 <= i < |views| ==> views[i].testimonials.Some?
    ensures TestimonialTotal(views) == Some(SignalSum(views))
  {
    SumLazyTotal(PageScores(views));
    PageScoresSum(views);
  }
}

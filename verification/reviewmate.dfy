/** The scoring and advice helpers of the two ReviewMate front ends,
    aeoaudit_reviewmate_sales_FIXED.py and aeoaudit_reviewmate_with_pdf.py.
    Both score a dict of pass/fail checks the same way and give one fixed
    message per failed check; the second puts a bullet before each message. */
module ReviewMate {
  import opened Seqs
  import opened Numeric

  /** The dict `fetch_page_data` returns for a page it could read: the five
      checks, always all present. */
  datatype Checks = Checks(titleTag: bool, metaDescription: bool, h1: bool, schemaMarkup: bool, faqContent: bool)

  /** The dict's values in insertion order. */
  function Values(c: Checks): (vs: seq<bool>)
    ensures |vs| == 5
  {
    [c.titleTag, c.metaDescription, c.h1, c.schemaMarkup, c.faqContent]
  }

  /** `sum(1 for passed in results.values() if passed)`. */
  function Passed(vs: seq<bool>): (n: nat)
    ensures n <= |vs|
    ensures n == |vs| <==> forall i :: 0 <= i < |vs| ==> vs[i]
    ensures n == 0 <==> forall i :: 0 <= i < |vs| ==> !vs[i]
  {
    if |vs| == 0 then 0
    else
      assert forall i :: 1 <= i < |vs| ==> vs[i] == vs[1..][i - 1];
      (if vs[0] then 1 else 0) + Passed(vs[1..])
  }

  /** `calculate_score`: `int(passed / total * 100)`, the percentage of
      passed checks rounded down; None where Python divides by zero on an
      empty dict. */
  function CalculateScore(vs: seq<bool>): (r: Option<nat>)
    ensures r.None? <==> |vs| == 0
    ensures r.Some? ==> r.value <= 100
    ensures r.Some? ==> r.value * |vs| <= 100 * Passed(vs) < (r.value + 1) * |vs|
  {
    if |vs| == 0 then None
    else
      var qr := QuotRem(100 * Passed(vs), |vs|);
      QuotAtMost(100 * Passed(vs), |vs|, 100);
      assert (qr.0 + 1) * |vs| == qr.0 * |vs| + |vs|;
      Some(qr.0)
  }

  /** With the five checks every passed check is worth 20 points: all five
      give 100 and none gives 0. */
  lemma FiveChecksScore(c: Checks)
    ensures CalculateScore(Values(c)) == Some(20 * Passed(Values(c)))
  {
    var p := Passed(Values(c));
    QuotRemUnique(100 * p, 5, 20 * p, 0);
  }

  /** Passing one more check adds one passed check and never lowers the
      score. */
  lemma ScoreMonotone(vs: seq<bool>, j: nat)
    requires j < |vs| && !vs[j]
    ensures Passed(vs[j := true]) == Passed(vs) + 1
    ensures CalculateScore(vs).value <= CalculateScore(vs[j := true]).value
  {
    PassedFlip(vs, j);
    QuotMonotone(100 * Passed(vs), 100 * Passed(vs[j := true]), |vs|);
  }

  lemma {:induction false} PassedFlip(vs: seq<bool>, j: nat)
    requires j < |vs| && !vs[j]
    ensures Passed(vs[j := true]) == Passed(vs) + 1
    decreases j
  {
    if j > 0 {
      assert vs[j := true][1..] == vs[1..][j - 1 := true];
      PassedFlip(vs[1..], j - 1);
    }
  }

  /** The advice for each check, in the order the checks are tested. */
  const Messages: seq<string> := [
    "Add a clear, benefit-driven <title> tag for AI to understand your page.",
    "Include a concise <meta description> in answer format.",
    "Add an <H1> heading that clearly describes your main service.",
    "Add structured data (FAQ, LocalBusiness) to help AI index your content.",
    "Include Q&A style content to target AI answers and voice search."]

  /** The sales front end writes the bare message; the PDF front end puts
      "• " in front of it. */
  datatype Style = Plain | Bulleted

  function Bullet(s: Style): string {
    match s
    case Plain => ""
    case Bulleted => "\U{2022} "
  }

  /** The messages of the failed checks, in check order, each after the
      bullet. */
  function Advice(vs: seq<bool>, msgs: seq<string>, bullet: string): seq<string>
    requires |vs| == |msgs|
  {
    if |vs| == 0 then []
    else (if vs[0] then [] else [bullet + msgs[0]]) + Advice(vs[1..], msgs[1..], bullet)
  }

  /** One message per failed check. */
  lemma {:induction false} AdviceCount(vs: seq<bool>, msgs: seq<string>, bullet: string)
    requires |vs| == |msgs|
    ensures |Advice(vs, msgs, bullet)| == |vs| - Passed(vs)
  {
    if |vs| > 0 {
      AdviceCount(vs[1..], msgs[1..], bullet);
    }
  }

  /** Every line is the bullet and the message of a failed check, and every
      failed check has its line. */
  lemma {:induction false} AdviceContents(vs: seq<bool>, msgs: seq<string>, bullet: string)
    requires |vs| == |msgs|
    ensures forall line :: line in Advice(vs, msgs, bullet) <==>
      exists i :: 0 <= i < |vs| && !vs[i] && line == bullet + msgs[i]
  {
    if |vs| > 0 {
      AdviceContents(vs[1..], msgs[1..], bullet);
      forall line | line in Advice(vs, msgs, bullet)
        ensures exists i :: 0 <= i < |vs| && !vs[i] && line == bullet + msgs[i]
      {
        if !vs[0] && line == bullet + msgs[0] {
        } else {
          assert line in Advice(vs[1..], msgs[1..], bullet);
          var i :| 0 <= i < |vs| - 1 && !vs[1..][i] && line == bullet + msgs[1..][i];
          assert vs[i + 1] == vs[1..][i];
        }
      }
      forall i | 0 <= i < |vs| && !vs[i]
        ensures bullet + msgs[i] in Advice(vs, msgs, bullet)
      {
        if i > 0 {
          assert vs[1..][i - 1] == vs[i];
          assert msgs[1..][i - 1] == msgs[i];
        }
      }
    }
  }

  /** Every line starts with the bullet. */
  lemma AdviceBulleted(vs: seq<bool>, msgs: seq<string>, bullet: string)
    requires |vs| == |msgs|
    ensures forall k :: 0 <= k < |Advice(vs, msgs, bullet)| ==> StartsWithBullet(Advice(vs, msgs, bullet)[k], bullet)
  {
    AdviceContents(vs, msgs, bullet);
    forall k | 0 <= k < |Advice(vs, msgs, bullet)|
      ensures StartsWithBullet(Advice(vs, msgs, bullet)[k], bullet)
    {
      var line := Advice(vs, msgs, bullet)[k];
      assert line in Advice(vs, msgs, bullet);
      var i :| 0 <= i < |vs| && !vs[i] && line == bullet + msgs[i];
      assert line[..|bullet|] == bullet;
    }
  }

  predicate StartsWithBullet(s: string, bullet: string) {
    |bullet| <= |s| && s[..|bullet|] == bullet
  }

  /** `generate_recommendations` of either front end: one line per failed
      check, so none at all exactly when all five pass. */
  function GenerateRecommendations(c: Checks, style: Style): (r: seq<string>)
    ensures |r| == 5 - Passed(Values(c))
    ensures r == [] <==> Passed(Values(c)) == 5
  {
    AdviceCount(Values(c), Messages, Bullet(style));
    Advice(Values(c), Messages, Bullet(style))
  }

  /** The advice for a concatenation of checks is the concatenation of
      their advice. */
  lemma {:induction false} AdviceAppend(v1: seq<bool>, m1: seq<string>, v2: seq<bool>, m2: seq<string>, bullet: string)
    requires |v1| == |m1| && |v2| == |m2|
    ensures Advice(v1 + v2, m1 + m2, bullet) == Advice(v1, m1, bullet) + Advice(v2, m2, bullet)
    decreases |v1|
  {
    if |v1| > 0 {
      assert (v1 + v2)[0] == v1[0] && (m1 + m2)[0] == m1[0];
      assert (v1 + v2)[1..] == v1[1..] + v2;
      assert (m1 + m2)[1..] == m1[1..] + m2;
      AdviceAppend(v1[1..], m1[1..], v2, m2, bullet);
      var head := if v1[0] then [] else [bullet + m1[0]];
      assert Advice(v1 + v2, m1 + m2, bullet) == head + Advice(v1[1..] + v2, m1[1..] + m2, bullet);
      assert Advice(v1, m1, bullet) == head + Advice(v1[1..], m1[1..], bullet);
    } else {
      assert v1 + v2 == v2 && m1 + m2 == m2;
    }
  }

  /** Turning failed check j into a passed one removes exactly its message
      and leaves the advice before and after it unchanged. */
  lemma AdviceFlip(vs: seq<bool>, msgs: seq<string>, bullet: string, j: nat)
    requires |vs| == |msgs| && j < |vs| && !vs[j]
    ensures Advice(vs, msgs, bullet)
      == Advice(vs[..j], msgs[..j], bullet) + [bullet + msgs[j]] + Advice(vs[j + 1..], msgs[j + 1..], bullet)
    ensures Advice(vs[j := true], msgs, bullet)
      == Advice(vs[..j], msgs[..j], bullet) + Advice(vs[j + 1..], msgs[j + 1..], bullet)
  {
    var before, after := Advice(vs[..j], msgs[..j], bullet), Advice(vs[j + 1..], msgs[j + 1..], bullet);
    var ms := msgs[..j] + ([msgs[j]] + msgs[j + 1..]);
    assert msgs == ms;
    assert vs == vs[..j] + ([false] + vs[j + 1..]);
    assert vs[j := true] == vs[..j] + ([true] + vs[j + 1..]);
    AdviceAppend(vs[..j], msgs[..j], [false] + vs[j + 1..], [msgs[j]] + msgs[j + 1..], bullet);
    AdviceAppend(vs[..j], msgs[..j], [true] + vs[j + 1..], [msgs[j]] + msgs[j + 1..], bullet);
    assert ([false] + vs[j + 1..])[1..] == vs[j + 1..];
    assert ([true] + vs[j + 1..])[1..] == vs[j + 1..];
    assert ([msgs[j]] + msgs[j + 1..])[1..] == msgs[j + 1..];
  }

  /** For either front end, passing check j drops its one message from
      the advice and keeps the rest in order. */
  lemma RecommendationFlip(c: Checks, style: Style, j: nat)
    requires j < 5 && !Values(c)[j]
    ensures var r := GenerateRecommendations(c, style);
      exists k :: 0 <= k < |r| && r[k] == Bullet(style) + Messages[j]
        && Advice(Values(c)[j := true], Messages, Bullet(style)) == r[..k] + r[k + 1..]
  {
    var vs := Values(c);
    AdviceFlip(vs, Messages, Bullet(style), j);
    var a := Advice(vs[..j], Messages[..j], Bullet(style));
    var r := GenerateRecommendations(c, style);
    var k := |a|;
    assert r[k] == Bullet(style) + Messages[j];
    assert r[..k] == a;
    assert r[k + 1..] == Advice(vs[j + 1..], Messages[j + 1..], Bullet(style));
  }

  /** The two front ends give the same lines; the PDF one only puts its
      bullet in front of each. */
  lemma {:induction false} BulletOnlyPrefixes(vs: seq<bool>, msgs: seq<string>, bullet: string)
    requires |vs| == |msgs|
    ensures |Advice(vs, msgs, bullet)| == |Advice(vs, msgs, "")|
    ensures forall k :: 0 <= k < |Advice(vs, msgs, bullet)| ==>
      Advice(vs, msgs, bullet)[k] == bullet + Advice(vs, msgs, "")[k]
  {
    if |vs| > 0 {
      BulletOnlyPrefixes(vs[1..], msgs[1..], bullet);
      assert "" + msgs[0] == msgs[0];
    }
  }
}

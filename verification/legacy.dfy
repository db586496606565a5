/** aeo_logic.py, the earlier version of the audit: a `run_audit` that
    returns fixed findings, and the recommendation column of its PDF table,
    which reads the advice back out of a finding written as
    "result (advice)". */
module LegacyLogic {
  import opened Seqs
  import opened Text

  /** The "result (advice)" shape the findings are written in. */
  function Annotate(finding: string, advice: string): string {
    finding + " (" + advice + ")"
  }

  /** `run_audit(url)`: six areas with canned findings, whatever the URL.
      Three of them are written "result (advice)". */
  function StubAudit(url: string): (r: seq<(string, string)>)
    ensures |r| == 6
  {
    [("Voice & Tone", Annotate("\U{1F7E1} First-person", "rewrite as third-person expert voice recommended")),
     ("Reading Level", Annotate("\U{26A0}\U{FE0F} 8.4 grade level", "\U{26A0}\U{FE0F} simplify language")),
     ("Service-in-City Page", "\U{2705} Found service reference for Omega in Upwey"),
     ("FAQ Richness", Annotate("\U{2705} 2 Q&As found", "\U{2705}")),
     ("Testimonials", "\U{2705} Found"),
     ("Comparison Table", "\U{2705} Present")]
  }

  function AreaOf(p: (string, string)): string { p.0 }

  /** The findings do not depend on the URL at all. */
  lemma StubIgnoresUrl(a: string, b: string)
    ensures StubAudit(a) == StubAudit(b)
  {
  }

  /** The six areas are distinct, so the dict has six entries. */
  lemma StubAreasDistinct(url: string)
    ensures Distinct(seq(6, i requires 0 <= i < 6 => AreaOf(StubAudit(url)[i])))
  {
    var r := StubAudit(url);
    var ks := seq(6, i requires 0 <= i < 6 => AreaOf(r[i]));
    assert ks[0][0] == 'V' && ks[1][0] == 'R' && ks[2][0] == 'S' && ks[3][0] == 'F' && ks[4][0] == 'T' && ks[5][0] == 'C';
  }

  /** `result.split(" (", 1)[-1].rstrip(")") if "(" in result else
      "Check content"`. */
  function ExtractRecommendation(result: string): (r: string)
    ensures '(' !in result ==> r == "Check content"
    ensures '(' in result ==> (|r| == 0 || r[|r| - 1] != ')')
    ensures '(' in result ==> r <= AfterFirst(result, " (")
    ensures '(' in result ==>
      forall i :: |r| <= i < |AfterFirst(result, " (")| ==> AfterFirst(result, " (")[i] == ')'
    ensures '(' in result && !Contains(result, " (") ==> r == RStrip(result, ')')
  {
    if '(' in result then RStrip(AfterFirst(result, " ("), ')') else "Check content"
  }

  lemma OccursAt(s: string, j: nat, sub: string)
    requires j + |sub| <= |s| && s[j..j + |sub|] == sub
    ensures Contains(s, sub)
  {
    assert s == s[..j] + s[j..];
    assert StartsWith(s[j..], sub);
    ContainsSuffix(s[..j], s[j..], sub);
  }

  /** The first occurrence is at n when sep is there and nowhere earlier. */
  lemma FindFirstAt(s: string, sep: string, n: nat)
    requires n + |sep| <= |s| && s[n..n + |sep|] == sep
    requires forall j :: 0 <= j < n ==> !StartsWith(s[j..], sep)
    ensures FindFirst(s, sep) == Some(n)
  {
    OccursAt(s, n, sep);
    var i := FindFirst(s, sep).value;
    assert StartsWith(s[i..], sep) by {
      assert s[i..][..|sep|] == s[i..i + |sep|];
    }
    assert StartsWith(s[n..], sep) by {
      assert s[n..][..|sep|] == s[n..n + |sep|];
    }
  }

  lemma RStripOne(a: string, c: char)
    requires |a| == 0 || a[|a| - 1] != c
    ensures RStrip(a + [c], c) == a
  {
    assert (a + [c])[..|a|] == a;
  }

  /** " (" cannot start before position n when the first n characters
      hold none and position n is a space. */
  lemma NoEarlierSep(s: string, n: nat)
    requires n < |s| && s[n] == ' '
    requires !Contains(s[..n], " (")
    ensures forall j :: 0 <= j < n ==> !StartsWith(s[j..], " (")
  {
    forall j | 0 <= j < n
      ensures !StartsWith(s[j..], " (")
    {
      if j + 2 <= n {
        assert s[j..][..2] == s[..n][j..j + 2];
        if s[..n][j..j + 2] == " (" {
          OccursAt(s[..n], j, " (");
        }
      } else {
        assert s[j..][1] == s[n];
      }
    }
  }

  lemma AnnotateShape(finding: string, advice: string)
    ensures var s := Annotate(finding, advice);
      |s| == |finding| + |advice| + 3 && s[..|finding|] == finding
      && s[|finding|] == ' ' && s[|finding| + 1] == '('
      && s[|finding| + 2..] == advice + [')']
  {
  }

  lemma ExtractAt(s: string, n: nat, advice: string)
    requires FindFirst(s, " (") == Some(n) && n + 2 <= |s| && '(' in s
    requires s[n + 2..] == advice + [')']
    requires |advice| == 0 || advice[|advice| - 1] != ')'
    ensures ExtractRecommendation(s) == advice
  {
    var after := AfterFirst(s, " (");
    assert after == advice + [')'];
    RStripOne(advice, ')');
    assert ExtractRecommendation(s) == RStrip(after, ')');
  }

  /** A finding written as "result (advice)" yields its advice back, as long
      as the result part has no " (" of its own and the advice does not end
      in ")". */
  lemma {:induction false} AnnotatedRoundTrip(finding: string, advice: string)
    requires !Contains(finding, " (")
    requires |advice| == 0 || advice[|advice| - 1] != ')'
    ensures ExtractRecommendation(Annotate(finding, advice)) == advice
  {
    var s := Annotate(finding, advice);
    var n := |finding|;
    AnnotateShape(finding, advice);
    NoEarlierSep(s, n);
    assert s[n..n + 2] == " (";
    FindFirstAt(s, " (", n);
    assert '(' in s;
    ExtractAt(s, n, advice);
  }

  /** The table `generate_pdf_report` draws: a header row, then one row per
      finding with its area, the finding and the advice read back from it. */
  function ReportTable(results: seq<(string, string)>): (t: seq<seq<string>>)
    ensures |t| == |results| + 1
    ensures t[0] == ["Audit Area", "Result", "Recommendation"]
    ensures forall k :: 0 <= k < |results| ==> |t[k + 1]| == 3 && t[k + 1][0] == results[k].0 && t[k + 1][1] == results[k].1
    ensures forall k :: 0 <= k < |results| ==> |t[k + 1]| == 3 && t[k + 1][2] == ExtractRecommendation(results[k].1)
  {
    [["Audit Area", "Result", "Recommendation"]]
      + seq(|results|, k requires 0 <= k < |results| =>
          [results[k].0, results[k].1, ExtractRecommendation(results[k].1)])
  }

  /** Without any "(" there is no " (" either. */
  lemma {:induction false} NoParenNoSep(f: string)
    requires '(' !in f
    ensures !Contains(f, " (")
  {
    if |f| > 0 {
      NoParenNoSep(f[1..]);
      assert |f| >= 2 ==> f[1] in f;
    }
  }

  /** A finding in the "result (advice)" shape whose result part has no
      "(" at all, as the three annotated canned findings, gives its advice. */
  lemma AnnotatedAdvice(f: string, a: string)
    requires '(' !in f
    requires |a| == 0 || a[|a| - 1] != ')'
    ensures ExtractRecommendation(Annotate(f, a)) == a
  {
    NoParenNoSep(f);
    AnnotatedRoundTrip(f, a);
  }
}

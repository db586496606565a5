/** The figures `generate_pdf_report` of aeo_logic1.py derives from an audit
    map: the overall readiness score, the executive summary lists, the ROI
    projection and the lost-opportunity estimate. Money, rates and visitor
    numbers are exact reals; the `int(...)`, `%d` and `%.1f` display
    formatting is not modelled. */
module Report {
  import opened Seqs
  import opened Numeric
  import opened Catalogue
  import Audit

  // ---- readiness score ----

  /** `sum(SCORE_MAP.get(icon, 0) for ...)` over the icons of the map. */
  function Total(icons: seq<Icon>): nat {
    if |icons| == 0 then 0 else Points(icons[0]) + Total(icons[1..])
  }

  /** The total lies between 0 and twice the number of categories, reaches
      the top exactly when every icon is green and is 0 exactly when no icon
      scores. */
  lemma {:induction false} TotalBounds(icons: seq<Icon>)
    ensures Total(icons) <= 2 * |icons|
    ensures Total(icons) == 2 * |icons| <==> forall i :: 0 <= i < |icons| ==> icons[i] == Green
    ensures Total(icons) == 0 <==> forall i :: 0 <= i < |icons| ==> Points(icons[i]) == 0
  {
    if |icons| > 0 {
      TotalBounds(icons[1..]);
      assert forall i :: 1 <= i < |icons| ==> icons[i] == icons[1..][i - 1];
    }
  }

  /** The total is two points per green and one per amber. */
  lemma {:induction false} TotalByCounts(icons: seq<Icon>)
    ensures Total(icons) == 2 * Count(icons, Green) + Count(icons, Amber)
  {
    if |icons| > 0 {
      TotalByCounts(icons[1..]);
    }
  }

  /** The best total the icons could reach, or 1 for an empty map so that
      nothing is divided by zero. */
  function MaxTotal(n: nat): (d: nat)
    ensures d > 0
  {
    if n > 0 then 2 * n else 1
  }

  /** `int(round(total / float(max_total) * 100))`: the total as a share of
      the best possible total, in percent, rounded half to even. */
  function ReadinessScore(icons: seq<Icon>): (pct: nat)
    ensures pct <= 100
    ensures |icons| == 0 ==> pct == 0
  {
    var t := Total(icons);
    var d := MaxTotal(|icons|);
    TotalBounds(icons);
    RoundDivAtMost(100 * t, d, 100);
    RoundDiv(100 * t, d)
  }

  /** The score is Python's `round` of the exact percentage. */
  lemma ScoreIsRoundedShare(icons: seq<Icon>)
    ensures ReadinessScore(icons) ==
      RoundHalfEven(Total(icons) as real / MaxTotal(|icons|) as real * 100.0)
  {
    RoundPercent(Total(icons), MaxTotal(|icons|));
  }

  /** Every category green scores 100. */
  lemma AllGreenScoresFull(icons: seq<Icon>)
    requires |icons| > 0
    requires forall i :: 0 <= i < |icons| ==> icons[i] == Green
    ensures ReadinessScore(icons) == 100
  {
    TotalBounds(icons);
    QuotOfMultiple(100, MaxTotal(|icons|));
  }

  /** No category scoring scores 0. */
  lemma NothingScoresZero(icons: seq<Icon>)
    requires forall i :: 0 <= i < |icons| ==> Points(icons[i]) == 0
    ensures ReadinessScore(icons) == 0
  {
    TotalBounds(icons);
  }

  /** A better total over the same number of categories never lowers the
      score. */
  lemma ScoreMonotone(a: seq<Icon>, b: seq<Icon>)
    requires |a| == |b|
    requires Total(a) <= Total(b)
    ensures ReadinessScore(a) <= ReadinessScore(b)
  {
    RoundDivMonotone(100 * Total(a), 100 * Total(b), MaxTotal(|a|));
  }

  /** The baseline catalogue totals 9 of 24: 37.5 percent, a tie that Python
      rounds to the even 38. */
  lemma BaselineScore()
    ensures ReadinessScore(BaselineIcons) == 38
  {
    assert Total(BaselineIcons) == 9;
    QuotRemUnique(900, 24, 37, 12);
  }

  /** A site that yields no page scores 8 of 24: 33 percent, not the
      baseline's 38. */
  lemma NoPageScore()
    ensures ReadinessScore(Audit.NoPageIcons) == 33
  {
    assert Total(Audit.NoPageIcons) == 8;
    QuotRemUnique(800, 24, 33, 8);
  }

  // ---- executive summary ----

  /** `"%s: %s" % (k, result)`. */
  function StrengthLine(c: Category): string {
    c.name + ": " + c.entry.result
  }

  /** `"%s: %s — %s" % (k, result, rec)`. */
  function WeaknessLine(c: Category): string {
    c.name + ": " + c.entry.result + " \U{2014} " + c.entry.recommendation
  }

  predicate IsGreen(c: Category) {
    c.entry.icon == Green
  }

  predicate NotGreen(c: Category) {
    c.entry.icon != Green
  }

  function NameOf(c: Category): string {
    c.name
  }

  function QuickWinOf(c: Category): string {
    c.entry.quickWin
  }

  /** The lines `line(c)` of the categories c that satisfy keep, in map
      order. */
  function Lines(m: AuditMap, keep: Category -> bool, line: Category -> string): seq<string> {
    if |m| == 0 then []
    else
      var p := Lines(m[..|m| - 1], keep, line);
      if keep(m[|m| - 1]) then p + [line(m[|m| - 1])] else p
  }

  /** The kept lines are exactly the lines of the kept categories, at most
      one per category. */
  lemma {:induction false} LinesMembers(m: AuditMap, keep: Category -> bool, line: Category -> string)
    ensures |Lines(m, keep, line)| <= |m|
    ensures forall i :: 0 <= i < |m| && keep(m[i]) ==> line(m[i]) in Lines(m, keep, line)
    ensures forall k :: 0 <= k < |Lines(m, keep, line)| ==>
      exists i :: 0 <= i < |m| && keep(m[i]) && Lines(m, keep, line)[k] == line(m[i])
  {
    if |m| > 0 {
      var init := m[..|m| - 1];
      var c := m[|m| - 1];
      var p := Lines(init, keep, line);
      var r := Lines(m, keep, line);
      LinesMembers(init, keep, line);
      assert r == if keep(c) then p + [line(c)] else p;
      forall i | 0 <= i < |m| && keep(m[i])
        ensures line(m[i]) in r
      {
        if i < |init| {
          assert m[i] == init[i];
          assert line(init[i]) in p;
        }
      }
      forall k | 0 <= k < |r|
        ensures exists i :: 0 <= i < |m| && keep(m[i]) && r[k] == line(m[i])
      {
        if k < |p| {
          assert r[k] == p[k];
          var i :| 0 <= i < |init| && keep(init[i]) && p[k] == line(init[i]);
          assert m[i] == init[i];
        } else {
          assert keep(c) && r[k] == line(m[|m| - 1]);
        }
      }
    }
  }

  /** Green categories become strengths. */
  function Strengths(m: AuditMap): seq<string> {
    Lines(m, IsGreen, StrengthLine)
  }

  /** Every other category, whatever its icon, becomes a weakness. */
  function Weaknesses(m: AuditMap): seq<string> {
    Lines(m, NotGreen, WeaknessLine)
  }

  /** A weakness contributes its quick win when that is non-empty. */
  predicate OffersQuickWin(c: Category) {
    !IsGreen(c) && c.entry.quickWin != ""
  }

  function QuickWinCandidates(m: AuditMap): seq<string> {
    Lines(m, OffersQuickWin, QuickWinOf)
  }

  /** The three lists of the executive summary, before the display cut. */
  datatype Summary = Summary(strengths: seq<string>, weaknesses: seq<string>, quickWins: seq<string>)

  lemma IconsSnoc(m: AuditMap)
    requires |m| > 0
    ensures Icons(m) == Icons(m[..|m| - 1]) + [m[|m| - 1].entry.icon]
  {
    assert forall i :: 0 <= i < |m| - 1 ==> Icons(m)[i] == Icons(m[..|m| - 1])[i];
  }

  /** The strengths are as many as the green icons. */
  lemma {:induction false} StrengthsCount(m: AuditMap)
    ensures |Strengths(m)| == Count(Icons(m), Green)
  {
    if |m| > 0 {
      var init := m[..|m| - 1];
      var icon := m[|m| - 1].entry.icon;
      StrengthsCount(init);
      assert |Strengths(m)| == |Strengths(init)| + (if icon == Green then 1 else 0);
      IconsSnoc(m);
      CountSnoc(Icons(init), icon, Green);
    }
  }

  /** Strengths and weaknesses split the map: each category lands in exactly
      one of them. */
  lemma {:induction false} SummarySizes(m: AuditMap)
    ensures |Strengths(m)| + |Weaknesses(m)| == |m|
  {
    if |m| > 0 {
      SummarySizes(m[..|m| - 1]);
    }
  }

  /** The two loops of the executive summary: partition the categories, then
      keep each quick win once, at its first occurrence. */
  method ExecutiveSummary(m: AuditMap) returns (s: Summary)
    ensures s.strengths == Strengths(m) && s.weaknesses == Weaknesses(m)
    ensures s.quickWins == FirstOccurrences(QuickWinCandidates(m))
  {
    var strengths, weaknesses, qw := [], [], [];
    for i := 0 to |m|
      invariant strengths == Strengths(m[..i])
      invariant weaknesses == Weaknesses(m[..i])
      invariant qw == QuickWinCandidates(m[..i])
    {
      assert m[..i + 1][..i] == m[..i];
      var c := m[i];
      if c.entry.icon == Green {
        strengths := strengths + [StrengthLine(c)];
      } else {
        weaknesses := weaknesses + [WeaknessLine(c)];
        if c.entry.quickWin != "" {
          qw := qw + [c.entry.quickWin];
        }
      }
    }
    assert m[..|m|] == m;
    var unique := Dedup(qw);
    s := Summary(strengths, weaknesses, unique);
  }

  /** The quick wins shown are the non-empty quick wins of the weaknesses,
      each exactly once. */
  lemma QuickWinsOfWeaknesses(m: AuditMap, q: string)
    ensures Distinct(FirstOccurrences(QuickWinCandidates(m)))
    ensures q in FirstOccurrences(QuickWinCandidates(m)) <==>
      exists i :: 0 <= i < |m| && !IsGreen(m[i]) && q != "" && m[i].entry.quickWin == q
  {
    var cands := QuickWinCandidates(m);
    var r := FirstOccurrences(cands);
    LinesMembers(m, OffersQuickWin, QuickWinOf);
    if q in r {
      var k :| 0 <= k < |r| && r[k] == q;
      var j :| 0 <= j < |cands| && cands[j] == q;
    }
    if exists i :: 0 <= i < |m| && !IsGreen(m[i]) && q != "" && m[i].entry.quickWin == q {
      var i :| 0 <= i < |m| && !IsGreen(m[i]) && q != "" && m[i].entry.quickWin == q;
      assert OffersQuickWin(m[i]);
      var j :| 0 <= j < |cands| && cands[j] == q;
    }
  }

  /** `xs[:6]`: each list shows at most its first six items. */
  function Shown(xs: seq<string>): (r: seq<string>)
    ensures |r| == if |xs| < 6 then |xs| else 6
    ensures r <= xs
  {
    PyPrefixOfNat(xs, 6);
    PyPrefix(xs, 6)
  }

  // ---- ROI projection ----

  datatype Priority = High | Medium | Low

  /** `IMPACT.get(area, ("Low", 0.05))`, the impact as a whole percentage. */
  function ImpactOf(area: string): (pi: (Priority, nat))
    ensures pi.1 == 5 <==> area !in CategoryNames
    ensures pi.0 == High <==> area == CityPagesKey
    ensures pi.0 == Medium <==> area in LiveNames
    ensures pi.1 <= 40
  {
    if area == CityPagesKey then (High, 40)
    else if area == TestimonialsKey then (Medium, 25)
    else if area == FaqKey then (Medium, 20)
    else if area == ComparisonKey then (Medium, 20)
    else if area == ToneKey then (Medium, 15)
    else if area == ReadabilityKey then (Medium, 15)
    else if area in CategoryNames then (Low, 10)
    else (Low, 5)
  }

  /** The three sales inputs of the report. */
  datatype SalesInputs = SalesInputs(avgSale: real, conversionPct: real, visitors: real)

  const DefaultSales := SalesInputs(500.0, 3.0, 300.0)

  /** `max(0.0, baseline_conv_pct / 100.0)`. */
  function ConversionRate(inp: SalesInputs): (r: real)
    ensures r >= 0.0
    ensures inp.conversionPct >= 0.0 ==> r * 100.0 == inp.conversionPct
    ensures inp.conversionPct < 0.0 ==> r == 0.0
  {
    MaxReal(0.0, inp.conversionPct / 100.0)
  }

  /** `max(0, avg_sale_value)`. */
  function SaleValue(inp: SalesInputs): (v: real)
    ensures inp.avgSale >= 0.0 ==> v == inp.avgSale
    ensures inp.avgSale < 0.0 ==> v == 0.0
  {
    MaxReal(0.0, inp.avgSale)
  }

  /** One row of the ROI table: a fix with its priority, impact, added
      conversions and dollars per month, or the "All Good" sentinel. */
  datatype RoiLine = Fix(area: string, priority: Priority, impactPct: nat, added: real, dollars: real)
                   | AllGood

  /** The row of one non-green category. The visitors are not clamped. */
  function FixFor(area: string, inp: SalesInputs): (r: RoiLine)
    ensures r.Fix? && r.area == area
    ensures (r.priority, r.impactPct) == ImpactOf(area)
    ensures r.added * 100.0 == inp.visitors * ConversionRate(inp) * r.impactPct as real
    ensures r.dollars == r.added * SaleValue(inp)
    ensures inp.visitors == 0.0 ==> r.added == 0.0 && r.dollars == 0.0
    ensures inp.visitors >= 0.0 ==> r.added >= 0.0 && r.dollars >= 0.0
  {
    var (pri, pct) := ImpactOf(area);
    var share := pct as real / 100.0;
    var added := inp.visitors * ConversionRate(inp) * share;
    NonNegativeProduct(inp.visitors, ConversionRate(inp));
    NonNegativeProduct(inp.visitors * ConversionRate(inp), share);
    NonNegativeProduct(added, SaleValue(inp));
    Fix(area, pri, pct, added, added * SaleValue(inp))
  }

  lemma NonNegativeProduct(a: real, b: real)
    requires b >= 0.0
    ensures a == 0.0 ==> a * b == 0.0
    ensures a >= 0.0 ==> a * b >= 0.0
  {
  }

  /** The names of the categories that are not green, in map order. */
  function NonGreenNames(m: AuditMap): seq<string> {
    Lines(m, NotGreen, NameOf)
  }

  /** The rows for the non-green categories, in map order. */
  function FixRows(m: AuditMap, inp: SalesInputs): (rows: seq<RoiLine>)
    ensures |rows| == |NonGreenNames(m)|
    ensures forall k :: 0 <= k < |rows| ==> rows[k] == FixFor(NonGreenNames(m)[k], inp)
  {
    if |m| == 0 then []
    else
      var init := m[..|m| - 1];
      var c := m[|m| - 1];
      var p := FixRows(init, inp);
      if NotGreen(c) then p + [FixFor(c.name, inp)] else p
  }

  /** The ROI table below its header: a row per non-green category, or the
      single "All Good" row when every category is green. */
  function RoiTable(m: AuditMap, inp: SalesInputs): (rows: seq<RoiLine>)
    ensures |rows| >= 1
    ensures rows == [AllGood] <==> forall i :: 0 <= i < |m| ==> IsGreen(m[i])
  {
    var fixes := FixRows(m, inp);
    var names := NonGreenNames(m);
    LinesMembers(m, NotGreen, NameOf);
    assert |names| == 0 <==> forall i :: 0 <= i < |m| ==> IsGreen(m[i]) by {
      if |names| > 0 {
        assert names[0] == Lines(m, NotGreen, NameOf)[0];
        var i :| 0 <= i < |m| && NotGreen(m[i]) && names[0] == NameOf(m[i]);
      }
      assert forall i :: 0 <= i < |m| && NotGreen(m[i]) ==> NameOf(m[i]) in names;
    }
    if |fixes| == 0 then [AllGood]
    else
      assert fixes[0].Fix?;
      fixes
  }

  /** The areas of the ROI rows are exactly the non-green categories, in map
      order; a map with no such category gets the sentinel row only. */
  lemma RoiAreas(m: AuditMap, inp: SalesInputs)
    ensures var rows := RoiTable(m, inp);
      (|NonGreenNames(m)| == 0 ==> rows == [AllGood])
      && (|NonGreenNames(m)| > 0 ==>
            |rows| == |NonGreenNames(m)|
            && forall k :: 0 <= k < |rows| ==> rows[k].Fix? && rows[k].area == NonGreenNames(m)[k])
  {
  }

  /** With no visitors every fix projects nothing; with a non-negative
      number of visitors no projection is negative. */
  lemma RoiSigns(m: AuditMap, inp: SalesInputs, k: nat)
    requires k < |RoiTable(m, inp)| && RoiTable(m, inp)[k].Fix?
    ensures inp.visitors == 0.0 ==> RoiTable(m, inp)[k].added == 0.0 && RoiTable(m, inp)[k].dollars == 0.0
    ensures inp.visitors >= 0.0 ==> RoiTable(m, inp)[k].added >= 0.0 && RoiTable(m, inp)[k].dollars >= 0.0
  {
  }

  // ---- lost opportunity ----

  /** The revenue estimate of the "What It's Costing You Today" table. */
  datatype LostOpportunity = LostOpportunity(current: real, potential: real, monthly: real, weekly: real, yearly: real)

  /** `uplift_mult`: AI optimisation is assumed to multiply revenue by 4.4. */
  const Uplift: real := 4.4

  /** `lost_w = lost_m / 4.345`: weeks per month. */
  const WeeksPerMonth: real := 4.345

  /** The current revenue, the revenue with the uplift, and what the gap
      costs per month, week and year. The month is never negative. */
  function LostOpportunityOf(inp: SalesInputs): (lo: LostOpportunity)
    ensures lo.current == inp.visitors * ConversionRate(inp) * SaleValue(inp)
    ensures lo.potential == Uplift * lo.current
    ensures lo.monthly == (if lo.current >= 0.0 then (Uplift - 1.0) * lo.current else 0.0)
    ensures lo.monthly >= 0.0
    ensures lo.weekly * WeeksPerMonth == lo.monthly
    ensures lo.yearly == 12.0 * lo.monthly
  {
    var current := inp.visitors * ConversionRate(inp) * SaleValue(inp);
    var potential := current * Uplift;
    var lost := MaxReal(0.0, potential - current);
    LostOpportunity(current, potential, lost, lost / WeeksPerMonth, lost * 12.0)
  }

  /** Without visitors, or with a negative count, nothing is lost. */
  lemma NoVisitorsNoLoss(inp: SalesInputs)
    requires inp.visitors <= 0.0
    ensures LostOpportunityOf(inp).monthly == 0.0 && LostOpportunityOf(inp).yearly == 0.0
  {
    var rate, sale := ConversionRate(inp), SaleValue(inp);
    assert rate * sale >= 0.0;
    assert inp.visitors * rate * sale == inp.visitors * (rate * sale);
    assert inp.visitors * (rate * sale) <= 0.0;
  }

  /** With the default inputs (500 dollars a sale, 3 percent of 300 visitors)
      the site makes 4500 a month and misses 15300. */
  lemma DefaultLoss()
    ensures LostOpportunityOf(DefaultSales).current == 4500.0
    ensures LostOpportunityOf(DefaultSales).monthly == 15300.0
  {
  }

  /** The IMPACT weights of the areas the tool rates highest: city pages 40
      percent (the only high priority), testimonials 25, FAQ and comparison
      20, tone and readability 15. */
  lemma ImpactTable()
    ensures ImpactOf(CityPagesKey) == (High, 40)
    ensures ImpactOf(TestimonialsKey) == (Medium, 25)
    ensures ImpactOf(FaqKey) == (Medium, 20) && ImpactOf(ComparisonKey) == (Medium, 20)
    ensures ImpactOf(ToneKey) == (Medium, 15) && ImpactOf(ReadabilityKey) == (Medium, 15)
  {
  }

  /** Every other catalogued category weighs 10 percent, low priority. */
  lemma ImpactOfOthers()
    ensures forall k :: 6 <= k < |CategoryNames| ==> ImpactOf(CategoryNames[k]) == (Low, 10)
  {
    forall k | 6 <= k < |CategoryNames|
      ensures ImpactOf(CategoryNames[k]) == (Low, 10)
    {
      assert CategoryNames[k] in CategoryNames;
    }
  }

  /** With the default inputs, fixing the city pages adds 300 x 3% x 40% =
      3.6 conversions a month, worth 1800 dollars; fixing testimonials adds
      2.25, worth 1125. */
  lemma DefaultFixes()
    ensures FixFor(CityPagesKey, DefaultSales).added == 3.6
    ensures FixFor(CityPagesKey, DefaultSales).dollars == 1800.0
    ensures FixFor(TestimonialsKey, DefaultSales).added == 2.25
    ensures FixFor(TestimonialsKey, DefaultSales).dollars == 1125.0
  {
  }
}

/** The audit map of aeo_logic1.py's `run_audit`: twelve named categories in
    a fixed order, each holding a six-part entry, the baseline prose for the
    two modes, and the entries the live detectors write over it. A Python
    dict keeps insertion order, so the map is a sequence of categories with
    distinct names. */
module Catalogue {
  import opened Seqs
  import opened Text
  import opened Detectors

  /** A glyph other than the three the score map knows, so that an icon has
      exactly one representation. */
  type ForeignGlyph = g: string | g != "\U{1F7E2}" && g != "\U{1F7E1}" && g != "\U{1F534}" witness "?"

  /** The verdict glyph that starts every entry. */
  datatype Icon = Green | Amber | Red | Other(glyph: ForeignGlyph)

  /** `SCORE_MAP.get(icon, 0)`: green 2, amber 1, red or anything else 0. */
  function Points(i: Icon): (p: nat)
    ensures p <= 2
    ensures p == 2 <==> i == Green
    ensures p == 1 <==> i == Amber
  {
    match i
    case Green => 2
    case Amber => 1
    case Red => 0
    case Other(_) => 0
  }

  /** (icon, result, recommendation, why it matters, what to do, quick win). */
  datatype Entry = Entry(icon: Icon, result: string, recommendation: string, why: string, how: string, quickWin: string)

  datatype Category = Category(name: string, entry: Entry)

  type AuditMap = seq<Category>

  function Names(m: AuditMap): (ns: seq<string>)
    ensures |ns| == |m|
    ensures forall i :: 0 <= i < |m| ==> ns[i] == m[i].name
  {
    seq(|m|, i requires 0 <= i < |m| => m[i].name)
  }

  function Icons(m: AuditMap): (icons: seq<Icon>)
    ensures |icons| == |m|
    ensures forall i :: 0 <= i < |m| ==> icons[i] == m[i].entry.icon
  {
    seq(|m|, i requires 0 <= i < |m| => m[i].entry.icon)
  }

  /** A dict: no name twice. */
  predicate WellFormed(m: AuditMap) {
    Distinct(Names(m))
  }

  /** `data[name] = e`: the value of an existing key is replaced where it
      stands; a new key goes at the end. */
  function Assign(m: AuditMap, name: string, e: Entry): AuditMap {
    if |m| == 0 then [Category(name, e)]
    else if m[0].name == name then [Category(name, e)] + m[1..]
    else [m[0]] + Assign(m[1..], name, e)
  }

  /** An assignment to a present key keeps the keys, one to a new key
      appends it, and the categories under other keys stay where they were. */
  lemma AssignShape(m: AuditMap, name: string, e: Entry)
    ensures name in Names(m) ==> Names(Assign(m, name, e)) == Names(m)
    ensures name !in Names(m) ==> Assign(m, name, e) == m + [Category(name, e)]
    ensures |m| <= |Assign(m, name, e)|
    ensures forall i :: 0 <= i < |m| && m[i].name != name ==> Assign(m, name, e)[i] == m[i]
  {
    AssignNames(m, name, e);
    AssignKeeps(m, name, e);
  }

  lemma {:induction false} AssignNames(m: AuditMap, name: string, e: Entry)
    ensures name in Names(m) ==> Names(Assign(m, name, e)) == Names(m)
    ensures name !in Names(m) ==> Assign(m, name, e) == m + [Category(name, e)]
  {
    if |m| > 0 && m[0].name != name {
      var t := Assign(m[1..], name, e);
      AssignNames(m[1..], name, e);
      assert Assign(m, name, e) == [m[0]] + t;
      assert Names(m) == [m[0].name] + Names(m[1..]);
      assert Names([m[0]] + t) == [m[0].name] + Names(t);
      assert name in Names(m) <==> name in Names(m[1..]);
    }
  }

  lemma {:induction false} AssignKeeps(m: AuditMap, name: string, e: Entry)
    ensures |m| <= |Assign(m, name, e)|
    ensures forall i :: 0 <= i < |m| && m[i].name != name ==> Assign(m, name, e)[i] == m[i]
  {
    if |m| > 0 && m[0].name != name {
      var t := Assign(m[1..], name, e);
      var r := Assign(m, name, e);
      AssignKeeps(m[1..], name, e);
      assert r == [m[0]] + t;
      forall i | 0 < i < |m|
        ensures m[i] == m[1..][i - 1] && r[i] == t[i - 1]
      {
      }
    }
  }

  /** Assigning into a dict keeps its keys distinct, and the assigned key
      holds the new value. */
  lemma {:induction false} AssignWellFormed(m: AuditMap, name: string, e: Entry)
    ensures WellFormed(m) ==> WellFormed(Assign(m, name, e))
    ensures WellFormed(m) ==> forall i :: 0 <= i < |Assign(m, name, e)| && Assign(m, name, e)[i].name == name ==>
      Assign(m, name, e)[i].entry == e
    decreases |m|, 1
  {
    if WellFormed(m) {
      if name !in Names(m) {
        AssignNew(m, name, e);
      } else if m[0].name == name {
        AssignAtHead(m, name, e);
      } else {
        AssignBehind(m, name, e);
      }
    }
  }

  lemma WellFormedTail(m: AuditMap)
    requires WellFormed(m) && |m| > 0
    ensures WellFormed(m[1..])
  {
    forall i, j | 0 <= i < j < |m| - 1
      ensures Names(m[1..])[i] != Names(m[1..])[j]
    {
      assert Names(m[1..])[i] == Names(m)[i + 1] && Names(m[1..])[j] == Names(m)[j + 1];
    }
  }

  lemma {:induction false} AssignBehind(m: AuditMap, name: string, e: Entry)
    requires WellFormed(m) && |m| > 0 && m[0].name != name && name in Names(m)
    ensures WellFormed(Assign(m, name, e))
    ensures forall i :: 0 <= i < |Assign(m, name, e)| && Assign(m, name, e)[i].name == name ==>
      Assign(m, name, e)[i].entry == e
    decreases |m|, 0
  {
    var t := Assign(m[1..], name, e);
    var r := Assign(m, name, e);
    AssignShape(m, name, e);
    AssignShape(m[1..], name, e);
    assert r == [m[0]] + t;
    WellFormedTail(m);
    AssignWellFormed(m[1..], name, e);
    assert Names(r) == Names(m);
    forall i | 0 < i < |r|
      ensures r[i] == t[i - 1]
    {
    }
  }

  lemma AssignNew(m: AuditMap, name: string, e: Entry)
    requires WellFormed(m) && name !in Names(m)
    ensures WellFormed(Assign(m, name, e))
    ensures forall i :: 0 <= i < |Assign(m, name, e)| && Assign(m, name, e)[i].name == name ==>
      Assign(m, name, e)[i].entry == e
  {
    var r := Assign(m, name, e);
    AssignShape(m, name, e);
    assert r == m + [Category(name, e)];
    assert Names(r) == Names(m) + [name];
    forall i | 0 <= i < |m|
      ensures r[i].name != name
    {
      assert Names(m)[i] == m[i].name;
    }
  }

  lemma AssignAtHead(m: AuditMap, name: string, e: Entry)
    requires WellFormed(m) && |m| > 0 && m[0].name == name
    ensures WellFormed(Assign(m, name, e))
    ensures forall i :: 0 <= i < |Assign(m, name, e)| && Assign(m, name, e)[i].name == name ==>
      Assign(m, name, e)[i].entry == e
  {
    var r := Assign(m, name, e);
    AssignShape(m, name, e);
    assert r == [Category(name, e)] + m[1..];
    assert Names(r) == Names(m);
    forall i | 0 < i < |m|
      ensures r[i].name != name
    {
      assert Names(m)[i] != Names(m)[0];
    }
  }

  /** `data.get(name)`: the entry under a name, if any. */
  function Get(m: AuditMap, name: string): (r: Option<Entry>)
    ensures r.None? <==> name !in Names(m)
  {
    if |m| == 0 then None
    else if m[0].name == name then Some(m[0].entry)
    else
      assert Names(m) == [m[0].name] + Names(m[1..]);
      Get(m[1..], name)
  }

  /** Reading a key after an assignment sees the assigned value for that key
      and the old value for every other key. */
  lemma {:induction false} GetAssign(m: AuditMap, name: string, e: Entry, k: string)
    ensures Get(Assign(m, name, e), k) == if k == name then Some(e) else Get(m, k)
  {
    if |m| > 0 && m[0].name != name {
      GetAssign(m[1..], name, e, k);
      assert Assign(m, name, e)[1..] == Assign(m[1..], name, e);
    }
  }

  /** In a dict, every stored category is what a lookup of its name finds. */
  lemma {:induction false} GetIndex(m: AuditMap, i: nat)
    requires WellFormed(m)
    requires i < |m|
    ensures Get(m, m[i].name) == Some(m[i].entry)
  {
    assert Names(m)[0] == m[0].name && Names(m)[i] == m[i].name;
    if i > 0 {
      assert Names(m[1..]) == Names(m)[1..];
      GetIndex(m[1..], i - 1);
    }
  }

  const ReadabilityKey: string := "Home Page Readability"
  const ToneKey: string := "AI Tone of Voice"
  const CityPagesKey: string := "Service-in-City Pages"
  const FaqKey: string := "FAQ Depth"
  const TestimonialsKey: string := "Testimonials & Case Studies"
  const ComparisonKey: string := "Comparison Table"
  const PricingKey: string := "Pricing Transparency"
  const DirectoryKey: string := "Local & Directory Profiles"
  const ReviewsKey: string := "Reviews Quantity & Rating"
  const PressKey: string := "Press / Best Of Mentions"
  const SchemaKey: string := "Technical Markup (Schema)"
  const MobileKey: string := "Mobile UX & Speed"

  /** The twelve categories in the order `run_audit` lists them. */
  const CategoryNames: seq<string> := [
    ReadabilityKey, ToneKey, CityPagesKey, FaqKey, TestimonialsKey, ComparisonKey,
    PricingKey, DirectoryKey, ReviewsKey, PressKey, SchemaKey, MobileKey]

  /** The five categories the live detectors can overwrite. */
  const LiveNames: seq<string> := [ReadabilityKey, ToneKey, FaqKey, TestimonialsKey, ComparisonKey]

  lemma LiveNamesDistinct()
    ensures Distinct(LiveNames)
  {
    var ns := LiveNames;
    assert ns[0][0] == 'H' && ns[1][0] == 'A' && ns[2][0] == 'F' && ns[3][0] == 'T' && ns[4][0] == 'C';
  }

  lemma CategoryNamesDistinct()
    ensures Distinct(CategoryNames)
  {
    var ns := CategoryNames;
    assert |ns[0]| == 21 && |ns[1]| == 16 && |ns[2]| == 21 && |ns[3]| == 9;
    assert |ns[4]| == 27 && |ns[5]| == 16 && |ns[6]| == 20 && |ns[7]| == 26;
    assert |ns[8]| == 25 && |ns[9]| == 24 && |ns[10]| == 25 && |ns[11]| == 17;
    assert ns[0][0] == 'H' && ns[2][0] == 'S';
    assert ns[1][0] == 'A' && ns[5][0] == 'C';
    assert ns[8][0] == 'R' && ns[10][0] == 'T';
  }

  /** Everything in an entry but its icon. A "%s" in a result or a
      recommendation is a slot, filled when the entry is made. */
  datatype Prose = Prose(result: string, recommendation: string, why: string, how: string, quickWin: string)

  /** Python's `template % arg` for a template with a single "%s" slot. */
  function Fill(template: string, arg: string): string {
    ReplaceAll(template, "%s", arg)
  }

  function Dress(icon: Icon, p: Prose): Entry {
    Entry(icon, p.result, p.recommendation, p.why, p.how, p.quickWin)
  }

  /** The phrases `local_mode` selects: a location-page example, directory
      names, review sites and press outlets. */
  datatype Locale = Locale(geoExample: string, dirExamples: string, reviewFocus: string, pressNote: string)

  /** The wording of the twelve baseline entries, one field per category. */
  datatype BaselineText = BaselineText(
    readability: Prose, tone: Prose, cityPages: Prose, faq: Prose,
    testimonials: Prose, comparison: Prose, pricing: Prose, directory: Prose,
    reviews: Prose, press: Prose, schema: Prose, mobile: Prose)

  /** The icons of the dict literal in `run_audit`, category by category. */
  const BaselineIcons: seq<Icon> := [Amber, Amber, Red, Amber, Red, Red, Amber, Amber, Amber, Red, Amber, Green]

  /** The dict literal `data` of `run_audit`, before any detection: the
      wording t with the recommendations of the city-pages, directory,
      reviews and press categories formatted with the locale's phrase. */
  function Baseline(t: BaselineText, l: Locale): (m: AuditMap)
    ensures Names(m) == CategoryNames
    ensures WellFormed(m)
    ensures Icons(m) == BaselineIcons
  {
    var m := [
      Category(ReadabilityKey, Dress(Amber, t.readability)),
      Category(ToneKey, Dress(Amber, t.tone)),
      Category(CityPagesKey, Dress(Red, t.cityPages.(recommendation := Fill(t.cityPages.recommendation, l.geoExample)))),
      Category(FaqKey, Dress(Amber, t.faq)),
      Category(TestimonialsKey, Dress(Red, t.testimonials)),
      Category(ComparisonKey, Dress(Red, t.comparison)),
      Category(PricingKey, Dress(Amber, t.pricing)),
      Category(DirectoryKey, Dress(Amber, t.directory.(recommendation := Fill(t.directory.recommendation, l.dirExamples)))),
      Category(ReviewsKey, Dress(Amber, t.reviews.(recommendation := Fill(t.reviews.recommendation, l.reviewFocus)))),
      Category(PressKey, Dress(Red, t.press.(recommendation := Fill(t.press.recommendation, l.pressNote)))),
      Category(SchemaKey, Dress(Amber, t.schema)),
      Category(MobileKey, Dress(Green, t.mobile))
    ];
    assert Names(m) == CategoryNames;
    CategoryNamesDistinct();
    m
  }

  /** The locale only changes wording: every category keeps its name, icon,
      result, reasons, steps and quick win, and all but the city-pages,
      directory, reviews and press categories stay identical. */
  lemma LocaleChangesRecommendationsOnly(t: BaselineText, a: Locale, b: Locale)
    ensures |Baseline(t, a)| == |Baseline(t, b)|
    ensures forall i :: 0 <= i < |Baseline(t, a)| ==>
      var x, y := Baseline(t, a)[i], Baseline(t, b)[i];
      x.name == y.name && x.entry.icon == y.entry.icon && x.entry.result == y.entry.result
      && x.entry.why == y.entry.why && x.entry.how == y.entry.how && x.entry.quickWin == y.entry.quickWin
    ensures forall i :: 0 <= i < |Baseline(t, a)| && i != 2 && i != 7 && i != 8 && i != 9 ==>
      Baseline(t, a)[i] == Baseline(t, b)[i]
  {
    var x, y := Baseline(t, a), Baseline(t, b);
    forall i | 0 <= i < |x|
      ensures x[i].name == y[i].name && x[i].entry.(recommendation := "") == y[i].entry.(recommendation := "")
    {
    }
  }

  /** Python's `str(round(grade, 1))` for a grade held in tenths. */
  function GradeLabel(tenths: int): string {
    var a := if tenths < 0 then -tenths else tenths;
    (if tenths < 0 then "-" else "") + NatToString(a / 10) + "." + [DigitChar(a % 10)]
  }

  /** The wording of the entries the detectors write, one field per outcome.
      The three readability results carry a "%s" slot for the grade. */
  datatype LiveText = LiveText(
    clear: Prose, moderate: Prose, complex: Prose,
    thirdPerson: Prose, firstPerson: Prose, mixedTone: Prose,
    faqFound: Prose, faqMissing: Prose,
    strongProof: Prose, someProof: Prose, weakProof: Prose,
    tablePresent: Prose, tableMissing: Prose)

  /** The readability entry for a grade given in tenths: green up to 8.0,
      amber up to 10.0, red above, the grade written into the result. */
  function ReadabilityEntry(w: LiveText, tenths: int): (e: Entry)
    ensures e.icon == Green <==> tenths <= 80
    ensures e.icon == Amber <==> 80 < tenths <= 100
    ensures e.icon == Red <==> 100 < tenths
  {
    var p := if tenths <= 80 then w.clear else if tenths <= 100 then w.moderate else w.complex;
    var filled := p.(result := Fill(p.result, GradeLabel(tenths)));
    if tenths <= 80 then Dress(Green, filled)
    else if tenths <= 100 then Dress(Amber, filled)
    else Dress(Red, filled)
  }

  /** A harder text never earns a better readability icon. */
  lemma ReadabilityMonotone(w: LiveText, a: int, b: int)
    requires a <= b
    ensures Points(ReadabilityEntry(w, a).icon) >= Points(ReadabilityEntry(w, b).icon)
  {
  }

  /** The tone entry for the cross-page verdict. */
  function ToneEntry(w: LiveText, t: Tone): (e: Entry)
    ensures e.icon == Green <==> t == Third
    ensures e.icon == Red <==> t == First
    ensures e.icon == Amber <==> t == Mixed
  {
    match t
    case Third => Dress(Green, w.thirdPerson)
    case First => Dress(Red, w.firstPerson)
    case Mixed => Dress(Amber, w.mixedTone)
  }

  function FaqEntry(w: LiveText, found: bool): (e: Entry)
    ensures e.icon == Green <==> found
    ensures e.icon == Red <==> !found
  {
    if found then Dress(Green, w.faqFound) else Dress(Red, w.faqMissing)
  }

  /** The testimonial entry for the total signal count: green from 8, amber
      from 3, red below. */
  function TestimonialEntry(w: LiveText, total: nat): (e: Entry)
    ensures e.icon == Green <==> total >= 8
    ensures e.icon == Amber <==> 3 <= total < 8
    ensures e.icon == Red <==> total < 3
  {
    if total >= 8 then Dress(Green, w.strongProof)
    else if total >= 3 then Dress(Amber, w.someProof)
    else Dress(Red, w.weakProof)
  }

  /** More testimonial signals never earn a worse icon. */
  lemma TestimonialMonotone(w: LiveText, a: nat, b: nat)
    requires a <= b
    ensures Points(TestimonialEntry(w, a).icon) <= Points(TestimonialEntry(w, b).icon)
  {
  }

  function ComparisonEntry(w: LiveText, found: bool): (e: Entry)
    ensures e.icon == Green <==> found
    ensures e.icon == Red <==> !found
  {
    if found then Dress(Green, w.tablePresent) else Dress(Red, w.tableMissing)
  }
}

/** `run_audit` of aeo_logic1.py: fetch the site, parse every page, and
    write the verdicts of the readability, tone, FAQ, testimonial and
    comparison detectors over the baseline map. The HTML parser is a
    collaborator given as a parameter: for one HTML body it yields the page
    view, or None where BeautifulSoup or `get_text` raised. */
module Audit {
  import opened Seqs
  import opened Fetcher
  import opened Readability
  import opened Detectors
  import opened Catalogue
  import Wording

  type Parser = string -> Option<PageView>

  /** `fetched.values()`, in insertion order. */
  function Bodies(pages: seq<Page>): (bs: seq<string>)
    ensures |bs| == |pages|
    ensures forall k :: 0 <= k < |pages| ==> bs[k] == pages[k].html
  {
    seq(|pages|, k requires 0 <= k < |pages| => pages[k].html)
  }

  /** `[BeautifulSoup(h, "html.parser") for h in ...]`: every body parsed, or
      None as soon as one of them raises. */
  function ParseAll(parse: Parser, bodies: seq<string>): (r: Option<seq<PageView>>)
    ensures r.None? <==> exists k :: 0 <= k < |bodies| && parse(bodies[k]).None?
    ensures r.Some? ==> |r.value| == |bodies|
    ensures r.Some? ==> forall k :: 0 <= k < |bodies| ==> parse(bodies[k]) == Some(r.value[k])
  {
    if |bodies| == 0 then Some([])
    else
      assert forall k :: 1 <= k < |bodies| ==> bodies[k] == bodies[1..][k - 1];
      match parse(bodies[0])
      case None => None
      case Some(v) =>
        match ParseAll(parse, bodies[1..])
        case None => None
        case Some(vs) => Some([v] + vs)
  }

  function Texts(views: seq<PageView>): (ts: seq<string>)
    ensures |ts| == |views|
    ensures forall k :: 0 <= k < |views| ==> ts[k] == views[k].text
  {
    seq(|views|, k requires 0 <= k < |views| => views[k].text)
  }

  /** The grade `run_audit` judges, in tenths: that of the longest page text
      (the first of them on a tie), or 10.0 when there is no page. */
  function SiteGrade(views: seq<PageView>): (g: int)
    ensures |views| == 0 ==> g == 100
    ensures |views| > 0 ==>
      exists k :: 0 <= k < |views| && g == GradeTenths(views[k].text)
        && (forall j :: 0 <= j < |views| ==> |views[j].text| <= |views[k].text|)
  {
    if |views| == 0 then 100
    else
      var texts := Texts(views);
      var k := LongestIndex(texts);
      GradeTenths(texts[k])
  }

  predicate HasLiveKeys(data: AuditMap) {
    forall k :: k in LiveNames ==> k in Names(data)
  }

  /** One statement of the `try` block: an assignment `data[key] = entry`,
      a statement that does nothing, or one that raises. */
  datatype Step = Write(key: string, entry: Entry) | Pass | Raise

  /** Runs the statements in order; the first that raises ends the block and
      the assignments before it stay done. */
  function Apply(data: AuditMap, steps: seq<Step>): AuditMap
    decreases |steps|
  {
    if |steps| == 0 then data
    else
      match steps[0]
      case Raise => data
      case Pass => Apply(data, steps[1..])
      case Write(k, e) => Apply(Assign(data, k, e), steps[1..])
  }

  /** No statement of the block assigns to name. */
  predicate Untouched(steps: seq<Step>, name: string) {
    forall j :: 0 <= j < |steps| && steps[j].Write? ==> steps[j].key != name
  }

  /** The value a key ends up with: the last assignment to it before the
      first raise, or its value before the block. */
  function LastWrite(steps: seq<Step>, k: string, before: Option<Entry>): Option<Entry>
    decreases |steps|
  {
    if |steps| == 0 then before
    else
      match steps[0]
      case Raise => before
      case Pass => LastWrite(steps[1..], k, before)
      case Write(k', e) => LastWrite(steps[1..], k, if k' == k then Some(e) else before)
  }

  lemma {:induction false} ApplyKeepsOthers(data: AuditMap, steps: seq<Step>)
    ensures |data| <= |Apply(data, steps)|
    ensures forall i :: 0 <= i < |data| && Untouched(steps, data[i].name) ==> Apply(data, steps)[i] == data[i]
    decreases |steps|
  {
    if |steps| > 0 && steps[0].Write? {
      var d := Assign(data, steps[0].key, steps[0].entry);
      AssignShape(data, steps[0].key, steps[0].entry);
      ApplyKeepsOthers(d, steps[1..]);
      forall i | 0 <= i < |data| && Untouched(steps, data[i].name)
        ensures Apply(data, steps)[i] == data[i]
      {
        assert steps[0].key != data[i].name;
        assert d[i] == data[i];
        assert Untouched(steps[1..], d[i].name) by {
          forall j | 0 <= j < |steps| - 1 && steps[1..][j].Write?
            ensures steps[1..][j].key != d[i].name
          {
            assert steps[1..][j] == steps[j + 1];
          }
        }
      }
    } else if |steps| > 0 && steps[0].Pass? {
      ApplyKeepsOthers(data, steps[1..]);
      forall i | 0 <= i < |data| && Untouched(steps, data[i].name)
        ensures Untouched(steps[1..], data[i].name)
      {
        forall j | 0 <= j < |steps| - 1 && steps[1..][j].Write?
          ensures steps[1..][j].key != data[i].name
        {
          assert steps[1..][j] == steps[j + 1];
        }
      }
    }
  }

  lemma {:induction false} ApplyShape(data: AuditMap, steps: seq<Step>)
    ensures WellFormed(data) ==> WellFormed(Apply(data, steps))
    ensures (forall j :: 0 <= j < |steps| && steps[j].Write? ==> steps[j].key in Names(data)) ==>
      Names(Apply(data, steps)) == Names(data)
    decreases |steps|
  {
    if |steps| > 0 && !steps[0].Raise? {
      var d := if steps[0].Write? then Assign(data, steps[0].key, steps[0].entry) else data;
      if steps[0].Write? {
        AssignShape(data, steps[0].key, steps[0].entry);
        AssignWellFormed(data, steps[0].key, steps[0].entry);
      }
      ApplyShape(d, steps[1..]);
      if forall j :: 0 <= j < |steps| && steps[j].Write? ==> steps[j].key in Names(data) {
        assert Names(d) == Names(data);
        assert forall j :: 0 <= j < |steps| - 1 ==> steps[1..][j] == steps[j + 1];
      }
    }
  }

  lemma {:induction false} ApplyGet(data: AuditMap, steps: seq<Step>, k: string)
    ensures Get(Apply(data, steps), k) == LastWrite(steps, k, Get(data, k))
    decreases |steps|
  {
    if |steps| > 0 {
      match steps[0]
      case Raise =>
      case Pass => ApplyGet(data, steps[1..], k);
      case Write(k', e) =>
        GetAssign(data, k', e, k);
        ApplyGet(Assign(data, k', e), steps[1..], k);
    }
  }

  /** What the detectors of the `try` block found: the grade in tenths, the
      majority tone (None when there is no page, so that tone is not judged),
      and the FAQ, testimonial and comparison results, each None when the
      detector raised on a page it reached. */
  datatype Verdicts = Verdicts(grade: int, tone: Option<Tone>, faq: Option<bool>,
                               proof: Option<nat>, table: Option<bool>)

  /** The verdicts over the parsed pages. Without pages the block sees the
      defaults 10.0, False, 0 and False, and there is no tone to report:
      a tone exists exactly when some page was parsed. */
  function Detect(views: seq<PageView>): (v: Verdicts)
    ensures |views| == 0 ==> v == Verdicts(100, None, Some(false), Some(0), Some(false))
    ensures |views| > 0 ==> v.grade == SiteGrade(views) && v.tone == Some(MajorityTone(Tones(views)))
    ensures |views| > 0 ==> v.faq == AnyFaq(views) && v.proof == TestimonialTotal(views) && v.table == AnyComparison(views)
    ensures v.tone.Some? <==> |views| > 0
  {
    if |views| == 0 then Verdicts(100, None, Some(false), Some(0), Some(false))
    else Verdicts(SiteGrade(views), Some(MajorityTone(Tones(views))), AnyFaq(views),
                  TestimonialTotal(views), AnyComparison(views))
  }

  /** The five detector statements of the `try` block, in the source's order. */
  function StepsFor(w: LiveText, v: Verdicts): seq<Step> {
    [ Write(ReadabilityKey, ReadabilityEntry(w, v.grade)),
      match v.tone
        case None => Pass
        case Some(t) => Write(ToneKey, ToneEntry(w, t)),
      match v.faq
        case None => Raise
        case Some(b) => Write(FaqKey, FaqEntry(w, b)),
      match v.proof
        case None => Raise
        case Some(n) => Write(TestimonialsKey, TestimonialEntry(w, n)),
      match v.table
        case None => Raise
        case Some(b) => Write(ComparisonKey, ComparisonEntry(w, b)) ]
  }

  /** The `try` block after parsing: each detector overwrites its category in
      turn, and a detector that raises ends the block with the categories
      written before it keeping their new values. Only the five live
      categories change; the keys and their order never do. */
  function MergeLive(w: LiveText, data: AuditMap, v: Verdicts): (r: AuditMap)
    ensures HasLiveKeys(data) ==> Names(r) == Names(data)
    ensures WellFormed(data) ==> WellFormed(r)
    ensures |data| <= |r|
    ensures forall i :: 0 <= i < |data| && data[i].name !in LiveNames ==> r[i] == data[i]
  {
    var s := StepsFor(w, v);
    assert forall j :: 0 <= j < |s| && s[j].Write? ==> s[j].key == LiveNames[j];
    ApplyShape(data, s);
    ApplyKeepsOthers(data, s);
    Apply(data, s)
  }

  /** `run_audit` for a given wording and locale: the baseline, replaced
      by the detectors' verdicts when the fetch and the parse succeed. A fetch
      that raises something other than a request error, or a page that cannot
      be parsed, leaves the baseline as it is. */
  function AuditWith(bt: BaselineText, lt: LiveText, oracle: Oracle, parse: Parser,
                     url: string, l: Locale): AuditMap
  {
    var base := Baseline(bt, l);
    var site := FetchSite(oracle, url, DefaultMaxPages);
    if site.pages.None? then base
    else
      match ParseAll(parse, Bodies(site.pages.value))
      case None => base
      case Some(views) => MergeLive(lt, base, Detect(views))
  }

  /** `run_audit(url, local_mode)` with the tool's own wording. */
  function RunAudit(oracle: Oracle, parse: Parser, url: string, localMode: bool): AuditMap {
    AuditWith(Wording.ToolBaselineText(), Wording.ToolLiveText(), oracle, parse, url, Wording.LocaleFor(localMode))
  }


  /** What the block leaves under each of the five live keys, told step by
      step: the last write before the first raise, or the earlier value. */
  lemma {:induction false} MergeGet(w: LiveText, data: AuditMap, v: Verdicts, k: string)
    ensures Get(MergeLive(w, data, v), k) == LastWrite(StepsFor(w, v), k, Get(data, k))
  {
    ApplyGet(data, StepsFor(w, v), k);
  }

  /** A key written once, at a statement no raise comes before, ends up
      with that write's entry. */
  lemma {:induction false} LastWriteHit(steps: seq<Step>, k: string, before: Option<Entry>, j: nat)
    requires j < |steps| && steps[j].Write? && steps[j].key == k
    requires forall i :: 0 <= i < j ==> !steps[i].Raise?
    requires forall i :: 0 <= i < |steps| && i != j && steps[i].Write? ==> steps[i].key != k
    ensures LastWrite(steps, k, before) == Some(steps[j].entry)
    decreases |steps|
  {
    var tail := steps[1..];
    assert forall i :: 0 <= i < |tail| ==> tail[i] == steps[i + 1];
    if j == 0 {
      LastWriteMiss(tail, k, Some(steps[0].entry), |tail|);
    } else {
      LastWriteHit(tail, k, before, j - 1);
    }
  }

  /** A key no statement writes before the first raise (or the end) keeps
      its earlier value. */
  lemma {:induction false} LastWriteMiss(steps: seq<Step>, k: string, before: Option<Entry>, j: nat)
    requires j <= |steps| && (j == |steps| || steps[j].Raise?)
    requires forall i :: 0 <= i < j && steps[i].Write? ==> steps[i].key != k
    ensures LastWrite(steps, k, before) == before
    decreases |steps|
  {
    if j > 0 {
      var tail := steps[1..];
      assert forall i :: 0 <= i < |tail| ==> tail[i] == steps[i + 1];
      LastWriteMiss(tail, k, before, j - 1);
    }
  }

  /** With statement i writing only names[i], a name whose statement writes
      and is reached ends up with that statement's entry. */
  lemma LastWriteAt(steps: seq<Step>, names: seq<string>, before: Option<Entry>, j: nat)
    requires |steps| == |names| && Distinct(names)
    requires forall i :: 0 <= i < |steps| && steps[i].Write? ==> steps[i].key == names[i]
    requires j < |steps| && steps[j].Write?
    requires forall i :: 0 <= i < j ==> !steps[i].Raise?
    ensures LastWrite(steps, names[j], before) == Some(steps[j].entry)
  {
    forall i | 0 <= i < |steps| && i != j && steps[i].Write?
      ensures steps[i].key != names[j]
    {
      if i < j { assert names[i] != names[j]; } else { assert names[j] != names[i]; }
    }
    LastWriteHit(steps, names[j], before, j);
  }

  /** With statement i writing only names[i], a name whose statement comes
      at or after the first raise r (or does not write) keeps its value. */
  lemma LastWriteBlocked(steps: seq<Step>, names: seq<string>, before: Option<Entry>, j: nat, r: nat)
    requires |steps| == |names| && Distinct(names)
    requires forall i :: 0 <= i < |steps| && steps[i].Write? ==> steps[i].key == names[i]
    requires j < |steps| && r <= |steps| && (r == |steps| || steps[r].Raise?)
    requires r <= j || !steps[j].Write?
    ensures LastWrite(steps, names[j], before) == before
  {
    forall i | 0 <= i < r && steps[i].Write?
      ensures steps[i].key != names[j]
    {
      if i < j { assert names[i] != names[j]; } else { assert names[j] != names[i]; }
    }
    LastWriteMiss(steps, names[j], before, r);
  }

  /** The statements write the live keys in their catalogue order, and only
      the detectors after tone can raise. */
  lemma StepsKeys(w: LiveText, v: Verdicts)
    ensures |StepsFor(w, v)| == |LiveNames| && Distinct(LiveNames)
    ensures forall j :: 0 <= j < |LiveNames| && StepsFor(w, v)[j].Write? ==> StepsFor(w, v)[j].key == LiveNames[j]
    ensures !StepsFor(w, v)[0].Raise? && !StepsFor(w, v)[1].Raise?
  {
    LiveNamesDistinct();
  }

  /** Readability is always rewritten: its statement is the first and cannot
      raise. */
  lemma MergeReadability(w: LiveText, data: AuditMap, v: Verdicts)
    ensures Get(MergeLive(w, data, v), ReadabilityKey) == Some(ReadabilityEntry(w, v.grade))
  {
    StepsKeys(w, v);
    MergeGet(w, data, v, ReadabilityKey);
    LastWriteAt(StepsFor(w, v), LiveNames, Get(data, ReadabilityKey), 0);
  }

  /** Tone is rewritten exactly when it was judged, that is when there are
      pages. */
  lemma MergeTone(w: LiveText, data: AuditMap, v: Verdicts)
    ensures Get(MergeLive(w, data, v), ToneKey) ==
      if v.tone.Some? then Some(ToneEntry(w, v.tone.value)) else Get(data, ToneKey)
  {
    MergeGet(w, data, v, ToneKey);
    ToneStep(w, v, Get(data, ToneKey));
  }

  lemma ToneStep(w: LiveText, v: Verdicts, before: Option<Entry>)
    ensures LastWrite(StepsFor(w, v), ToneKey, before) ==
      if v.tone.Some? then Some(ToneEntry(w, v.tone.value)) else before
  {
    StepsKeys(w, v);
    var s := StepsFor(w, v);
    if v.tone.Some? {
      LastWriteAt(s, LiveNames, before, 1);
    } else {
      LastWriteBlocked(s, LiveNames, before, 1, |s|);
    }
  }

  /** FAQ is rewritten unless its detector raised, in which case it keeps
      its earlier entry. */
  lemma MergeFaq(w: LiveText, data: AuditMap, v: Verdicts)
    ensures Get(MergeLive(w, data, v), FaqKey) ==
      if v.faq.Some? then Some(FaqEntry(w, v.faq.value)) else Get(data, FaqKey)
  {
    MergeGet(w, data, v, FaqKey);
    FaqStep(w, v, Get(data, FaqKey));
  }

  lemma FaqStep(w: LiveText, v: Verdicts, before: Option<Entry>)
    ensures LastWrite(StepsFor(w, v), FaqKey, before) ==
      if v.faq.Some? then Some(FaqEntry(w, v.faq.value)) else before
  {
    StepsKeys(w, v);
    var s := StepsFor(w, v);
    if v.faq.Some? {
      LastWriteAt(s, LiveNames, before, 2);
    } else {
      LastWriteBlocked(s, LiveNames, before, 2, 2);
    }
  }

  /** Testimonials are rewritten only when neither the FAQ detector nor their
      own detector raised. */
  lemma MergeTestimonials(w: LiveText, data: AuditMap, v: Verdicts)
    ensures Get(MergeLive(w, data, v), TestimonialsKey) ==
      if v.faq.Some? && v.proof.Some? then Some(TestimonialEntry(w, v.proof.value))
      else Get(data, TestimonialsKey)
  {
    MergeGet(w, data, v, TestimonialsKey);
    TestimonialsStep(w, v, Get(data, TestimonialsKey));
  }

  lemma TestimonialsStep(w: LiveText, v: Verdicts, before: Option<Entry>)
    ensures LastWrite(StepsFor(w, v), TestimonialsKey, before) ==
      if v.faq.Some? && v.proof.Some? then Some(TestimonialEntry(w, v.proof.value)) else before
  {
    StepsKeys(w, v);
    var s := StepsFor(w, v);
    if v.faq.None? {
      LastWriteBlocked(s, LiveNames, before, 3, 2);
    } else if v.proof.None? {
      LastWriteBlocked(s, LiveNames, before, 3, 3);
    } else {
      LastWriteAt(s, LiveNames, before, 3);
    }
  }

  /** The comparison table is rewritten only when all three detectors before
      the end of the block answered. */
  lemma MergeComparison(w: LiveText, data: AuditMap, v: Verdicts)
    ensures Get(MergeLive(w, data, v), ComparisonKey) ==
      if v.faq.Some? && v.proof.Some? && v.table.Some? then Some(ComparisonEntry(w, v.table.value))
      else Get(data, ComparisonKey)
  {
    MergeGet(w, data, v, ComparisonKey);
    ComparisonStep(w, v, Get(data, ComparisonKey));
  }

  lemma ComparisonStep(w: LiveText, v: Verdicts, before: Option<Entry>)
    ensures LastWrite(StepsFor(w, v), ComparisonKey, before) ==
      if v.faq.Some? && v.proof.Some? && v.table.Some? then Some(ComparisonEntry(w, v.table.value))
      else before
  {
    StepsKeys(w, v);
    var s := StepsFor(w, v);
    if v.faq.None? {
      LastWriteBlocked(s, LiveNames, before, 4, 2);
    } else if v.proof.None? {
      LastWriteBlocked(s, LiveNames, before, 4, 3);
    } else if v.table.None? {
      LastWriteBlocked(s, LiveNames, before, 4, 4);
    } else {
      LastWriteAt(s, LiveNames, before, 4);
    }
  }

  /** The five live keys are among the catalogue's categories. */
  lemma LiveKeysCatalogued(m: AuditMap)
    requires Names(m) == CategoryNames
    ensures HasLiveKeys(m)
  {
    assert LiveNames == [CategoryNames[0], CategoryNames[1], CategoryNames[3], CategoryNames[4], CategoryNames[5]];
  }

  /** Whatever the site does, the result has the twelve categories in their
      order, and the seven without a detector keep their baseline entry. */
  lemma AuditShape(bt: BaselineText, lt: LiveText, oracle: Oracle, parse: Parser, url: string, l: Locale)
    ensures var r := AuditWith(bt, lt, oracle, parse, url, l);
      Names(r) == CategoryNames && WellFormed(r)
    ensures var r := AuditWith(bt, lt, oracle, parse, url, l);
      var base := Baseline(bt, l);
      forall i :: 0 <= i < |r| && r[i].name !in LiveNames ==> r[i] == base[i]
  {
    LiveKeysCatalogued(Baseline(bt, l));
  }

  /** A fetch that raises, or a page the parser cannot read, leaves the
      baseline untouched. */
  lemma AuditKeepsBaselineOnFailure(bt: BaselineText, lt: LiveText, oracle: Oracle, parse: Parser, url: string, l: Locale)
    requires var site := FetchSite(oracle, url, DefaultMaxPages);
      site.pages.None? || ParseAll(parse, Bodies(site.pages.value)).None?
    ensures AuditWith(bt, lt, oracle, parse, url, l) == Baseline(bt, l)
  {
  }

  /** The icons `run_audit` reports when the site yields no page at all. */
  const NoPageIcons: seq<Icon> := [Amber, Amber, Red, Red, Red, Red, Amber, Amber, Amber, Red, Amber, Green]

  /** The verdicts the block sees without pages. */
  const NoPageVerdicts := Verdicts(100, None, Some(false), Some(0), Some(false))

  /** The categories a merge without pages leaves alone. */
  lemma NotLive(i: nat)
    requires i < |CategoryNames| && i != 0 && i != 1 && i != 3 && i != 4 && i != 5
    ensures CategoryNames[i] !in LiveNames
  {
    CategoryNamesDistinct();
    assert LiveNames == [CategoryNames[0], CategoryNames[1], CategoryNames[3], CategoryNames[4], CategoryNames[5]];
  }

  /** The icon a merge without pages leaves at one position. */
  lemma NoPageIconAt(w: LiveText, data: AuditMap, i: nat)
    requires Names(data) == CategoryNames && WellFormed(data) && Icons(data) == BaselineIcons
    requires i < |data|
    ensures |MergeLive(w, data, NoPageVerdicts)| == |data|
    ensures MergeLive(w, data, NoPageVerdicts)[i].entry.icon == NoPageIcons[i]
  {
    var v := NoPageVerdicts;
    var r := MergeLive(w, data, v);
    LiveKeysCatalogued(data);
    if i == 0 {
      GetIndex(r, 0);
      MergeReadability(w, data, v);
    } else if i == 1 {
      GetIndex(r, 1);
      GetIndex(data, 1);
      MergeTone(w, data, v);
    } else if i == 3 {
      GetIndex(r, 3);
      MergeFaq(w, data, v);
    } else if i == 4 {
      GetIndex(r, 4);
      MergeTestimonials(w, data, v);
    } else if i == 5 {
      GetIndex(r, 5);
      MergeComparison(w, data, v);
    } else {
      NotLive(i);
    }
  }

  /** Merging the no-page verdicts into the baseline turns FAQ red and
      readability amber, and leaves tone as it was. */
  lemma NoPageMerge(w: LiveText, data: AuditMap)
    requires Names(data) == CategoryNames && WellFormed(data) && Icons(data) == BaselineIcons
    ensures Icons(MergeLive(w, data, NoPageVerdicts)) == NoPageIcons
  {
    var r := MergeLive(w, data, NoPageVerdicts);
    forall i | 0 <= i < |data|
      ensures r[i].entry.icon == NoPageIcons[i]
    {
      NoPageIconAt(w, data, i);
    }
    NoPageIconAt(w, data, 0);
  }

  /** A site that answers but yields no usable page is not the baseline: with
      nothing raising, readability reads the default 10.0 (amber) and FAQ,
      testimonials and comparison are judged absent (red); tone is not judged
      and keeps its baseline entry. */
  lemma AuditWithoutPages(bt: BaselineText, lt: LiveText, oracle: Oracle, parse: Parser, url: string, l: Locale)
    requires FetchSite(oracle, url, DefaultMaxPages).pages == Some([])
    ensures Icons(AuditWith(bt, lt, oracle, parse, url, l)) == NoPageIcons
  {
    var base := Baseline(bt, l);
    assert Bodies([]) == [];
    assert ParseAll(parse, []) == Some([]);
    assert AuditWith(bt, lt, oracle, parse, url, l) == MergeLive(lt, base, Detect([]));
    assert Detect([]) == NoPageVerdicts;
    NoPageMerge(lt, base);
  }

  /** When the fetch and the parse succeed, readability and tone hold the
      verdicts over the pages, and FAQ holds its verdict unless its detector
      raised on a page it reached. */
  lemma AuditLive(bt: BaselineText, lt: LiveText, oracle: Oracle, parse: Parser, url: string, l: Locale,
                  views: seq<PageView>)
    requires var site := FetchSite(oracle, url, DefaultMaxPages);
      site.pages.Some? && ParseAll(parse, Bodies(site.pages.value)) == Some(views)
    requires |views| > 0
    ensures var r := AuditWith(bt, lt, oracle, parse, url, l);
      Get(r, ReadabilityKey) == Some(ReadabilityEntry(lt, SiteGrade(views)))
      && Get(r, ToneKey) == Some(ToneEntry(lt, MajorityTone(Tones(views))))
    ensures var r := AuditWith(bt, lt, oracle, parse, url, l);
      var base := Baseline(bt, l);
      Get(r, FaqKey) == (if AnyFaq(views).Some? then Some(FaqEntry(lt, AnyFaq(views).value)) else Get(base, FaqKey))
  {
    var base := Baseline(bt, l);
    var v := Detect(views);
    MergeReadability(lt, base, v);
    MergeTone(lt, base, v);
    MergeFaq(lt, base, v);
  }
}

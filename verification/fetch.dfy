/** Candidate-page planning and polite fetching of a site (aeo_logic1.py
    `_fetch`, `_pick_candidate_urls`, `fetch_site`). The HTTP transport is an
    oracle from a request (URL and User-Agent) to its reply; timeouts and the
    pause between requests have no counterpart here. */
module Fetcher {
  import opened Seqs
  import opened Text

  /** The two identities `_fetch` presents: the default header set and the
      browser-like alternative used after a 403. */
  datatype Agent = DefaultAgent | FallbackAgent

  /** The User-Agent header each identity sends. */
  function UserAgent(a: Agent): string {
    match a
    case DefaultAgent => "ReviewMate-AEO/1.0 (+https://reviewmate.example)"
    case FallbackAgent => "Mozilla/5.0 (compatible; ReviewMateAuditBot/1.0)"
  }

  /** The relative paths probed, in probing order. */
  const Suffixes: seq<string> :=
    ["/", "/about", "/services", "/service", "/faq", "/faqs",
     "/testimonials", "/reviews", "/pricing", "/compare", "/contact"]

  /** `fetch_site`'s default `max_pages`, the value `run_audit` uses. */
  const DefaultMaxPages: int := 8

  datatype Request = Request(url: string, agent: Agent)

  /** What one `requests.get` call yields: a response, a `RequestException`
      (connection error, timeout, invalid URL, ...), or any other exception. */
  datatype Reply = Response(status: int, text: string) | RequestError | OtherError

  type Oracle = Request -> Reply

  /** `Response.ok` of the requests library: false exactly for 4xx and 5xx. */
  predicate IsOk(status: int) {
    !(400 <= status < 600)
  }

  /** `_fetch` either returns (a body or None) or lets an exception escape. */
  datatype Outcome = Returned(body: Option<string>) | Raised

  /** The requests `_fetch` issued, in order, and what it produced. */
  datatype Attempt = Attempt(sent: seq<Request>, outcome: Outcome)

  /** The reply to the last request of an attempt, the one `_fetch` acts on. */
  function LastReply(oracle: Oracle, a: Attempt): Reply
    requires |a.sent| > 0
  {
    oracle(a.sent[|a.sent| - 1])
  }

  /** `_fetch(url)`: one request with the default agent, a second with the
      fallback agent only after a 403, the body only when the final response
      is ok; a `RequestException` becomes None, anything else escapes. */
  function Fetch(oracle: Oracle, url: string): (a: Attempt)
    ensures 1 <= |a.sent| <= 2
    ensures a.sent[0] == Request(url, DefaultAgent)
    ensures |a.sent| == 2 <==>
              oracle(Request(url, DefaultAgent)).Response? && oracle(Request(url, DefaultAgent)).status == 403
    ensures |a.sent| == 2 ==> a.sent[1] == Request(url, FallbackAgent)
    ensures a.outcome.Raised? <==> LastReply(oracle, a).OtherError?
    ensures (a.outcome.Returned? && a.outcome.body.Some?) <==>
              (LastReply(oracle, a).Response? && IsOk(LastReply(oracle, a).status))
    ensures a.outcome.Returned? && a.outcome.body.Some? ==> a.outcome.body.value == LastReply(oracle, a).text
  {
    var first := Request(url, DefaultAgent);
    match oracle(first)
    case RequestError => Attempt([first], Returned(None))
    case OtherError => Attempt([first], Raised)
    case Response(status, text) =>
      if status == 403 then
        var second := Request(url, FallbackAgent);
        match oracle(second)
        case RequestError => Attempt([first, second], Returned(None))
        case OtherError => Attempt([first, second], Raised)
        case Response(status2, text2) =>
          Attempt([first, second], if IsOk(status2) then Returned(Some(text2)) else Returned(None))
      else
        Attempt([first], if IsOk(status) then Returned(Some(text)) else Returned(None))
  }

  /** The candidate URLs before de-duplication. */
  function RawCandidates(baseUrl: string): seq<string> {
    var base := RStrip(baseUrl, '/');
    seq(|Suffixes|, i requires 0 <= i < |Suffixes| => base + Suffixes[i])
  }

  lemma SuffixesDistinct()
    ensures Distinct(Suffixes)
  {
    assert Suffixes[3][1] != Suffixes[7][1] && Suffixes[3][1] != Suffixes[8][1];
    assert Suffixes[3][1] != Suffixes[9][1] && Suffixes[3][1] != Suffixes[10][1];
    assert Suffixes[7][1] != Suffixes[8][1] && Suffixes[7][1] != Suffixes[9][1];
    assert Suffixes[7][1] != Suffixes[10][1] && Suffixes[8][1] != Suffixes[9][1];
    assert Suffixes[8][1] != Suffixes[10][1] && Suffixes[9][3] != Suffixes[10][3];
  }

  /** Equal strings with a common prefix have equal remainders. */
  lemma PrefixCancel(base: string, a: string, b: string)
    requires base + a == base + b
    ensures a == b
  {
    assert a == (base + a)[|base|..];
    assert b == (base + b)[|base|..];
  }

  lemma RawCandidatesDistinct(baseUrl: string)
    ensures Distinct(RawCandidates(baseUrl))
  {
    SuffixesDistinct();
    var raw := RawCandidates(baseUrl);
    var base := RStrip(baseUrl, '/');
    forall i, j | 0 <= i < j < |raw|
      ensures raw[i] != raw[j]
    {
      if raw[i] == raw[j] {
        PrefixCancel(base, Suffixes[i], Suffixes[j]);
      }
    }
  }

  /** `_pick_candidate_urls`: the base with trailing slashes removed, followed
      by each suffix in order, de-duplicated in first-seen order. */
  function CandidateUrls(baseUrl: string): (urls: seq<string>)
    ensures |urls| == |Suffixes| == 11
    ensures Distinct(urls)
    ensures forall i :: 0 <= i < |urls| ==> urls[i] == RStrip(baseUrl, '/') + Suffixes[i]
    ensures urls[0] == RStrip(baseUrl, '/') + "/"
  {
    var raw := RawCandidates(baseUrl);
    RawCandidatesDistinct(baseUrl);
    FirstOccurrencesOfDistinct(raw);
    FirstOccurrences(raw)
  }

  /** The URLs `fetch_site` walks: `_pick_candidate_urls(base_url)[:max_pages]`. */
  function ProbedUrls(baseUrl: string, maxPages: int): seq<string> {
    PyPrefix(CandidateUrls(baseUrl), maxPages)
  }

  /** For a non-negative bound the first min(11, maxPages) candidates are
      probed, in candidate order. */
  lemma ProbedUrlsShape(baseUrl: string, maxPages: int)
    requires maxPages >= 0
    ensures |ProbedUrls(baseUrl, maxPages)| == if maxPages < 11 then maxPages else 11
    ensures ProbedUrls(baseUrl, maxPages) <= CandidateUrls(baseUrl)
    ensures Distinct(ProbedUrls(baseUrl, maxPages))
  {
    PyPrefixOfNat(CandidateUrls(baseUrl), maxPages);
  }

  datatype Page = Page(url: string, html: string)

  /** What `fetch_site` did: the requests sent and the page dictionary in
      insertion order, or None when an exception escaped part-way. */
  datatype SiteFetch = SiteFetch(sent: seq<Request>, pages: Option<seq<Page>>)

  /** The URLs requested with the default agent, in order: one per probe. */
  function Primary(sent: seq<Request>): seq<string> {
    if |sent| == 0 then []
    else (if sent[0].agent == DefaultAgent then [sent[0].url] else []) + Primary(sent[1..])
  }

  lemma {:induction false} PrimaryAppend(a: seq<Request>, b: seq<Request>)
    ensures Primary(a + b) == Primary(a) + Primary(b)
  {
    if |a| > 0 {
      assert (a + b)[1..] == a[1..] + b;
      PrimaryAppend(a[1..], b);
    } else {
      assert a + b == b;
    }
  }

  lemma PrimaryOfFetch(oracle: Oracle, url: string)
    ensures Primary(Fetch(oracle, url).sent) == [url]
  {
    var sent := Fetch(oracle, url).sent;
    if |sent| == 2 {
      assert sent[1..][1..] == [];
      assert Primary(sent[1..]) == [];
    } else {
      assert sent[1..] == [];
    }
  }

  function PageUrls(pages: seq<Page>): (us: seq<string>)
    ensures |us| == |pages|
    ensures forall k :: 0 <= k < |pages| ==> us[k] == pages[k].url
  {
    if |pages| == 0 then [] else [pages[0].url] + PageUrls(pages[1..])
  }

  /** The fetch loop over a list of URLs: each URL is fetched in turn, a
      non-empty body is recorded under its URL, and an escaping exception
      ends the loop. */
  function FetchAll(oracle: Oracle, urls: seq<string>): (f: SiteFetch)
    ensures f.pages.Some? ==> Primary(f.sent) == urls
    ensures f.pages.None? ==> 0 < |Primary(f.sent)| && Primary(f.sent) <= urls
    decreases |urls|
  {
    if |urls| == 0 then SiteFetch([], Some([]))
    else
      var a := Fetch(oracle, urls[0]);
      PrimaryOfFetch(oracle, urls[0]);
      match a.outcome
      case Raised =>
        SiteFetch(a.sent, None)
      case Returned(body) =>
        var rest := FetchAll(oracle, urls[1..]);
        PrimaryAppend(a.sent, rest.sent);
        assert urls == [urls[0]] + urls[1..];
        if rest.pages.None? then
          SiteFetch(a.sent + rest.sent, None)
        else
          var here := if body.Some? && |body.value| > 0 then [Page(urls[0], body.value)] else [];
          SiteFetch(a.sent + rest.sent, Some(here + rest.pages.value))
  }

  /** The loop is abandoned exactly when some fetch lets an exception escape. */
  lemma {:induction false} FetchAllRaises(oracle: Oracle, urls: seq<string>)
    ensures FetchAll(oracle, urls).pages.None? <==>
              exists k :: 0 <= k < |urls| && Fetch(oracle, urls[k]).outcome.Raised?
    decreases |urls|
  {
    if |urls| > 0 {
      FetchAllRaises(oracle, urls[1..]);
      assert forall k :: 1 <= k < |urls| ==> urls[k] == urls[1..][k - 1];
    }
  }

  /** Every recorded page is a probed URL with the non-empty body `_fetch` returned. */
  lemma {:induction false} FetchAllPagesSound(oracle: Oracle, urls: seq<string>)
    ensures var f := FetchAll(oracle, urls);
            f.pages.Some? ==> forall k :: 0 <= k < |f.pages.value| ==>
              var p := f.pages.value[k];
              p.url in urls && |p.html| > 0 && Fetch(oracle, p.url).outcome == Returned(Some(p.html))
    decreases |urls|
  {
    if |urls| > 0 {
      FetchAllPagesSound(oracle, urls[1..]);
    }
  }

  /** Every probed URL whose fetch returned a non-empty body is recorded. */
  lemma {:induction false} FetchAllPagesComplete(oracle: Oracle, urls: seq<string>)
    ensures var f := FetchAll(oracle, urls);
            f.pages.Some? ==> forall k :: 0 <= k < |urls| ==>
              var o := Fetch(oracle, urls[k]).outcome;
              (o.Returned? && o.body.Some? && |o.body.value| > 0) ==> urls[k] in PageUrls(f.pages.value)
    decreases |urls|
  {
    if |urls| > 0 {
      FetchAllPagesComplete(oracle, urls[1..]);
      var f := FetchAll(oracle, urls);
      if f.pages.Some? {
        var rest := FetchAll(oracle, urls[1..]);
        var here := f.pages.value[..|f.pages.value| - |rest.pages.value|];
        assert f.pages.value == here + rest.pages.value;
        PageUrlsAppend(here, rest.pages.value);
        assert forall k :: 1 <= k < |urls| ==> urls[k] == urls[1..][k - 1];
      }
    }
  }

  lemma {:induction false} PageUrlsAppend(a: seq<Page>, b: seq<Page>)
    ensures PageUrls(a + b) == PageUrls(a) + PageUrls(b)
  {
  }

  /** One step of the loop: the pages are those of the remaining URLs,
      with the first URL's page in front when it returned a body. */
  lemma FetchAllHead(oracle: Oracle, urls: seq<string>)
    requires |urls| > 0 && FetchAll(oracle, urls).pages.Some?
    ensures FetchAll(oracle, urls[1..]).pages.Some?
    ensures var ps := FetchAll(oracle, urls).pages.value;
            var rest := FetchAll(oracle, urls[1..]).pages.value;
            ps == rest || (|ps| > 0 && ps[0].url == urls[0] && ps[1..] == rest)
  {
  }

  /** Pages are recorded in probing order, so over distinct URLs no key repeats. */
  lemma FetchAllPagesOrdered(oracle: Oracle, urls: seq<string>)
    ensures var f := FetchAll(oracle, urls);
            f.pages.Some? ==> IsSubsequence(PageUrls(f.pages.value), urls)
    ensures var f := FetchAll(oracle, urls);
            f.pages.Some? && Distinct(urls) ==> Distinct(PageUrls(f.pages.value))
  {
    FetchAllPagesInOrder(oracle, urls);
    if Distinct(urls) {
      FetchAllPagesDistinct(oracle, urls);
    }
  }

  lemma {:induction false} FetchAllPagesInOrder(oracle: Oracle, urls: seq<string>)
    ensures var f := FetchAll(oracle, urls);
            f.pages.Some? ==> IsSubsequence(PageUrls(f.pages.value), urls)
    decreases |urls|
  {
    if |urls| > 0 && FetchAll(oracle, urls).pages.Some? {
      FetchAllHead(oracle, urls);
      FetchAllPagesInOrder(oracle, urls[1..]);
      var ps := FetchAll(oracle, urls).pages.value;
      var rest := FetchAll(oracle, urls[1..]).pages.value;
      var us := PageUrls(ps);
      if ps == rest {
        SubsequenceOfTail(us, urls);
      } else {
        assert us[0] == urls[0];
        assert us[1..] == PageUrls(rest);
      }
    }
  }

  lemma {:induction false} FetchAllPagesDistinct(oracle: Oracle, urls: seq<string>)
    requires Distinct(urls)
    ensures var f := FetchAll(oracle, urls);
            f.pages.Some? ==> Distinct(PageUrls(f.pages.value))
    decreases |urls|
  {
    if |urls| > 0 && FetchAll(oracle, urls).pages.Some? {
      FetchAllHead(oracle, urls);
      assert Distinct(urls[1..]);
      FetchAllPagesDistinct(oracle, urls[1..]);
      var ps := FetchAll(oracle, urls).pages.value;
      var rest := FetchAll(oracle, urls[1..]).pages.value;
      if ps != rest {
        FetchAllPagesSound(oracle, urls[1..]);
        var us := PageUrls(ps);
        assert us[1..] == PageUrls(rest);
        assert urls[0] !in urls[1..];
        forall k | 0 <= k < |rest|
          ensures us[1..][k] != us[0]
        {
          assert rest[k].url in urls[1..];
        }
        DistinctCons(us);
      }
    }
  }

  /** `fetch_site(base_url, max_pages)`. */
  function FetchSite(oracle: Oracle, baseUrl: string, maxPages: int): (f: SiteFetch)
    ensures f.pages.Some? ==> Primary(f.sent) == ProbedUrls(baseUrl, maxPages)
    ensures f.pages.Some? ==> Distinct(PageUrls(f.pages.value))
    ensures f.pages.Some? ==> IsSubsequence(PageUrls(f.pages.value), ProbedUrls(baseUrl, maxPages))
    ensures f.pages.Some? ==> forall k :: 0 <= k < |f.pages.value| ==>
              var p := f.pages.value[k];
              p.url in ProbedUrls(baseUrl, maxPages) && |p.html| > 0 &&
              Fetch(oracle, p.url).outcome == Returned(Some(p.html))
  {
    var urls := ProbedUrls(baseUrl, maxPages);
    assert Distinct(urls) by {
      assert urls <= CandidateUrls(baseUrl);
    }
    FetchAllPagesSound(oracle, urls);
    FetchAllPagesOrdered(oracle, urls);
    FetchAll(oracle, urls)
  }

  /** With the default bound `run_audit` uses, /pricing, /compare and /contact
      are never requested. */
  lemma DefaultProbeSkipsLastThree(baseUrl: string)
    ensures ProbedUrls(baseUrl, DefaultMaxPages) == CandidateUrls(baseUrl)[..8]
    ensures forall k :: 8 <= k < 11 ==> CandidateUrls(baseUrl)[k] !in ProbedUrls(baseUrl, DefaultMaxPages)
  {
    var c := CandidateUrls(baseUrl);
    assert Distinct(c);
  }
}

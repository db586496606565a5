# aeo-audit-tool in Dafny

A Dafny model of the audit core of aeo-audit-tool. The tool is a small
Python application that rates how well a business website is set up for
answer engines ("AEO": AI search assistants). It covers:

- **Site fetch.** `aeo_logic1.py` builds eleven candidate URLs from the
  site's base URL and probes the first eight. Each probe is one request;
  after a 403 it is retried once with a fallback User-Agent. The pages that
  answer are kept, in probing order. HTTP is a parameter, `Fetcher.Oracle`:
  a total function from a request (URL and agent) to a reply.
- **Detectors.** Five content checks run over the fetched pages: the reading
  grade of the longest page, first- versus third-person tone, FAQ signals,
  testimonial signals, and comparison tables. HTML parsing is a parameter
  too. `Audit.Parser` turns a body into a `Detectors.PageView`: the page
  text plus the counts the regular expressions and tree queries produce.
  A tree query that raises is `None`.
- **Audit.** `run_audit` starts from a fixed 12-category catalogue. Each
  entry is an icon, a result, a recommendation, a reason, a how-to and a
  quick win. The live verdicts then overwrite five of the categories, in
  source order. An exception partway keeps the overrides already written.
- **Report figures.** From `generate_pdf_report`:
  - the overall readiness score, a rounded share of points;
  - the executive-summary partition into strengths, weaknesses and
    de-duplicated quick wins;
  - the ROI table;
  - the "lost opportunity" figures.
- **Streamlit front end** (`aeoaudit_app1.py`). The dashboard counts, the
  CSV rows of the export, and the PDF file name derived from the URL.
- **ReviewMate front ends.** `calculate_score` and `generate_recommendations`
  of both `aeoaudit_reviewmate_*` files.
- **Earlier logic** (`aeo_logic.py`). Its canned `run_audit` and the
  expression that reads the advice out of a finding for its PDF table.

Modules follow the source:

| module | file | models |
|---|---|---|
| `Seqs`, `Numeric`, `Text` | all | Python list, number and string operations |
| `Fetcher` | fetch.dfy | fetching, from `aeo_logic1.py` |
| `Readability`, `Detectors` | readability.dfy, detectors.dfy | the detectors, from `aeo_logic1.py` |
| `Catalogue`, `Wording`, `Audit` | catalogue.dfy, wording.dfy, audit.dfy | the catalogue and `run_audit`, from `aeo_logic1.py` |
| `Report` | report.dfy | the figures of `generate_pdf_report`, from `aeo_logic1.py` |
| `App` | app.dfy | `aeoaudit_app1.py` |
| `ReviewMate` | reviewmate.dfy | both ReviewMate files |
| `LegacyLogic` | legacy.dfy | `aeo_logic.py` |

Modelling choices:

- Python's ordered dicts are sequences of distinct-keyed entries.
  `Catalogue.Assign` is `d[k] = v`: it overwrites in place, or appends when
  the key is new.
- The three emoji icons are `Green`, `Amber` and `Red`. Any other glyph is
  `Other(g)`, where g is never one of those three, so an icon has exactly
  one representation. It is worth 0 points, as `SCORE_MAP.get(t[0], 0)`
  gives it.
- The reading grade is kept exactly, as an integer number of tenths
  (round-half-even of ten times the formula). A binary float is not
  modelled.
- The readiness score is `int(round(total / max_total * 100))`. It is
  computed exactly with integer division plus half-to-even rounding, and is
  proved equal to rounding the exact real share.
- The catalogue's prose is a parameter (`Catalogue.BaselineText`,
  `Catalogue.LiveText`, `Catalogue.Locale`). So every structural property is
  proved for any wording. `Wording` holds the tool's own sentences, and
  `Audit.RunAudit` plugs them in.

## Model

| member | source | states |
|---|---|---|
| Fetcher.Fetch | aeo_logic1.py:18-29 | one request with the default agent; a second, with the fallback agent, exactly when the first got status 403 and raised nothing; an escaping exception exactly when the last reply was a non-request error |
| Fetcher.PrimaryOfFetch | aeo_logic1.py:18-29 | each `_fetch` sends exactly one default-agent request, for its own URL |
| Fetcher.RawCandidatesDistinct | aeo_logic1.py:31-45 | the eleven suffixed URLs are pairwise different for every base URL |
| Fetcher.CandidateUrls | aeo_logic1.py:31-50 | eleven distinct URLs: the base with trailing slashes removed, followed by each path suffix in order, the home page first |
| Fetcher.ProbedUrlsShape | aeo_logic1.py:52-54 | `[:max_pages]` probes the first min(11, max_pages) candidates, a distinct prefix of them |
| Fetcher.FetchAll | aeo_logic1.py:52-59 | a finished loop has probed every URL once, in order; an abandoned one probed a non-empty prefix |
| Fetcher.FetchAllRaises | aeo_logic1.py:52-59 | the loop is abandoned exactly when some fetch raised |
| Fetcher.FetchAllPagesSound | aeo_logic1.py:54-57 | every stored page is a probed URL with the non-empty body its fetch returned |
| Fetcher.FetchAllPagesComplete | aeo_logic1.py:54-57 | every probed URL whose fetch returned a non-empty body is stored |
| Fetcher.FetchAllPagesOrdered | aeo_logic1.py:53-57 | pages are stored in probing order, so no key repeats |
| Fetcher.FetchSite | aeo_logic1.py:52-59 | on success the probes are exactly the bounded candidates, and the pages are a duplicate-free subsequence of them with their bodies |
| Fetcher.DefaultProbeSkipsLastThree | aeo_logic1.py:52-54 | with the default bound of 8, /pricing, /compare and /contact are never probed |
| Readability.Clean | aeo_logic1.py:65 | the substitution leaves only letters, digits, `.?!` and spaces, and never lengthens the text |
| Readability.RunsShape | aeo_logic1.py:67 | `findall` of a character class yields non-empty runs made only of that class |
| Readability.SplitOn | aeo_logic1.py:66 | `re.split` always yields at least one piece, and no piece holds a delimiter |
| Readability.SpanAll | aeo_logic1.py:65-66 | a maximal match of a character class ends exactly where the class stops |
| Readability.CleanKeptPrefix | aeo_logic1.py:65 | the substitution leaves a prefix of allowed characters as it is |
| Readability.CleanKept | aeo_logic1.py:65 | a text of allowed characters only is unchanged by the substitution |
| Readability.CleanJunkRun | aeo_logic1.py:65 | a maximal run of other characters is replaced by one space |
| Readability.SplitNoDelim | aeo_logic1.py:66 | a text without `.`, `?` or `!` is one piece |
| Readability.SplitOnPiece | aeo_logic1.py:66 | the first piece is the text before the first delimiter run, and splitting resumes after the whole run |
| Readability.RunsWhole | aeo_logic1.py:67 | a non-empty string of class characters is one `findall` match |
| Readability.RunsSkip | aeo_logic1.py:67 | a leading character outside the class starts no match |
| Readability.WordThenDotRuns | aeo_logic1.py:67 | a word followed by "." is one word token, and tokenising resumes after the dot |
| Readability.SentencesWords | aeo_logic1.py:67 | the words of the text "w1.w2.…wn." are exactly w1 … wn |
| Readability.SentencesCount | aeo_logic1.py:66-68 | "w1.w2.…wn." has exactly n non-blank sentences |
| Readability.SentencesStats | aeo_logic1.py:65-74 | n one-word sentences give n words, n sentences (at least one) and the syllables of the words |
| Readability.TextStats | aeo_logic1.py:65-74 | the sentence count is at least one (`max(1, ...)`) |
| Readability.GradeTenths | aeo_logic1.py:64-76 | 0 when the text has no word; otherwise the Flesch-Kincaid formula rounded to tenths, ties to even |
| Readability.ZeroGradeWithWords | aeo_logic1.py:68-76 | a text with words can still grade exactly 0.0 (7 words, 7 sentences, 9 syllables) |
| Readability.ZeroGradeSentences | aeo_logic1.py:64-76 | any seven one-word sentences with nine syllables have seven words and still grade exactly 0.0 |
| Readability.ZeroGradeSample | aeo_logic1.py:67-73 | the words a, a, a, a, a, aba, aba carry nine syllables, so "a.a.a.a.a.aba.aba." grades 0.0 |
| Readability.VowelRunsOfAba | aeo_logic1.py:73 | "aba" has two syllables |
| Readability.PlainTextIsEasy | aeo_logic1.py:75-76 | at most 25 words per sentence and one syllable per word give a grade of at most 6.0 |
| Readability.SyllablesAreVowelRuns | aeo_logic1.py:67-73 | counting vowel runs word by word equals counting them over the whole cleaned text |
| Readability.LongestIndex | aeo_logic1.py:174 | `max(range(n), key=len)` picks a longest text, the first of them on ties |
| Detectors.ToneOf | aeo_logic1.py:78-84 | third when third-person matches outnumber first-person ones, first in the opposite case, mixed on a tie |
| Detectors.MajorityTone | aeo_logic1.py:193-206 | a tone wins exactly when it holds a strict majority of pages; otherwise mixed |
| Detectors.NoTableNoComparison | aeo_logic1.py:103-107 | without a table the answer is false whatever the text |
| Detectors.CompareAnywhere | aeo_logic1.py:103-106 | a page with a table whose text contains "compare" anywhere counts as a comparison |
| Detectors.AnyLazy | aeo_logic1.py:209 | `any` stops at the first true value or the first raise; it is false exactly when every value is a plain false |
| Detectors.SumLazy | aeo_logic1.py:220 | the `sum` raises exactly when some page's score raises |
| Detectors.SumLazyAppend | aeo_logic1.py:220 | the sum over two runs of pages is the sum of the two sums, and raises when either part raises |
| Detectors.SumLazyTotal | aeo_logic1.py:220 | when no score raises, `sum` returns the total of the scores, added independently from the left |
| Detectors.PageScoresSum | aeo_logic1.py:220 | the per-page scores add up to the pages' testimonial signals |
| Detectors.TestimonialTotalWhenAllAnswer | aeo_logic1.py:220 | when every page answers, the testimonial verdict is the sum of every page's review words, star phrases and long quotes |
| Detectors.Tones | aeo_logic1.py:194 | one tone per page text, in page order |
| Detectors.AnyFaqWhenAllAnswer | aeo_logic1.py:209 | when every page answers, the FAQ verdict is whether some page has two or more FAQ signals |
| Catalogue.Points | aeo_logic1.py:362-363 | green 2, amber 1, anything else 0 |
| Catalogue.AssignShape | aeo_logic1.py:180-190 | dict assignment overwrites a present key in place, appends a new one, and leaves other keys alone |
| Catalogue.AssignWellFormed | aeo_logic1.py:180-190 | assignment keeps keys distinct, and the assigned key then holds the new entry |
| Catalogue.GetAssign | aeo_logic1.py:180-190 | reading a key after an assignment gives the new entry for that key and the old value for any other |
| Catalogue.CategoryNamesDistinct | aeo_logic1.py:124-164 | the twelve category names are distinct |
| Catalogue.Baseline | aeo_logic1.py:124-164 | the baseline has the twelve categories in order, with distinct keys and the fixed icons (1 green, 7 amber, 4 red) |
| Catalogue.LocaleChangesRecommendationsOnly | aeo_logic1.py:113-164 | local and non-local mode differ only in the recommendations of the four templated categories |
| Catalogue.ReadabilityEntry | aeo_logic1.py:179-190 | green up to grade 8.0, amber above 8.0 up to 10.0, red above 10.0 |
| Catalogue.ReadabilityMonotone | aeo_logic1.py:179-190 | a higher grade never earns more points |
| Catalogue.ToneEntry | aeo_logic1.py:195-206 | green for third-person, red for first-person, amber for mixed |
| Catalogue.FaqEntry | aeo_logic1.py:209-217 | green exactly when some page has an FAQ, red otherwise |
| Catalogue.TestimonialEntry | aeo_logic1.py:220-232 | green from 8 signals up, amber from 3 to 7, red below 3 |
| Catalogue.TestimonialMonotone | aeo_logic1.py:220-232 | more testimonial signals never earn fewer points |
| Catalogue.ComparisonEntry | aeo_logic1.py:235-243 | green exactly when some page has a comparison table, red otherwise |
| Audit.ParseAll | aeo_logic1.py:169 | parsing fails exactly when some body fails to parse; otherwise there is one view per page, in order |
| Audit.Texts | aeo_logic1.py:170 | one text per parsed page, in order |
| Audit.SiteGrade | aeo_logic1.py:173-177 | grade 10.0 without pages; otherwise the grade of the first longest page text |
| Audit.Detect | aeo_logic1.py:169-235 | without pages: grade 10.0, no FAQ, zero testimonials, no table; a tone verdict exists exactly when some page was parsed; otherwise each verdict is its detector's result across the pages |
| Audit.ApplyKeepsOthers | aeo_logic1.py:172-247 | categories the overrides never write keep their entries and positions |
| Audit.ApplyShape | aeo_logic1.py:172-247 | overriding keeps keys distinct, and keeps the key list when every written key is present |
| Audit.ApplyGet | aeo_logic1.py:172-247 | after the overrides a key holds its last write before the first raise, or its old entry |
| Audit.MergeLive | aeo_logic1.py:172-243 | the live overrides keep the key list and the key distinctness, and leave the seven categories that are not live untouched |
| Audit.MergeGet | aeo_logic1.py:172-247 | a key after merging is its last live write before any raise |
| Audit.MergeReadability | aeo_logic1.py:179-190 | the readability category always takes the live grade |
| Audit.MergeTone | aeo_logic1.py:193-206 | the tone category takes the majority tone when there are pages, and is untouched otherwise |
| Audit.MergeFaq | aeo_logic1.py:209-217 | the FAQ category is overwritten exactly when the FAQ scan did not raise |
| Audit.MergeTestimonials | aeo_logic1.py:220-232 | the testimonials category is overwritten exactly when neither the FAQ scan nor the testimonial sum raised |
| Audit.MergeComparison | aeo_logic1.py:235-243 | the comparison category is overwritten exactly when none of the three scans raised |
| Audit.AuditShape | aeo_logic1.py:112-249 | every audit has the twelve catalogue keys in order, distinct |
| Audit.AuditKeepsBaselineOnFailure | aeo_logic1.py:245-249 | an exception escaping the fetch or the parse leaves the baseline as it was |
| Audit.NoPageIconAt | aeo_logic1.py:173-243 | without pages each category gets its fixed icon |
| Audit.NoPageMerge | aeo_logic1.py:173-243 | without pages the icons are the fixed no-page icons: FAQ turns red, the rest as in the baseline |
| Audit.AuditWithoutPages | aeo_logic1.py:166-249 | a site where no probe returns a page is not scored as the baseline: readability stays amber, tone stays as it was, FAQ becomes red |
| Audit.AuditLive | aeo_logic1.py:166-217 | with at least one parsed page, readability, tone and FAQ carry the live verdicts |
| Report.TotalBounds | aeo_logic1.py:362-364 | the points total is at most twice the count; it reaches that exactly when all icons are green, and is 0 exactly when none scores |
| Report.TotalByCounts | aeo_logic1.py:362-363 | total = 2 x greens + ambers |
| Report.MaxTotal | aeo_logic1.py:364 | the denominator is never zero |
| Report.ReadinessScore | aeo_logic1.py:362-365 | the score is a percentage between 0 and 100, and 0 for an empty audit |
| Report.ScoreIsRoundedShare | aeo_logic1.py:365 | the score equals the exact share total/max_total times 100, rounded half to even |
| Report.AllGreenScoresFull | aeo_logic1.py:362-365 | all green gives 100 |
| Report.NothingScoresZero | aeo_logic1.py:362-365 | no points gives 0 |
| Report.ScoreMonotone | aeo_logic1.py:362-365 | over the same number of categories, more points never lower the score |
| Report.BaselineScore | aeo_logic1.py:362-365 | the untouched baseline scores 38 (37.5 rounds up to even) |
| Report.NoPageScore | aeo_logic1.py:362-365 | the no-page audit scores 33 |
| Report.LinesMembers | aeo_logic1.py:370-376 | the kept lines are exactly the lines of the kept categories, at most one per category |
| Report.StrengthsCount | aeo_logic1.py:371-373 | one strength per green category |
| Report.SummarySizes | aeo_logic1.py:371-375 | strengths and weaknesses partition the categories |
| Report.ExecutiveSummary | aeo_logic1.py:370-381 | the loop yields the strength lines, the weakness lines and the quick wins of non-green categories, de-duplicated in first-seen order |
| Report.QuickWinsOfWeaknesses | aeo_logic1.py:374-381 | quick wins are distinct, and a text is one exactly when some non-green category offers it as a non-empty quick win |
| Report.Shown | aeo_logic1.py:383-394 | each list shows its first min(6, n) items |
| Report.ImpactOf | aeo_logic1.py:397-427 | only the city-pages fix is high priority; medium exactly for the five live categories; the impact is 5% exactly for an unknown area, and never above 40% |
| Report.ConversionRate | aeo_logic1.py:413 | never negative; a non-negative percentage is the rate times 100, and a negative one gives 0 |
| Report.SaleValue | aeo_logic1.py:430 | a non-negative average sale is kept as it is; a negative one gives 0 |
| Report.FixFor | aeo_logic1.py:426-431 | added conversions = visitors x rate x impact; dollars = added x sale value; both 0 without visitors and never negative with visitors |
| Report.FixRows | aeo_logic1.py:425-432 | one fix row per non-green category, in order |
| Report.RoiTable | aeo_logic1.py:425-434 | never empty; it is the single "All Good" row exactly when every category is green |
| Report.RoiAreas | aeo_logic1.py:426-432 | the fix rows name exactly the non-green categories, in order |
| Report.RoiSigns | aeo_logic1.py:429-430 | fix rows are zero without visitors and never negative with visitors |
| Report.LostOpportunityOf | aeo_logic1.py:306-314 | potential = 4.4 x current; monthly loss = 3.4 x current, floored at 0; weekly = monthly / 4.345; yearly = 12 x monthly |
| Report.NoVisitorsNoLoss | aeo_logic1.py:308-314 | no visitors means no monthly or yearly loss |
| Report.DefaultLoss | aeo_logic1.py:306-314 | with the defaults ($500, 3%, 300 visitors) the current revenue is $4,500 and the monthly loss $15,300 |
| Report.ImpactTable | aeo_logic1.py:398-404 | the impact weights: city pages 40% and high priority, testimonials 25%, FAQ and comparison 20%, tone and readability 15%, all medium |
| Report.ImpactOfOthers | aeo_logic1.py:405-410 | each of the other six catalogued categories weighs 10% and is low priority |
| Report.DefaultFixes | aeo_logic1.py:412-430 | with the defaults, the city-pages fix adds 3.6 conversions worth $1,800 a month, the testimonials fix 2.25 worth $1,125 |
| App.ThreeCounts | aeoaudit_app1.py:7-9 | greens + ambers + reds never exceed the number of categories, and equal it when no icon is foreign |
| App.ScoreCounts | aeoaudit_app1.py:6-14 | the three counts together never exceed the number of categories and pct is at most 100 |
| App.EmptyScoreCounts | aeoaudit_app1.py:10-13 | an empty audit gives (0, 0, 0, 0): the divisor is 2, not 0 |
| App.CountsCoverKnownIcons | aeoaudit_app1.py:7-10 | with only the three known icons the three counts add up to the number of categories |
| App.PointsFromCounts | aeoaudit_app1.py:11-12 | the points total is 2 x greens + ambers |
| App.DashboardMatchesReport | aeoaudit_app1.py:10-13 | the dashboard percentage equals the PDF report's readiness score |
| App.IconOfGlyph | aeoaudit_app1.py:21-22 | reading a glyph back as an icon and writing it again gives the same glyph |
| App.CsvRow | aeoaudit_app1.py:21-22 | each data row has as many fields as the header |
| App.CsvRows | aeoaudit_app1.py:16-23 | the header, then one row per category, all seven fields wide |
| App.ReadRows | aeoaudit_app1.py:21-22 | one category per data row |
| App.CsvRoundTrip | aeoaudit_app1.py:16-23 | for every audit, reading its CSV data rows back gives the same audit |
| App.FilenameSafe | aeoaudit_app1.py:87 | the file name never contains '/' |
| App.FilenameOfPlainName | aeoaudit_app1.py:87 | a URL with no scheme and no '/' is used as it is |
| App.FilenameOfSecureHost | aeoaudit_app1.py:87 | "https://" followed by a host without '/' gives the bare host |
| ReviewMate.Passed | aeoaudit_reviewmate_sales_FIXED.py:42 | the passed count is at most the total; it equals the total exactly when all pass, and is 0 exactly when none do |
| ReviewMate.CalculateScore | aeoaudit_reviewmate_sales_FIXED.py:40-43 | an empty dict divides by zero; otherwise the score is the percentage of passed checks rounded down, at most 100 |
| ReviewMate.FiveChecksScore | aeoaudit_reviewmate_with_pdf.py:43-47 | with the five page checks each passed check is worth exactly 20 points |
| ReviewMate.ScoreMonotone | aeoaudit_reviewmate_sales_FIXED.py:40-43 | passing one more check adds one to the count and never lowers the score |
| ReviewMate.AdviceCount | aeoaudit_reviewmate_sales_FIXED.py:45-57 | one message per failed check |
| ReviewMate.AdviceContents | aeoaudit_reviewmate_sales_FIXED.py:45-57 | a line is advice exactly when it is the message of a failed check |
| ReviewMate.AdviceBulleted | aeoaudit_reviewmate_with_pdf.py:49-61 | every line starts with the front end's bullet |
| ReviewMate.GenerateRecommendations | aeoaudit_reviewmate_with_pdf.py:49-61 | 5 - passed lines, and none exactly when all five checks pass |
| ReviewMate.AdviceFlip | aeoaudit_reviewmate_sales_FIXED.py:45-57 | fixing one failed check removes exactly its message and keeps the rest in order |
| ReviewMate.RecommendationFlip | aeoaudit_reviewmate_with_pdf.py:49-61 | for either front end, fixing check j drops just its line |
| ReviewMate.BulletOnlyPrefixes | aeoaudit_reviewmate_with_pdf.py:49-61 | the bulleted front end gives the plain lines, each with "• " in front |
| LegacyLogic.StubAudit | aeo_logic.py:2-10 | six findings |
| LegacyLogic.StubIgnoresUrl | aeo_logic.py:1-10 | any two URLs get identical findings |
| LegacyLogic.StubAreasDistinct | aeo_logic.py:2-10 | the six area names are distinct |
| LegacyLogic.ExtractRecommendation | aeo_logic.py:26 | "Check content" when the finding has no "("; otherwise the text after the first " (" (the whole finding when there is none) with every trailing ")" stripped: a prefix of it, followed only by ")" and not itself ending in ")" |
| LegacyLogic.AnnotatedRoundTrip | aeo_logic.py:26 | a finding written "result (advice)" gives its advice back when the result has no " (" and the advice does not end in ")" |
| LegacyLogic.AnnotatedAdvice | aeo_logic.py:26 | the same whenever the result part holds no "(" at all, as in the three annotated canned findings |
| LegacyLogic.ReportTable | aeo_logic.py:23-26 | a header row, then one three-column row per finding with its area, its finding and the recommendation read out of it |
| Text.RStrip | aeo_logic1.py:32 | `rstrip` returns a prefix that does not end in the character, having removed only that character |
| Text.ReplaceAll | aeoaudit_app1.py:87 | `replace` leaves a string without the pattern unchanged |
| Text.ReplaceCharPointwise | aeoaudit_app1.py:87 | replacing one character by another works position by position |
| Text.FindFirst | aeo_logic.py:26 | the first occurrence of the separator, or none exactly when it does not occur |
| Seqs.Dedup | aeo_logic1.py:378-381 | the seen-set loop keeps the first occurrence of each quick win, in order |
| Seqs.FirstOccurrences | aeo_logic1.py:378-381 | de-duplication yields distinct items covering the input, in first-seen order: a subsequence of the input |
| Seqs.SubsequenceExtend | aeo_logic1.py:378-381 | skipping a repeated item keeps the output a subsequence of the items seen |
| Seqs.SubsequenceSnoc | aeo_logic1.py:378-381 | appending a new item to the output keeps it a subsequence of the items seen |
| Numeric.RoundHalfEven | aeo_logic1.py:365 | Python's `round` gives the nearest integer, ties to even |
| Numeric.RoundDivIsRound | aeo_logic1.py:365 | the integer rounding of a quotient equals Python's `round` of the exact quotient |

## Left out

- HTTP, the 0.5-second sleep between probes, and the timeout are not modelled. The server is `Fetcher.Oracle`. A probe returns the text of any ok reply, the empty text included (`Fetcher.Fetch`); `fetch_site` then keeps only the non-empty bodies.
- HTML parsing and the regular expressions run over the parsed tree (`BeautifulSoup`, `soup.select`, `soup.find`, `get_text`) are not modelled. They are the `Audit.Parser` parameter, which yields the counts per page. The reading grade, which works on plain strings, is modelled in full.
- Readability.GradeTenths: the grade is exact tenths. Python's binary floating point, and the float formatting of "Grade ~%s" (`Catalogue.GradeLabel` renders the tenths, and a grade of -0.0 prints as "0.0"), are not modelled.
- ReviewMate.CalculateScore: `int((passed / total) * 100)` is modelled as the exact floor of 100 x passed / total. A float product that lands just below an integer is not modelled. For the five checks every value is exact.
- Report.FixFor: the ROI and lost-opportunity figures are exact reals. The `int(...)` and `"%.1f"` formatting of the table cells is not modelled.
- The PDF and Streamlit layout are not modelled: ReportLab styles, the logo, the explainer table, the date line, the download buttons, the temp-file path and `_brand_from_url`.
- `qwin or ""` in the CSV export is the quick win itself, because every catalogue entry carries a string quick win.
- `fetch_page_data` of the ReviewMate files (HTTP plus HTML) is not modelled. Its five-key result is `ReviewMate.Checks`. Its `{"error": ...}` dict is not modelled either: a missing key is a `KeyError`, and the with-PDF front end checks for "error" before scoring.
- Audit.RunAudit: carries no lemma of its own. It plugs the tool's wording into `Audit.AuditWith`, and every property is proved for `AuditWith` under any wording.
- Text.Lower: only ASCII A-Z are lower-cased, where `str.lower()` maps every cased letter. The comparison check is unaffected: the only non-ASCII characters that lower-case to ASCII are U+0130 (to "i" plus a combining dot) and U+212A (to "k"), and neither can complete " vs ", "compare" or "comparison".
- LegacyLogic.StubAudit: the recommendations its six canned findings yield are not stated one by one. `LegacyLogic.AnnotatedAdvice` covers the three findings written "result (advice)", and `LegacyLogic.ExtractRecommendation` covers the three without "(".

## Behaviour worth knowing

These are places where the code does something a reader might not expect. The model follows the code.

- A site where no page can be fetched is not left at the baseline. With no pages, `any_faq` is false, so the FAQ category becomes red, and the score falls from 38 to 33 (`Report.BaselineScore`, `Report.NoPageScore`, `Audit.AuditWithoutPages`). Only an exception keeps the whole baseline (`Audit.AuditKeepsBaselineOnFailure`).
- Only eight of the eleven candidate pages are probed, because `max_pages` defaults to 8 (`Fetcher.DefaultProbeSkipsLastThree`).
- A grade of 0.0 does not mean the text had no words (`Readability.ZeroGradeWithWords`).
- The baseline's 9 of 24 points give 37.5%, which `round` takes to 38 only because it rounds ties to even.

/** The helpers of the Streamlit front end aeoaudit_app1.py: the dashboard
    counts and score (`_score_counts`), the rows of the CSV export
    (`_to_csv_bytes`, before the CSV writer encodes them) and the sanitised
    URL used in the export file names. */
module App {
  import opened Seqs
  import opened Text
  import opened Numeric
  import opened Catalogue
  import Report

  // ---- dashboard counts ----

  /** Occurrences of the three known icons together never exceed the
      length, and make it up exactly when no other glyph occurs. */
  lemma {:induction false} ThreeCounts(icons: seq<Icon>)
    ensures Count(icons, Green) + Count(icons, Amber) + Count(icons, Red) <= |icons|
    ensures (forall i :: 0 <= i < |icons| ==> !icons[i].Other?) ==>
      Count(icons, Green) + Count(icons, Amber) + Count(icons, Red) == |icons|
  {
    if |icons| > 0 {
      ThreeCounts(icons[1..]);
      assert forall i :: 1 <= i < |icons| ==> icons[i] == icons[1..][i - 1];
    }
  }

  /** What `_score_counts` returns: the numbers of green, amber and red
      entries and the score in percent. */
  datatype Counts = Counts(greens: nat, ambers: nat, reds: nat, pct: nat)

  /** `_score_counts`: the icons are counted exactly, and the score divides
      the points by twice `max(1, len(results))`. */
  function ScoreCounts(m: AuditMap): (c: Counts)
    ensures c.greens + c.ambers + c.reds <= |m|
    ensures c.pct <= 100
  {
    var icons := Icons(m);
    var total := if |m| > 1 then |m| else 1;
    var got := Report.Total(icons);
    ThreeCounts(icons);
    Report.TotalBounds(icons);
    RoundDivAtMost(100 * got, 2 * total, 100);
    Counts(Count(icons, Green), Count(icons, Amber), Count(icons, Red), RoundDiv(100 * got, 2 * total))
  }

  /** An empty audit shows no icons and a score of 0 (the divisor is kept
      at 2 by `max(1, len(audit_results))`). */
  lemma EmptyScoreCounts()
    ensures ScoreCounts([]) == Counts(0, 0, 0, 0)
  {
    assert Icons([]) == [];
  }

  /** The dashboard counts every entry when each icon is one of the three
      known glyphs. */
  lemma CountsCoverKnownIcons(m: AuditMap)
    requires forall i :: 0 <= i < |m| ==> !m[i].entry.icon.Other?
    ensures var c := ScoreCounts(m); c.greens + c.ambers + c.reds == |m|
  {
    ThreeCounts(Icons(m));
  }

  /** The dashboard score is two points per green and one per amber, out of
      two per category. */
  lemma PointsFromCounts(m: AuditMap)
    ensures Report.Total(Icons(m)) == 2 * ScoreCounts(m).greens + ScoreCounts(m).ambers
  {
    Report.TotalByCounts(Icons(m));
  }

  /** The dashboard and the PDF report show the same score for every map;
      for the empty map both divide 0 and show 0, by different guards. */
  lemma DashboardMatchesReport(m: AuditMap)
    ensures ScoreCounts(m).pct == Report.ReadinessScore(Icons(m))
  {
    if |m| == 0 {
      assert Report.Total(Icons(m)) == 0;
    }
  }

  // ---- CSV export ----

  /** The glyph written in the Score column. */
  function Glyph(i: Icon): string {
    match i
    case Green => "\U{1F7E2}"
    case Amber => "\U{1F7E1}"
    case Red => "\U{1F534}"
    case Other(g) => g
  }

  /** Reading a Score cell back. */
  function IconOfGlyph(g: string): (i: Icon)
    ensures Glyph(i) == g
  {
    if g == "\U{1F7E2}" then Green
    else if g == "\U{1F7E1}" then Amber
    else if g == "\U{1F534}" then Red
    else Other(g)
  }

  const CsvHeader: seq<string> :=
    ["Audit Area", "Score", "Result", "Recommendation", "Why it matters", "What to do", "Quick win"]

  /** `[area, icon, result, rec, why, how, qwin or ""]`; the quick win is
      always a string here, so `or ""` leaves it as it is. */
  function CsvRow(c: Category): (row: seq<string>)
    ensures |row| == |CsvHeader|
  {
    [c.name, Glyph(c.entry.icon), c.entry.result, c.entry.recommendation, c.entry.why, c.entry.how, c.entry.quickWin]
  }

  /** The rows handed to the CSV writer: the header, then one row per
      category in map order. */
  function CsvRows(m: AuditMap): (rows: seq<seq<string>>)
    ensures |rows| == |m| + 1 && rows[0] == CsvHeader
    ensures forall i :: 0 <= i < |rows| ==> |rows[i]| == |CsvHeader|
  {
    [CsvHeader] + seq(|m|, i requires 0 <= i < |m| => CsvRow(m[i]))
  }

  /** Reading a seven-field row back as a category. */
  function CategoryOfRow(row: seq<string>): Category
    requires |row| == 7
  {
    Category(row[0], Entry(IconOfGlyph(row[1]), row[2], row[3], row[4], row[5], row[6]))
  }

  /** Reading the export back, header skipped. */
  function ReadRows(rows: seq<seq<string>>): (m: AuditMap)
    requires forall i :: 0 <= i < |rows| ==> |rows[i]| == 7
    ensures |m| == |rows|
  {
    seq(|rows|, i requires 0 <= i < |rows| => CategoryOfRow(rows[i]))
  }

  /** The export loses nothing: reading the rows below the header gives the
      map back, in its order. */
  lemma CsvRoundTrip(m: AuditMap)
    ensures ReadRows(CsvRows(m)[1..]) == m
  {
    var back := ReadRows(CsvRows(m)[1..]);
    forall i | 0 <= i < |m|
      ensures back[i] == m[i]
    {
      assert CsvRows(m)[1..][i] == CsvRow(m[i]);
      var icon := m[i].entry.icon;
      assert IconOfGlyph(Glyph(icon)) == icon;
    }
  }

  // ---- export file name ----

  /** `url.replace("https://", "").replace("http://", "").replace("/", "_")`. */
  function FilenameSafe(url: string): (r: string)
    ensures '/' !in r
  {
    var noScheme := ReplaceAll(ReplaceAll(url, "https://", ""), "http://", "");
    ReplaceCharPointwise(noScheme, '/', '_');
    ReplaceAll(noScheme, "/", "_")
  }

  /** A substring's characters occur in the string. */
  lemma {:induction false} ContainedChars(s: string, sub: string, c: char)
    requires Contains(s, sub) && c in sub
    ensures c in s
    decreases |s|
  {
    if StartsWith(s, sub) {
      var k :| 0 <= k < |sub| && sub[k] == c;
      assert s[k] == c;
    } else {
      ContainedChars(s[1..], sub, c);
    }
  }

  /** A URL without a slash (and so without either scheme) is used as it is. */
  lemma FilenameOfPlainName(url: string)
    requires !Contains(url, "https://") && !Contains(url, "http://") && '/' !in url
    ensures FilenameSafe(url) == url
  {
    ContainsChar(url, '/');
  }

  /** "https://" followed by a host name without slashes becomes the host
      name. */
  lemma FilenameOfSecureHost(host: string)
    requires '/' !in host
    ensures FilenameSafe("https://" + host) == host
  {
    var url := "https://" + host;
    assert url[..8] == "https://" && url[8..] == host;
    if Contains(host, "https://") {
      ContainedChars(host, "https://", '/');
    }
    if Contains(host, "http://") {
      ContainedChars(host, "http://", '/');
    }
    assert ReplaceAll(url, "https://", "") == host;
    ContainsChar(host, '/');
  }
}

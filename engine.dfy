/** The single-URL report pipeline of `engine.py`: slug and path naming, the
    five-bucket severity tally, flattening violations into CSV rows, the
    structure of the HTML report and the six-file dual write.

    The browser scan itself is an input: either the rule engine's result
    (its list of violations) or an exception. */
module Engine {
  import opened Wrappers
  import opened Text
  import opened SlugText
  import opened Escaping
  import opened Files

  /* ---------------------------------------------------------------- */
  /* Rule-engine results, as read through `dict.get`                   */
  /* ---------------------------------------------------------------- */

  /** One affected DOM node: its selector list and its markup. */
  datatype Node = Node(target: seq<string>, html: Field)

  /** One rule failure; `nodes` is `v.get("nodes", [])`. */
  datatype Violation = Violation(id: Field, impact: Field, description: Field, helpUrl: Field, nodes: seq<Node>)

  /* ---------------------------------------------------------------- */
  /* slugify and build_report_paths                                   */
  /* ---------------------------------------------------------------- */

  /** `slugify`: lower-case, runs of other characters become one hyphen, no
      hyphen at either end, and `"report"` when nothing is left. */
  function Slugify(text: string): (r: string)
    ensures r != [] && SlugShaped(r)
  {
    var t := StripHyphens(CollapseHyphens(ReplaceRuns(Lower(Trim(text)))));
    if t == "" then "report" else t
  }

  lemma LowerOfSlugShaped(s: string)
    requires InAlphabet(s)
    ensures Lower(s) == s
  {
  }

  /** A slug is its own slug, so `slugify` is idempotent. */
  lemma SlugifyIdempotent(text: string)
    ensures Slugify(Slugify(text)) == Slugify(text)
  {
    var r := Slugify(text);
    TrimOfTrimmed(r);
    LowerOfSlugShaped(r);
    ReplaceRunsFixed(r);
  }

  /** Text with no letter or digit at all falls back to `"report"`. */
  lemma SlugifyFallback(text: string)
    requires forall i :: 0 <= i < |text| ==> !IsSlugChar(LowerChar(text[i]))
    ensures Slugify(text) == "report"
  {
    var k := |text| - |TrimLeft(text)|;
    TrimIsInfix(text);
    var t := Lower(Trim(text));
    forall i | 0 <= i < |t|
      ensures !IsSlugChar(t[i])
    {
      assert Trim(text)[i] == text[k + i];
    }
    NoSlugCharRuns(t);
  }

  lemma TrimIsInfix(s: string)
    ensures var k := |s| - |TrimLeft(s)|;
      k + |Trim(s)| <= |s| && Trim(s) == s[k..k + |Trim(s)|]
  {
  }

  lemma NoSlugCharRuns(t: string)
    requires forall i :: 0 <= i < |t| ==> !IsSlugChar(t[i])
    ensures StripHyphens(CollapseHyphens(ReplaceRuns(t))) == ""
  {
    if t != [] {
      assert DropRun(t[1..]) == [];
      assert ReplaceRuns(t) == "-";
      assert CollapseHyphens("-") == "-";
    }
  }

  /** A wall-clock reading, as `datetime.now()` gives it. */
  datatype Clock = Clock(year: nat, month: nat, day: nat, hour: nat, minute: nat, second: nat)

  predicate ValidClock(c: Clock) {
    1000 <= c.year <= 9999 && 1 <= c.month <= 12 && 1 <= c.day <= 31 &&
    c.hour < 24 && c.minute < 60 && c.second < 60
  }

  /** `strftime("%Y-%m-%d_%H%M%S")`. */
  function Timestamp(c: Clock): (r: string)
    ensures |r| == 17
  {
    Padded(c.year, 4) + "-" + Padded(c.month, 2) + "-" + Padded(c.day, 2) + "_" +
    Padded(c.hour, 2) + Padded(c.minute, 2) + Padded(c.second, 2)
  }

  /** `strftime("%Y-%m-%d %H:%M:%S")`, the "Scanned" line of the HTML report. */
  function ScannedText(c: Clock): string {
    Padded(c.year, 4) + "-" + Padded(c.month, 2) + "-" + Padded(c.day, 2) + " " +
    Padded(c.hour, 2) + ":" + Padded(c.minute, 2) + ":" + Padded(c.second, 2)
  }

  /** The two parts of `urlparse(url)` that the naming uses. */
  datatype ParsedUrl = ParsedUrl(netloc: string, path: string)

  /** `parsed.netloc or parsed.path or "site"`. */
  function HostOf(p: ParsedUrl): string {
    if p.netloc != "" then p.netloc else if p.path != "" then p.path else "site"
  }

  /** `f"{ts}_{host_slug}_a11y"`. */
  function BaseName(now: Clock, p: ParsedUrl): string {
    Timestamp(now) + "_" + Slugify(HostOf(p)) + "_a11y"
  }

  /** A `pathlib.Path` split into its parent directory and its `.name`. */
  datatype PathName = PathName(dir: string, name: string) {
    function Full(): string { dir + "/" + name }
  }

  /** The tuple `build_report_paths` returns, in its order. */
  datatype ReportPaths = ReportPaths(
    datedJson: PathName, datedHtml: PathName, latestJson: PathName,
    latestHtml: PathName, datedCsv: PathName, latestCsv: PathName)

  function DatedDir(now: Clock): string {
    "reports/" + Padded(now.year, 4) + "/" + Padded(now.month, 2)
  }

  /** `build_report_paths` with the clock and the parsed URL as inputs; paths
      are relative to the working directory. */
  function BuildReportPaths(p: ParsedUrl, now: Clock): (r: ReportPaths)
    ensures r.datedJson.dir == r.datedHtml.dir == r.datedCsv.dir == DatedDir(now)
    ensures r.datedJson.name == BaseName(now, p) + ".json"
    ensures r.datedHtml.name == BaseName(now, p) + ".html"
    ensures r.datedCsv.name == BaseName(now, p) + ".csv"
    ensures r.latestJson == PathName("reports", "latest.json")
    ensures r.latestHtml == PathName("reports", "latest.html")
    ensures r.latestCsv == PathName("reports", "latest.csv")
  {
    var dir := DatedDir(now);
    var base := BaseName(now, p);
    ReportPaths(
      PathName(dir, base + ".json"), PathName(dir, base + ".html"),
      PathName("reports", "latest.json"), PathName("reports", "latest.html"),
      PathName(dir, base + ".csv"), PathName("reports", "latest.csv"))
  }

  /** The `latest.*` paths depend on neither the URL nor the time. */
  lemma LatestPathsFixed(p1: ParsedUrl, n1: Clock, p2: ParsedUrl, n2: Clock)
    ensures var a, b := BuildReportPaths(p1, n1), BuildReportPaths(p2, n2);
      a.latestJson == b.latestJson && a.latestHtml == b.latestHtml && a.latestCsv == b.latestCsv
  {
  }

  /** The six full paths, in the order `main` writes them. */
  function WriteOrder(r: ReportPaths): seq<string> {
    [r.datedJson.Full(), r.datedHtml.Full(), r.datedCsv.Full(),
     r.latestJson.Full(), r.latestHtml.Full(), r.latestCsv.Full()]
  }

  predicate Distinct(xs: seq<string>) {
    forall i, j :: 0 <= i < j < |xs| ==> xs[i] != xs[j]
  }

  /** A dated path has a digit of the year where a latest path has `l`. */
  lemma DatedIsNotLatest(dir: string, name: string, lname: string)
    requires |dir| > 8 && IsDigit(dir[8]) && lname != [] && lname[0] == 'l'
    ensures PathName(dir, name).Full() != PathName("reports", lname).Full()
  {
    assert PathName(dir, name).Full()[8] == dir[8];
    assert PathName("reports", lname).Full()[8] == lname[0];
  }

  /** Two paths in one directory with one stem differ when their extensions do. */
  lemma ExtensionsDiffer(dir: string, stem: string, e1: string, e2: string)
    requires |e1| >= 2 && |e2| >= 2 && e1[1] != e2[1]
    ensures PathName(dir, stem + e1).Full() != PathName(dir, stem + e2).Full()
  {
    var k := |dir| + 1 + |stem| + 1;
    assert PathName(dir, stem + e1).Full()[k] == e1[1];
    assert PathName(dir, stem + e2).Full()[k] == e2[1];
  }

  lemma SixDistinct(dir: string, base: string)
    requires |dir| > 8 && IsDigit(dir[8])
    ensures Distinct([PathName(dir, base + ".json").Full(), PathName(dir, base + ".html").Full(),
                      PathName(dir, base + ".csv").Full(), PathName("reports", "latest.json").Full(),
                      PathName("reports", "latest.html").Full(), PathName("reports", "latest.csv").Full()])
  {
    ExtensionsDiffer(dir, base, ".json", ".html");
    ExtensionsDiffer(dir, base, ".json", ".csv");
    ExtensionsDiffer(dir, base, ".html", ".csv");
    assert "latest" + ".json" == "latest.json";
    assert "latest" + ".html" == "latest.html";
    assert "latest" + ".csv" == "latest.csv";
    ExtensionsDiffer("reports", "latest", ".json", ".html");
    ExtensionsDiffer("reports", "latest", ".json", ".csv");
    ExtensionsDiffer("reports", "latest", ".html", ".csv");
    DatedIsNotLatest(dir, base + ".json", "latest.json");
    DatedIsNotLatest(dir, base + ".json", "latest.html");
    DatedIsNotLatest(dir, base + ".json", "latest.csv");
    DatedIsNotLatest(dir, base + ".html", "latest.json");
    DatedIsNotLatest(dir, base + ".html", "latest.html");
    DatedIsNotLatest(dir, base + ".html", "latest.csv");
    DatedIsNotLatest(dir, base + ".csv", "latest.json");
    DatedIsNotLatest(dir, base + ".csv", "latest.html");
    DatedIsNotLatest(dir, base + ".csv", "latest.csv");
  }

  /** The six paths are pairwise different, so no write of the dual write
      clobbers another. */
  lemma SixPathsDistinct(p: ParsedUrl, now: Clock)
    ensures Distinct(WriteOrder(BuildReportPaths(p, now)))
  {
    var dir := DatedDir(now);
    assert dir[8] == Padded(now.year, 4)[0];
    SixDistinct(dir, BaseName(now, p));
  }

  function Pow10(k: nat): (r: nat)
    ensures r >= 1
  {
    if k == 0 then 1 else 10 * Pow10(k - 1)
  }

  lemma {:induction false} PaddedInjective(a: nat, b: nat, w: nat)
    requires a < Pow10(w) && b < Pow10(w)
    requires Padded(a, w) == Padded(b, w)
    ensures a == b
  {
    if w > 0 {
      var pa, pb := Padded(a / 10, w - 1), Padded(b / 10, w - 1);
      assert Padded(a, w) == pa + [DigitChar(a % 10)];
      assert Padded(b, w) == pb + [DigitChar(b % 10)];
      assert pa == Padded(a, w)[..w - 1] && pb == Padded(b, w)[..w - 1];
      assert DigitChar(a % 10) == DigitChar(b % 10);
      PaddedInjective(a / 10, b / 10, w - 1);
    }
  }

  /** Two different clock readings give two different timestamps, so the
      dated file names of two scans in different seconds never collide. */
  lemma TimestampInjective(a: Clock, b: Clock)
    requires ValidClock(a) && ValidClock(b)
    requires Timestamp(a) == Timestamp(b)
    ensures a == b
  {
    var ta, tb := Timestamp(a), Timestamp(b);
    assert Pow10(4) == 10000 && Pow10(2) == 100;
    assert ta[0..4] == Padded(a.year, 4) && tb[0..4] == Padded(b.year, 4);
    assert ta[5..7] == Padded(a.month, 2) && tb[5..7] == Padded(b.month, 2);
    assert ta[8..10] == Padded(a.day, 2) && tb[8..10] == Padded(b.day, 2);
    assert ta[11..13] == Padded(a.hour, 2) && tb[11..13] == Padded(b.hour, 2);
    assert ta[13..15] == Padded(a.minute, 2) && tb[13..15] == Padded(b.minute, 2);
    assert ta[15..17] == Padded(a.second, 2) && tb[15..17] == Padded(b.second, 2);
    PaddedInjective(a.year, b.year, 4);
    PaddedInjective(a.month, b.month, 2);
    PaddedInjective(a.day, b.day, 2);
    PaddedInjective(a.hour, b.hour, 2);
    PaddedInjective(a.minute, b.minute, 2);
    PaddedInjective(a.second, b.second, 2);
  }

  lemma EqualLengthPrefixes(t1: string, r1: string, t2: string, r2: string)
    requires |t1| == |t2| && t1 + r1 == t2 + r2
    ensures t1 == t2
  {
    assert t1 == (t1 + r1)[..|t1|];
    assert t2 == (t2 + r2)[..|t2|];
  }

  lemma Regroup(t: string, b: string, c: string, d: string, e: string)
    ensures t + b + c + d + e == t + (b + c + d + e)
  {
  }

  lemma DatedNameSplit(p: ParsedUrl, now: Clock)
    ensures BuildReportPaths(p, now).datedJson.name == Timestamp(now) + ("_" + Slugify(HostOf(p)) + "_a11y" + ".json")
  {
    Regroup(Timestamp(now), "_", Slugify(HostOf(p)), "_a11y", ".json");
  }

  /** Dated file names of scans taken in different seconds never collide. */
  lemma DatedNamesSeparateSeconds(p1: ParsedUrl, n1: Clock, p2: ParsedUrl, n2: Clock)
    requires ValidClock(n1) && ValidClock(n2) && n1 != n2
    ensures BuildReportPaths(p1, n1).datedJson != BuildReportPaths(p2, n2).datedJson
  {
    DatedNameSplit(p1, n1);
    DatedNameSplit(p2, n2);
    if BuildReportPaths(p1, n1).datedJson == BuildReportPaths(p2, n2).datedJson {
      EqualLengthPrefixes(Timestamp(n1), "_" + Slugify(HostOf(p1)) + "_a11y" + ".json",
                          Timestamp(n2), "_" + Slugify(HostOf(p2)) + "_a11y" + ".json");
      TimestampInjective(n1, n2);
    }
  }

  /* ---------------------------------------------------------------- */
  /* severity_counts                                                  */
  /* ---------------------------------------------------------------- */

  const Known: seq<string> := ["critical", "serious", "moderate", "minor"]
  const Buckets: seq<string> := Known + ["unknown"]

  /** The bucket `severity_counts` adds a violation to. */
  function Bucket(impact: Field): (b: string)
    ensures b in Buckets
  {
    var i := Lower(impact.OrDefault("unknown"));
    if i in Buckets then i else "unknown"
  }

  /** How many of `vs` fall in bucket `b`. */
  function CountBucket(vs: seq<Violation>, b: string): nat {
    if vs == [] then 0
    else CountBucket(vs[..|vs| - 1], b) + (if Bucket(vs[|vs| - 1].impact) == b then 1 else 0)
  }

  /** The counts of the buckets after the first `i` violations. */
  ghost predicate CountsAfter(m: map<string, nat>, vs: seq<Violation>, i: nat)
    requires i <= |vs|
  {
    (forall b :: b in m <==> b in Buckets) &&
    forall b :: b in m ==> m[b] == CountBucket(vs[..i], b)
  }

  lemma CountsStart(m: map<string, nat>, vs: seq<Violation>)
    requires m == map["critical" := 0, "serious" := 0, "moderate" := 0, "minor" := 0, "unknown" := 0]
    ensures CountsAfter(m, vs, 0)
  {
  }

  /** The bucket of the `i`-th violation, the way the loop finds it: its
      lower-cased impact when that is a key, and `unknown` otherwise. */
  lemma BucketByKeys(m: map<string, nat>, vs: seq<Violation>, i: nat)
    requires i < |vs| && CountsAfter(m, vs, i)
    ensures var x := Lower(vs[i].impact.OrDefault("unknown"));
      Bucket(vs[i].impact) == if x in m then x else "unknown"
  {
  }

  /** One violation more: its bucket goes up by one. */
  lemma CountsStep(m: map<string, nat>, vs: seq<Violation>, i: nat, impact: string)
    requires i < |vs| && CountsAfter(m, vs, i) && impact == Bucket(vs[i].impact)
    ensures impact in m && CountsAfter(m[impact := m[impact] + 1], vs, i + 1)
  {
    var m' := m[impact := m[impact] + 1];
    forall b | b in m'
      ensures m'[b] == CountBucket(vs[..i + 1], b)
    {
      CountBucketStep(vs, i, b);
    }
  }

  lemma CountBucketStep(vs: seq<Violation>, i: nat, b: string)
    requires i < |vs|
    ensures CountBucket(vs[..i + 1], b) == CountBucket(vs[..i], b) + if Bucket(vs[i].impact) == b then 1 else 0
  {
    assert vs[..i + 1][..i] == vs[..i];
  }

  lemma CountsEnd(m: map<string, nat>, vs: seq<Violation>)
    requires CountsAfter(m, vs, |vs|)
    ensures forall b :: b in m ==> m[b] == CountBucket(vs, b)
  {
    assert vs[..|vs|] == vs;
  }

  /** The five bucket names, in the order they are declared. */
  lemma BucketNames()
    ensures Buckets == ["critical", "serious", "moderate", "minor", "unknown"]
    ensures "critical" in Buckets && "serious" in Buckets && "moderate" in Buckets && "minor" in Buckets
  {
  }

  /** `severity_counts`: exactly the five buckets, each holding its count. */
  method SeverityCounts(vs: seq<Violation>) returns (counts: map<string, nat>)
    ensures forall b :: b in counts <==> b in Buckets
    ensures forall b :: b in counts ==> counts[b] == CountBucket(vs, b)
  {
    counts := map["critical" := 0, "serious" := 0, "moderate" := 0, "minor" := 0, "unknown" := 0];
    CountsStart(counts, vs);
    var i := 0;
    while i < |vs|
      invariant 0 <= i <= |vs|
      invariant CountsAfter(counts, vs, i)
    {
      var impact := Lower(vs[i].impact.OrDefault("unknown"));
      BucketByKeys(counts, vs, i);
      if impact !in counts {
        impact := "unknown";
      }
      CountsStep(counts, vs, i, impact);
      counts := counts[impact := counts[impact] + 1];
      i := i + 1;
    }
    CountsEnd(counts, vs);
  }

  /** The five counts add up to the number of violations: none is dropped. */
  lemma {:induction false} SeverityTotal(vs: seq<Violation>)
    ensures CountBucket(vs, "critical") + CountBucket(vs, "serious") + CountBucket(vs, "moderate")
          + CountBucket(vs, "minor") + CountBucket(vs, "unknown") == |vs|
  {
    if vs != [] {
      SeverityTotal(vs[..|vs| - 1]);
    }
  }

  /** No violation is counted under a name outside the five buckets. */
  lemma {:induction false} OnlyFiveBuckets(vs: seq<Violation>, b: string)
    requires b !in Buckets
    ensures CountBucket(vs, b) == 0
  {
    if vs != [] {
      OnlyFiveBuckets(vs[..|vs| - 1], b);
    }
  }

  /** Matching ignores case: `"CRITICAL"` counts as critical. */
  lemma BucketIgnoresCase(s: string)
    ensures Bucket(Str(s)) == Bucket(Str(Lower(s)))
  {
    LowerIdempotent(s);
  }

  /** Missing, null, empty and unrecognised impacts all land in `unknown`. */
  lemma UnrecognisedIsUnknown(f: Field)
    requires f.Absent? || f.Null? || (f.Str? && Lower(f.s) !in Known)
    ensures Bucket(f) == "unknown"
  {
    LowerUnknown();
  }

  /** Text without an upper-case letter is its own lower case. */
  lemma NoCapsLower(s: string)
    requires forall c :: 'A' <= c <= 'Z' ==> c !in s
    ensures Lower(s) == s
  {
    forall i | 0 <= i < |s| ensures Lower(s)[i] == s[i] {
      assert s[i] in s;
    }
  }
  lemma LowerUnknown()
    ensures Lower("unknown") == "unknown"
  {
    NoCapsLower("unknown");
  }

  /* ---------------------------------------------------------------- */
  /* flatten_violations_to_rows and write_csv                         */
  /* ---------------------------------------------------------------- */

  /** One CSV row, its fields in `write_csv`'s column order. */
  datatype CsvRow = CsvRow(url: string, ruleId: string, impact: string, description: string,
                           helpUrl: string, target: string, snippet: string)

  const NoViolationsText := "No accessibility violations found"

  function NodeRow(url: string, v: Violation, n: Node): CsvRow {
    CsvRow(url, v.id.CsvCell(), v.impact.CsvCell(), v.description.CsvCell(), v.helpUrl.CsvCell(),
           Join(n.target, " | "), n.html.CsvCell())
  }

  /** The row of a violation that lists no nodes. */
  function NoNodeRow(url: string, v: Violation): CsvRow {
    CsvRow(url, v.id.CsvCell(), v.impact.CsvCell(), v.description.CsvCell(), v.helpUrl.CsvCell(), "", "")
  }

  /** The single row of a scan with no violations. */
  function SentinelRow(url: string): CsvRow {
    CsvRow(url, "", "", NoViolationsText, "", "", "")
  }

  function NodeRows(url: string, v: Violation, ns: seq<Node>): (r: seq<CsvRow>)
    ensures |r| == |ns|
  {
    if ns == [] then [] else NodeRows(url, v, ns[..|ns| - 1]) + [NodeRow(url, v, ns[|ns| - 1])]
  }

  function ViolationRows(url: string, v: Violation): seq<CsvRow> {
    NodeRows(url, v, v.nodes) + (if v.nodes == [] then [NoNodeRow(url, v)] else [])
  }

  function AllRows(url: string, vs: seq<Violation>): seq<CsvRow> {
    if vs == [] then [] else AllRows(url, vs[..|vs| - 1]) + ViolationRows(url, vs[|vs| - 1])
  }

  /** What `flatten_violations_to_rows` returns. */
  function Rows(url: string, vs: seq<Violation>): seq<CsvRow> {
    AllRows(url, vs) + (if vs == [] then [SentinelRow(url)] else [])
  }

  lemma NodeRowsStep(url: string, v: Violation, j: nat)
    requires j < |v.nodes|
    ensures NodeRows(url, v, v.nodes[..j + 1]) == NodeRows(url, v, v.nodes[..j]) + [NodeRow(url, v, v.nodes[j])]
  {
    assert v.nodes[..j + 1][..j] == v.nodes[..j];
  }

  lemma AllRowsStep(url: string, vs: seq<Violation>, i: nat)
    requires i < |vs|
    ensures AllRows(url, vs[..i + 1]) == AllRows(url, vs[..i]) + ViolationRows(url, vs[i])
  {
    assert vs[..i + 1][..i] == vs[..i];
  }

  /** `flatten_violations_to_rows`, with its nested loops. */
  method FlattenViolationsToRows(url: string, vs: seq<Violation>) returns (rows: seq<CsvRow>)
    ensures rows == Rows(url, vs)
  {
    rows := [];
    var i := 0;
    while i < |vs|
      invariant 0 <= i <= |vs|
      invariant rows == AllRows(url, vs[..i])
    {
      var v := vs[i];
      var j := 0;
      while j < |v.nodes|
        invariant 0 <= j <= |v.nodes|
        invariant rows == AllRows(url, vs[..i]) + NodeRows(url, v, v.nodes[..j])
      {
        var node := v.nodes[j];
        var row := CsvRow(url, v.id.CsvCell(), v.impact.CsvCell(), v.description.CsvCell(),
                          v.helpUrl.CsvCell(), Join(node.target, " | "), node.html.CsvCell());
        assert row == NodeRow(url, v, node);
        NodeRowsStep(url, v, j);
        rows := rows + [row];
        j := j + 1;
      }
      assert v.nodes[..j] == v.nodes;
      if v.nodes == [] {
        rows := rows + [CsvRow(url, v.id.CsvCell(), v.impact.CsvCell(), v.description.CsvCell(),
                               v.helpUrl.CsvCell(), "", "")];
      }
      AllRowsStep(url, vs, i);
      i := i + 1;
    }
    assert vs[..|vs|] == vs;
    if vs == [] {
      rows := rows + [CsvRow(url, "", "", NoViolationsText, "", "", "")];
    }
  }

  function Max1(n: nat): nat { if n == 0 then 1 else n }

  /** The sum over the violations of max(1, number of nodes). */
  function RowBudget(vs: seq<Violation>): nat {
    if vs == [] then 0 else RowBudget(vs[..|vs| - 1]) + Max1(|vs[|vs| - 1].nodes|)
  }

  /** One row per node, one for a violation without nodes, one for no violations. */
  lemma {:induction false} RowCount(url: string, vs: seq<Violation>)
    ensures |AllRows(url, vs)| == RowBudget(vs)
    ensures |Rows(url, vs)| == if vs == [] then 1 else RowBudget(vs)
  {
    if vs != [] {
      RowCount(url, vs[..|vs| - 1]);
    }
  }

  /** Every scan yields at least one row. */
  lemma RowsNeverEmpty(url: string, vs: seq<Violation>)
    ensures |Rows(url, vs)| >= 1
  {
    RowCount(url, vs);
    if vs != [] {
      BudgetPositive(vs);
    }
  }

  lemma {:induction false} BudgetPositive(vs: seq<Violation>)
    requires vs != []
    ensures RowBudget(vs) >= 1
  {
  }

  /** No violations: exactly the sentinel row, carrying the URL and nothing else. */
  lemma NoViolationsRow(url: string)
    ensures Rows(url, []) == [CsvRow(url, "", "", "No accessibility violations found", "", "", "")]
  {
  }

  /** Every row carries the scanned URL. */
  lemma {:induction false} RowsCarryUrl(url: string, vs: seq<Violation>)
    ensures forall r :: r in Rows(url, vs) ==> r.url == url
  {
    AllRowsCarryUrl(url, vs);
  }

  lemma {:induction false} AllRowsCarryUrl(url: string, vs: seq<Violation>)
    ensures forall r :: r in AllRows(url, vs) ==> r.url == url
  {
    if vs != [] {
      AllRowsCarryUrl(url, vs[..|vs| - 1]);
      NodeRowsCarryUrl(url, vs[|vs| - 1], vs[|vs| - 1].nodes);
    }
  }

  lemma {:induction false} NodeRowsCarryUrl(url: string, v: Violation, ns: seq<Node>)
    ensures forall r :: r in NodeRows(url, v, ns) ==> r.url == url
  {
    if ns != [] {
      NodeRowsCarryUrl(url, v, ns[..|ns| - 1]);
    }
  }

  lemma {:induction false} NodeRowsAt(url: string, v: Violation, ns: seq<Node>, j: nat)
    requires j < |ns|
    ensures NodeRows(url, v, ns)[j] == NodeRow(url, v, ns[j])
  {
    if j < |ns| - 1 {
      NodeRowsAt(url, v, ns[..|ns| - 1], j);
    }
  }

  lemma {:induction false} AllRowsConcat(url: string, a: seq<Violation>, b: seq<Violation>)
    ensures AllRows(url, a + b) == AllRows(url, a) + AllRows(url, b)
    decreases |b|
  {
    if b == [] {
      assert a + b == a;
    } else {
      assert (a + b)[..|a + b| - 1] == a + b[..|b| - 1];
      AllRowsConcat(url, a, b[..|b| - 1]);
    }
  }

  /** Violation-then-node order: node `j` of violation `i` is the row at offset
      (rows of the violations before `i`) + `j`, with the node's selectors
      joined by `" | "` and its markup as snippet. */
  lemma RowOfNode(url: string, vs: seq<Violation>, i: nat, j: nat)
    requires i < |vs| && j < |vs[i].nodes|
    ensures RowBudget(vs[..i]) + j < |Rows(url, vs)|
    ensures var r := Rows(url, vs)[RowBudget(vs[..i]) + j];
      r == NodeRow(url, vs[i], vs[i].nodes[j]) &&
      r.target == Join(vs[i].nodes[j].target, " | ") && r.snippet == vs[i].nodes[j].html.CsvCell()
  {
    assert vs == vs[..i] + [vs[i]] + vs[i + 1..];
    AllRowsConcat(url, vs[..i] + [vs[i]], vs[i + 1..]);
    AllRowsConcat(url, vs[..i], [vs[i]]);
    assert AllRows(url, [vs[i]]) == ViolationRows(url, vs[i]);
    RowCount(url, vs[..i]);
    NodeRowsAt(url, vs[i], vs[i].nodes, j);
    var pre := AllRows(url, vs[..i]);
    assert AllRows(url, vs) == pre + ViolationRows(url, vs[i]) + AllRows(url, vs[i + 1..]);
  }

  /** A violation without nodes gives one row with empty target and snippet. */
  lemma RowOfNodelessViolation(url: string, vs: seq<Violation>, i: nat)
    requires i < |vs| && vs[i].nodes == []
    ensures RowBudget(vs[..i]) < |Rows(url, vs)|
    ensures Rows(url, vs)[RowBudget(vs[..i])] == NoNodeRow(url, vs[i])
    ensures NoNodeRow(url, vs[i]).target == "" && NoNodeRow(url, vs[i]).snippet == ""
  {
    assert vs == vs[..i] + [vs[i]] + vs[i + 1..];
    AllRowsConcat(url, vs[..i] + [vs[i]], vs[i + 1..]);
    AllRowsConcat(url, vs[..i], [vs[i]]);
    assert AllRows(url, [vs[i]]) == ViolationRows(url, vs[i]);
    RowCount(url, vs[..i]);
  }

  /** `write_csv`'s column names, in order. */
  const CsvFields: seq<string> := ["url", "rule_id", "impact", "description", "help_url", "target", "snippet"]

  /** A CSV file before quoting: the header and one record per row. */
  datatype CsvTable = CsvTable(header: seq<string>, records: seq<seq<string>>)

  function Cells(r: CsvRow): seq<string> {
    [r.url, r.ruleId, r.impact, r.description, r.helpUrl, r.target, r.snippet]
  }

  /** `write_csv`: the fixed header, then the rows in order. */
  function WriteCsv(rows: seq<CsvRow>): (t: CsvTable)
    ensures t.header == CsvFields && |t.records| == |rows|
  {
    CsvTable(CsvFields, seq(|rows|, i requires 0 <= i < |rows| => Cells(rows[i])))
  }

  /** The cell of a record under a column name, as `csv.DictReader` reads it. */
  function Column(header: seq<string>, record: seq<string>, name: string): string {
    if header == [] || record == [] then ""
    else if header[0] == name then record[0]
    else Column(header[1..], record[1..], name)
  }

  /** A name that occurs first at position `k` of the header reads cell `k`. */
  lemma {:induction false} ColumnAt(header: seq<string>, record: seq<string>, k: nat)
    requires k < |header| <= |record| && header[k] !in header[..k]
    ensures Column(header, record, header[k]) == record[k]
  {
    if k > 0 {
      assert header[0] in header[..k];
      assert header[1..][..k - 1] == header[..k][1..];
      ColumnAt(header[1..], record[1..], k - 1);
    }
  }

  /** Reading a written record back by column name gives the row again, so the
      column order of the header and of the records agree. */
  lemma WriteCsvReadsBack(rows: seq<CsvRow>, i: nat)
    requires i < |rows|
    ensures var t := WriteCsv(rows); var rec := t.records[i];
      CsvRow(Column(t.header, rec, "url"), Column(t.header, rec, "rule_id"),
             Column(t.header, rec, "impact"), Column(t.header, rec, "description"),
             Column(t.header, rec, "help_url"), Column(t.header, rec, "target"),
             Column(t.header, rec, "snippet")) == rows[i]
  {
    var h, rec := CsvFields, Cells(rows[i]);
    assert WriteCsv(rows).records[i] == rec;
    forall k | 0 <= k < 7
      ensures h[k] !in h[..k]
    {
      assert forall a, b :: 0 <= a < b < 7 ==> |h[a]| != |h[b]| || h[a][0] != h[b][0] || h[a][1] != h[b][1];
    }
    ColumnAt(h, rec, 0);
    ColumnAt(h, rec, 1);
    ColumnAt(h, rec, 2);
    ColumnAt(h, rec, 3);
    ColumnAt(h, rec, 4);
    ColumnAt(h, rec, 5);
    ColumnAt(h, rec, 6);
  }

  /* ---------------------------------------------------------------- */
  /* render_html_report                                               */
  /* ---------------------------------------------------------------- */

  datatype Badge = Badge(caption: string, cls: string, value: nat)

  /** One violation card; `targets` is the escaped selector sample. */
  datatype Card = Card(ruleId: string, impact: string, description: string, helpUrl: string,
                       targets: seq<string>) {
    /** The text of the card's "Affected targets (sample)" box. */
    function TargetsHtml(): string {
      if targets == [] then "(no targets provided)" else Join(targets, "<br>")
    }
  }

  datatype Body = Cards(cards: seq<Card>) | SuccessBlock

  /** The data the HTML report shows; the markup and styles around it are fixed text. */
  datatype HtmlReport = HtmlReport(url: string, scannedAt: string, badges: seq<Badge>,
                                   csvHref: string, jsonHref: string, total: nat, body: Body)

  function EscAll(xs: seq<string>): (r: seq<string>)
    ensures |r| == |xs|
  {
    if xs == [] then [] else EscAll(xs[..|xs| - 1]) + [Esc(xs[|xs| - 1])]
  }

  /** The selectors of the nodes, in order. */
  function Selectors(ns: seq<Node>): seq<string> {
    if ns == [] then [] else Selectors(ns[..|ns| - 1]) + ns[|ns| - 1].target
  }

  function Min(a: nat, b: nat): nat { if a < b then a else b }

  /** The selectors of the first ten nodes, escaped. */
  function SampleTargets(ns: seq<Node>): seq<string> {
    EscAll(Selectors(ns[..Min(10, |ns|)]))
  }

  function CardOf(v: Violation): Card {
    Card(Esc(v.id.GetWithDefault("unknown")), Esc(v.impact.GetWithDefault("unknown")),
         Esc(v.description.GetWithDefault("")), Esc(v.helpUrl.GetWithDefault("")),
         SampleTargets(v.nodes))
  }

  function CardsOf(vs: seq<Violation>): (r: seq<Card>)
    ensures |r| == |vs|
  {
    if vs == [] then [] else CardsOf(vs[..|vs| - 1]) + [CardOf(vs[|vs| - 1])]
  }

  function BadgesOf(vs: seq<Violation>): seq<Badge> {
    [Badge(Esc("critical"), "critical", CountBucket(vs, "critical")),
     Badge(Esc("serious"), "serious", CountBucket(vs, "serious")),
     Badge(Esc("moderate"), "moderate", CountBucket(vs, "moderate")),
     Badge(Esc("minor"), "minor", CountBucket(vs, "minor"))]
  }

  /** What `render_html_report` shows, given the clock reading it takes. */
  function Report(url: string, vs: seq<Violation>, csvName: string, jsonName: string, now: Clock): HtmlReport {
    HtmlReport(Esc(url), Esc(ScannedText(now)), BadgesOf(vs), Esc(csvName), Esc(jsonName), |vs|,
               if vs == [] then SuccessBlock else Cards(CardsOf(vs)))
  }

  lemma {:induction false} EscAllConcat(a: seq<string>, b: seq<string>)
    ensures EscAll(a + b) == EscAll(a) + EscAll(b)
    decreases |b|
  {
    if b == [] {
      assert a + b == a;
    } else {
      assert (a + b)[..|a + b| - 1] == a + b[..|b| - 1];
      EscAllConcat(a, b[..|b| - 1]);
    }
  }

  /** The innermost loop: the escaped selectors of one node. */
  method EscapeTargets(ts: seq<string>) returns (out: seq<string>)
    ensures out == EscAll(ts)
  {
    out := [];
    var k := 0;
    while k < |ts|
      invariant 0 <= k <= |ts|
      invariant out == EscAll(ts[..k])
    {
      assert ts[..k + 1][..k] == ts[..k];
      out := out + [Esc(ts[k])];
      k := k + 1;
    }
    assert ts[..k] == ts;
  }

  /** The inner loops of `render_html_report`: the escaped selectors of the given nodes. */
  method CollectTargets(sample: seq<Node>) returns (targets: seq<string>)
    ensures targets == EscAll(Selectors(sample))
  {
    targets := [];
    var j := 0;
    while j < |sample|
      invariant 0 <= j <= |sample|
      invariant targets == EscAll(Selectors(sample[..j]))
    {
      var escaped := EscapeTargets(sample[j].target);
      EscAllConcat(Selectors(sample[..j]), sample[j].target);
      assert sample[..j + 1][..j] == sample[..j];
      targets := targets + escaped;
      j := j + 1;
    }
    assert sample[..j] == sample;
  }

  lemma CardsOfStep(vs: seq<Violation>, i: nat)
    requires i < |vs|
    ensures CardsOf(vs[..i + 1]) == CardsOf(vs[..i]) + [CardOf(vs[i])]
  {
    assert vs[..i + 1][..i] == vs[..i];
  }

  /** The body of the loop over violations in `render_html_report`: one card. */
  method BuildCard(v: Violation) returns (card: Card)
    ensures card == CardOf(v)
  {
    var targets := CollectTargets(v.nodes[..Min(10, |v.nodes|)]);
    card := Card(Esc(v.id.GetWithDefault("unknown")), Esc(v.impact.GetWithDefault("unknown")),
                 Esc(v.description.GetWithDefault("")), Esc(v.helpUrl.GetWithDefault("")), targets);
  }

  /** `render_html_report`, with `datetime.now()` as the input `now`. */
  method RenderHtmlReport(url: string, vs: seq<Violation>, csvName: string, jsonName: string, now: Clock)
    returns (doc: HtmlReport)
    ensures doc == Report(url, vs, csvName, jsonName, now)
  {
    var counts := SeverityCounts(vs);
    BucketNames();
    var badges := [Badge(Esc("critical"), "critical", counts["critical"]),
                   Badge(Esc("serious"), "serious", counts["serious"]),
                   Badge(Esc("moderate"), "moderate", counts["moderate"]),
                   Badge(Esc("minor"), "minor", counts["minor"])];
    var cards: seq<Card> := [];
    var i := 0;
    while i < |vs|
      invariant 0 <= i <= |vs|
      invariant cards == CardsOf(vs[..i])
    {
      var card := BuildCard(vs[i]);
      CardsOfStep(vs, i);
      cards := cards + [card];
      i := i + 1;
    }
    assert vs[..|vs|] == vs;
    var body := if cards != [] then Cards(cards) else SuccessBlock;
    assert badges == BadgesOf(vs);
    assert body == if vs == [] then SuccessBlock else Cards(CardsOf(vs));
    doc := HtmlReport(Esc(url), Esc(ScannedText(now)), badges, Esc(csvName), Esc(jsonName), |vs|, body);
  }

  /** Four badges, critical to minor, each with its count; the `unknown` count has no badge. */
  lemma ReportBadges(url: string, vs: seq<Violation>, csvName: string, jsonName: string, now: Clock)
    ensures Report(url, vs, csvName, jsonName, now).badges == BadgesOf(vs)
    ensures BadgesOf(vs) ==
      [Badge("critical", "critical", CountBucket(vs, "critical")),
       Badge("serious", "serious", CountBucket(vs, "serious")),
       Badge("moderate", "moderate", CountBucket(vs, "moderate")),
       Badge("minor", "minor", CountBucket(vs, "minor"))]
  {
    Escaping.EscCritical();
    Escaping.EscSerious();
    Escaping.EscModerate();
    Escaping.EscMinor();
  }

  lemma {:induction false} CardsOfAt(vs: seq<Violation>, i: nat)
    requires i < |vs|
    ensures CardsOf(vs)[i] == CardOf(vs[i])
  {
    if i < |vs| - 1 {
      CardsOfAt(vs[..|vs| - 1], i);
    }
  }

  /** One card per violation in input order, or the success block when there are none. */
  lemma ReportBody(url: string, vs: seq<Violation>, csvName: string, jsonName: string, now: Clock)
    ensures var d := Report(url, vs, csvName, jsonName, now);
      d.total == |vs| &&
      (d.body.SuccessBlock? <==> vs == []) &&
      (d.body.Cards? ==>
         |d.body.cards| == |vs| && forall i :: 0 <= i < |vs| ==> d.body.cards[i] == CardOf(vs[i]))
  {
    forall i | 0 <= i < |vs| {
      CardsOfAt(vs, i);
    }
  }

  lemma {:induction false} EscAllNoMarkup(xs: seq<string>)
    ensures forall k :: 0 <= k < |EscAll(xs)| ==> NoMarkup(EscAll(xs)[k])
  {
    if xs != [] {
      EscAllNoMarkup(xs[..|xs| - 1]);
    }
  }

  /** Every text a card shows is escaped, so none of it can open a tag. */
  lemma CardNoMarkup(v: Violation)
    ensures var c := CardOf(v);
      NoMarkup(c.ruleId) && NoMarkup(c.impact) && NoMarkup(c.description) && NoMarkup(c.helpUrl) &&
      forall k :: 0 <= k < |c.targets| ==> NoMarkup(c.targets[k])
  {
    EscAllNoMarkup(Selectors(v.nodes[..Min(10, |v.nodes|)]));
  }

  /** The same holds for the header texts and for each card of the report. */
  lemma ReportNoMarkup(url: string, vs: seq<Violation>, csvName: string, jsonName: string, now: Clock)
    ensures var d := Report(url, vs, csvName, jsonName, now);
      NoMarkup(d.url) && NoMarkup(d.scannedAt) && NoMarkup(d.csvHref) && NoMarkup(d.jsonHref) &&
      (d.body.Cards? ==> forall i :: 0 <= i < |vs| ==> d.body.cards[i] == CardOf(vs[i]))
  {
    forall i | 0 <= i < |vs| {
      CardsOfAt(vs, i);
    }
  }

  /** Nodes after the tenth never reach the target sample. */
  lemma SampleIgnoresLaterNodes(ns: seq<Node>, extra: seq<Node>)
    requires |ns| >= 10
    ensures SampleTargets(ns + extra) == SampleTargets(ns)
  {
    assert (ns + extra)[..10] == ns[..10];
  }

  /** A violation without nodes shows "(no targets provided)". */
  lemma SamplePlaceholder(v: Violation)
    requires v.nodes == []
    ensures CardOf(v).TargetsHtml() == "(no targets provided)"
  {
  }

  /* ---------------------------------------------------------------- */
  /* main: the dual write                                             */
  /* ---------------------------------------------------------------- */

  /** What the rule-engine run gave: the violations, or an exception. */
  datatype ScanOutcome = Scanned(violations: seq<Violation>) | ScanRaised

  datatype ReportFile = JsonFile(text: string) | HtmlFile(report: HtmlReport) | CsvFile(table: CsvTable)

  /** The six files of one run, written in `main`'s order over `files`. */
  function DualWrite(files: map<string, ReportFile>, p: ReportPaths, jsonText: string,
                     dated: HtmlReport, latest: HtmlReport, table: CsvTable): map<string, ReportFile> {
    files[p.datedJson.Full() := JsonFile(jsonText)]
         [p.datedHtml.Full() := HtmlFile(dated)]
         [p.datedCsv.Full() := CsvFile(table)]
         [p.latestJson.Full() := JsonFile(jsonText)]
         [p.latestHtml.Full() := HtmlFile(latest)]
         [p.latestCsv.Full() := CsvFile(table)]
  }

  /** The six writes at the end of `main`, dated files first. */
  method WriteReports(store: FileStore<ReportFile>, r: ReportPaths, jsonText: string,
                      dated: HtmlReport, latest: HtmlReport, table: CsvTable)
    modifies store
    ensures store.writes == old(store.writes) + WriteOrder(r)
    ensures store.files == DualWrite(old(store.files), r, jsonText, dated, latest, table)
  {
    store.Write(r.datedJson.Full(), JsonFile(jsonText));
    store.Write(r.datedHtml.Full(), HtmlFile(dated));
    store.Write(r.datedCsv.Full(), CsvFile(table));
    store.Write(r.latestJson.Full(), JsonFile(jsonText));
    store.Write(r.latestHtml.Full(), HtmlFile(latest));
    store.Write(r.latestCsv.Full(), CsvFile(table));
  }

  /** `main`. `args` is `sys.argv[1:]`, `parsed` is `urlparse(args[0])`,
      `jsonText` is `json.dumps(results, indent=2)`, `now` is the clock read by
      `build_report_paths` and `renderDated`/`renderLatest` the readings taken
      by the two calls of `render_html_report`. Returns the exit status. */
  method RunMain(args: seq<string>, parsed: ParsedUrl, scan: ScanOutcome, jsonText: string,
              now: Clock, renderDated: Clock, renderLatest: Clock, store: FileStore<ReportFile>)
    returns (exitCode: int)
    modifies store
    ensures exitCode == (if args == [] || scan.ScanRaised? then 1 else 0)
    ensures exitCode == 1 ==> store.files == old(store.files) && store.writes == old(store.writes)
    ensures exitCode == 0 ==>
      var url, vs, p := args[0], scan.violations, BuildReportPaths(parsed, now);
      store.writes == old(store.writes) + WriteOrder(p) &&
      store.files == DualWrite(old(store.files), p, jsonText,
                               Report(url, vs, p.datedCsv.name, p.datedJson.name, renderDated),
                               Report(url, vs, p.latestCsv.name, p.latestJson.name, renderLatest),
                               WriteCsv(Rows(url, vs)))
  {
    if |args| < 1 {
      return 1;
    }
    var url := args[0];
    if scan.ScanRaised? {
      return 1;
    }
    var vs := scan.violations;
    var p := BuildReportPaths(parsed, now);
    var csvRows := FlattenViolationsToRows(url, vs);
    var datedHtmlText := RenderHtmlReport(url, vs, p.datedCsv.name, p.datedJson.name, renderDated);
    var latestHtmlText := RenderHtmlReport(url, vs, p.latestCsv.name, p.latestJson.name, renderLatest);
    WriteReports(store, p, jsonText, datedHtmlText, latestHtmlText, WriteCsv(csvRows));
    return 0;
  }

  /** After the dual write, dated and latest JSON hold the same text and dated
      and latest CSV the same table, each HTML path holds its own report, and
      every other path is untouched. */
  lemma DualWriteContents(files: map<string, ReportFile>, r: ReportPaths, jsonText: string,
                          dated: HtmlReport, latest: HtmlReport, table: CsvTable)
    requires Distinct(WriteOrder(r))
    ensures var f := DualWrite(files, r, jsonText, dated, latest, table);
      f.Keys == files.Keys + {r.datedJson.Full(), r.datedHtml.Full(), r.datedCsv.Full(),
                              r.latestJson.Full(), r.latestHtml.Full(), r.latestCsv.Full()} &&
      f[r.datedJson.Full()] == JsonFile(jsonText) && f[r.latestJson.Full()] == JsonFile(jsonText) &&
      f[r.datedCsv.Full()] == CsvFile(table) && f[r.latestCsv.Full()] == CsvFile(table) &&
      f[r.datedHtml.Full()] == HtmlFile(dated) && f[r.latestHtml.Full()] == HtmlFile(latest) &&
      forall x :: x in files && x !in WriteOrder(r) ==> f[x] == files[x]
  {
    var w := WriteOrder(r);
    assert w[0] != w[1] && w[0] != w[2] && w[0] != w[3] && w[0] != w[4] && w[0] != w[5];
    assert w[1] != w[2] && w[1] != w[3] && w[1] != w[4] && w[1] != w[5];
    assert w[2] != w[3] && w[2] != w[4] && w[2] != w[5];
    assert w[3] != w[4] && w[3] != w[5] && w[4] != w[5];
  }

  /** The dated and the latest HTML report differ only in their download
      links and their "Scanned" time; the latest one links `latest.csv` and
      `latest.json`, which sit beside it. */
  lemma HtmlReportsDiffer(url: string, vs: seq<Violation>, p: ParsedUrl, now: Clock, t1: Clock, t2: Clock)
    ensures var r := BuildReportPaths(p, now);
      var d := Report(url, vs, r.datedCsv.name, r.datedJson.name, t1);
      var l := Report(url, vs, r.latestCsv.name, r.latestJson.name, t2);
      d.csvHref == Esc(BaseName(now, p) + ".csv") && d.jsonHref == Esc(BaseName(now, p) + ".json") &&
      l.csvHref == "latest.csv" && l.jsonHref == "latest.json" &&
      d.(csvHref := l.csvHref, jsonHref := l.jsonHref, scannedAt := l.scannedAt) == l &&
      (t1 == t2 ==> d.scannedAt == l.scannedAt)
  {
    Escaping.EscLatestCsv();
    Escaping.EscLatestJson();
  }
}

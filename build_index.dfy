/** The dashboard builder (`scripts/build-index.js`): it picks the newest
    `reports/YYYY/MM` folder, reads every `*_a11y.json` report in it and
    writes one table row per report, with the page label, the violation
    count, four severity pills and links to the report's three files. The
    same page is written to the month folder and to `reports/index.html`.

    The directory listings and the parsed JSON files are inputs; a listing
    is a function from a path to the entries found there. */
module DashboardIndex {
  import opened Wrappers
  import opened Text
  import opened Sorting
  import opened Escaping
  import opened Files
  import Engine

  /* ---------------------------------------------------------------- */
  /* findNewestRunFolder                                              */
  /* ---------------------------------------------------------------- */

  /** One `fs.Dirent`. */
  datatype DirEntry = DirEntry(name: string, isDir: bool)

  /** A directory whose name is `width` decimal digits (`/^\d{4}$/`, `/^\d{2}$/`). */
  predicate IsNumberedDir(e: DirEntry, width: nat) {
    e.isDir && |e.name| == width && AllDigits(e.name)
  }

  /** The names of the numbered directories, in listing order. */
  function NumberedNames(es: seq<DirEntry>, width: nat): (r: seq<string>)
    ensures forall x :: x in r <==> exists e :: e in es && IsNumberedDir(e, width) && e.name == x
  {
    if es == [] then []
    else
      var init := NumberedNames(es[..|es| - 1], width);
      assert forall e :: e in es <==> e in es[..|es| - 1] || e == es[|es| - 1];
      if IsNumberedDir(es[|es| - 1], width) then init + [es[|es| - 1].name] else init
  }

  datatype RunFolder = RunFolder(year: string, month: string, monthPath: string)

  /** `findNewestRunFolder`: the greatest year, then the greatest month of
      that year only; `None` (`null`) when either list is empty. */
  function FindNewestRunFolder(root: string, listing: string -> seq<DirEntry>): Option<RunFolder> {
    var years := Sort(NumberedNames(listing(root), 4));
    if years == [] then None
    else
      var year := years[|years| - 1];
      var yearPath := root + "/" + year;
      var months := Sort(NumberedNames(listing(yearPath), 2));
      if months == [] then None
      else
        var month := months[|months| - 1];
        Some(RunFolder(year, month, yearPath + "/" + month))
  }

  /** The folder found is the greatest numbered year and, inside that year,
      the greatest numbered month. */
  lemma NewestFolderIsGreatest(root: string, listing: string -> seq<DirEntry>)
    requires FindNewestRunFolder(root, listing).Some?
    ensures var f := FindNewestRunFolder(root, listing).value;
      var years := NumberedNames(listing(root), 4);
      var months := NumberedNames(listing(root + "/" + f.year), 2);
      f.year in years && (forall y :: y in years ==> y == f.year || LexLess(y, f.year)) &&
      f.month in months && (forall m :: m in months ==> m == f.month || LexLess(m, f.month)) &&
      f.monthPath == root + "/" + f.year + "/" + f.month
  {
    var f := FindNewestRunFolder(root, listing).value;
    LastIsGreatest(NumberedNames(listing(root), 4));
    LastIsGreatest(NumberedNames(listing(root + "/" + f.year), 2));
  }

  /** No folder is found exactly when there is no numbered year, or when the
      newest year has no numbered month, whatever the older years hold. */
  lemma NoFolderCases(root: string, listing: string -> seq<DirEntry>)
    ensures FindNewestRunFolder(root, listing).None? <==>
      NumberedNames(listing(root), 4) == [] ||
      NumberedNames(listing(root + "/" + Sort(NumberedNames(listing(root), 4))[|NumberedNames(listing(root), 4)| - 1]), 2) == []
  {
    var years := NumberedNames(listing(root), 4);
    if years != [] {
      var newest := Sort(years)[|years| - 1];
      var months := NumberedNames(listing(root + "/" + newest), 2);
      assert |Sort(months)| == |months|;
    }
  }

  /* ---------------------------------------------------------------- */
  /* parseStats                                                       */
  /* ---------------------------------------------------------------- */

  /** What reading and parsing a report gave: an exception, or the parsed
      object's `violations` (`None` when it is missing or falsy), each
      violation reduced to its `impact` member. */
  datatype JsonDoc = Unreadable | Parsed(violations: Option<seq<Field>>)

  /** The counts object; its keys in insertion order. */
  type Counts = seq<(string, nat)>

  /** The keys the counts object starts with. */
  const CountKeys: seq<string> := ["critical", "serious", "moderate", "minor", "unknown"]

  function Zeros(ks: seq<string>): (r: Counts)
    ensures |r| == |ks| && forall i :: 0 <= i < |ks| ==> r[i] == (ks[i], 0)
  {
    seq(|ks|, i requires 0 <= i < |ks| => (ks[i], 0))
  }

  /** `{ critical: 0, serious: 0, moderate: 0, minor: 0, unknown: 0 }`. */
  const InitialCounts: Counts := Zeros(CountKeys)

  /** `(v.impact || "unknown").toLowerCase()`. */
  function ImpactKey(impact: Field): string {
    Lower(impact.OrDefault("unknown"))
  }

  /** `counts[k] ?? 0`. */
  function Lookup(c: Counts, k: string): nat {
    if c == [] then 0 else if c[0].0 == k then c[0].1 else Lookup(c[1..], k)
  }

  /** `counts[k] = (counts[k] ?? 0) + 1`: a new key goes to the end. */
  function Bump(c: Counts, k: string): (r: Counts)
    ensures |r| >= |c|
  {
    if c == [] then [(k, 1)]
    else if c[0].0 == k then [(k, c[0].1 + 1)] + c[1..]
    else [c[0]] + Bump(c[1..], k)
  }

  /** The key of each violation, in order. */
  function ImpactKeys(impacts: seq<Field>): (r: seq<string>)
    ensures |r| == |impacts| && forall i :: 0 <= i < |impacts| ==> r[i] == ImpactKey(impacts[i])
  {
    if impacts == [] then [] else ImpactKeys(impacts[..|impacts| - 1]) + [ImpactKey(impacts[|impacts| - 1])]
  }

  /** The counts after bumping each of `ks` in turn, from `start`. */
  function TallyFrom(start: Counts, ks: seq<string>): (r: Counts)
    ensures |r| >= |start|
  {
    if ks == [] then start else Bump(TallyFrom(start, ks[..|ks| - 1]), ks[|ks| - 1])
  }

  /** The counts `parseStats` arrives at. */
  function Tally(impacts: seq<Field>): (r: Counts)
    ensures |r| >= 5
  {
    TallyFrom(InitialCounts, ImpactKeys(impacts))
  }

  datatype Stats = Stats(total: Option<nat>, counts: Option<Counts>)

  function StatsOf(doc: JsonDoc): Stats {
    match doc
    case Unreadable => Stats(None, None)
    case Parsed(vs) => Stats(Some(|vs.GetOr([])|), Some(Tally(vs.GetOr([]))))
  }

  function KeysOf(c: Counts): (r: seq<string>)
    ensures |r| == |c| && forall i :: 0 <= i < |c| ==> r[i] == c[i].0
  {
    if c == [] then [] else [c[0].0] + KeysOf(c[1..])
  }

  /** The first index holding key `k`, as the counts object finds it. */
  lemma {:induction false} BumpAt(c: Counts, k: string, j: nat)
    requires j < |c| && c[j].0 == k && forall i :: 0 <= i < j ==> c[i].0 != k
    ensures Bump(c, k) == c[j := (k, c[j].1 + 1)]
  {
    if j > 0 {
      BumpAt(c[1..], k, j - 1);
    }
  }

  lemma {:induction false} BumpNew(c: Counts, k: string)
    requires forall i :: 0 <= i < |c| ==> c[i].0 != k
    ensures Bump(c, k) == c + [(k, 1)]
  {
    if c != [] {
      BumpNew(c[1..], k);
    }
  }

  /** The property lookup of `counts[impact]`: the first index holding the key, or `|c|`. */
  method FindKey(c: Counts, k: string) returns (j: nat)
    ensures j <= |c| && (j < |c| ==> c[j].0 == k)
    ensures forall j' :: 0 <= j' < j ==> c[j'].0 != k
  {
    j := 0;
    while j < |c| && c[j].0 != k
      invariant 0 <= j <= |c|
      invariant forall j' :: 0 <= j' < j ==> c[j'].0 != k
    {
      j := j + 1;
    }
  }

  /** One impact more: its key is bumped. */
  lemma TallyStep(impacts: seq<Field>, i: nat)
    requires i < |impacts|
    ensures TallyFrom(InitialCounts, ImpactKeys(impacts[..i + 1])) ==
            Bump(TallyFrom(InitialCounts, ImpactKeys(impacts[..i])), ImpactKey(impacts[i]))
  {
    PrefixStep(impacts, i);
    var ks := ImpactKeys(impacts[..i + 1]);
    assert ks[..|ks| - 1] == ImpactKeys(impacts[..i]);
  }

  /** `counts[k] = (counts[k] ?? 0) + 1` on the counts object: the value
      under an existing key goes up by one, a new key is added last. */
  method Increment(c: Counts, k: string) returns (r: Counts)
    ensures r == Bump(c, k)
  {
    var j := FindKey(c, k);
    if j < |c| {
      BumpAt(c, k, j);
      r := c[j := (k, c[j].1 + 1)];
    } else {
      BumpNew(c, k);
      r := c + [(k, 1)];
    }
  }

  /** The loop of `parseStats` over the violations' impacts. */
  method CountImpacts(violations: seq<Field>) returns (counts: Counts)
    ensures counts == Tally(violations)
  {
    counts := InitialCounts;
    var i := 0;
    while i < |violations|
      invariant 0 <= i <= |violations|
      invariant counts == TallyFrom(InitialCounts, ImpactKeys(violations[..i]))
    {
      var impact := Lower(violations[i].OrDefault("unknown"));
      TallyStep(violations, i);
      counts := Increment(counts, impact);
      i := i + 1;
    }
    WholePrefix(violations);
  }

  /** `parseStats` on the parsed file. */
  method ParseStats(doc: JsonDoc) returns (stats: Stats)
    ensures stats == StatsOf(doc)
  {
    if doc.Unreadable? {
      return Stats(None, None);
    }
    var violations := doc.violations.GetOr([]);
    var counts := CountImpacts(violations);
    stats := Stats(Some(|violations|), Some(counts));
  }

  /** How many impacts have key `k`: the reference the counts are checked against. */
  function Occurrences(impacts: seq<Field>, k: string): nat {
    Count(ImpactKeys(impacts), k)
  }

  function Count(ks: seq<string>, k: string): nat {
    if ks == [] then 0 else Count(ks[..|ks| - 1], k) + (if ks[|ks| - 1] == k then 1 else 0)
  }

  function Sum(c: Counts): nat {
    if c == [] then 0 else c[0].1 + Sum(c[1..])
  }

  lemma {:induction false} BumpLookup(c: Counts, k: string, k': string)
    ensures Lookup(Bump(c, k), k') == Lookup(c, k') + (if k == k' then 1 else 0)
  {
    if c != [] && c[0].0 != k {
      BumpLookup(c[1..], k, k');
    }
  }

  lemma {:induction false} BumpSum(c: Counts, k: string)
    ensures Sum(Bump(c, k)) == Sum(c) + 1
  {
    if c != [] && c[0].0 != k {
      BumpSum(c[1..], k);
    }
  }

  lemma {:induction false} BumpKeys(c: Counts, k: string)
    ensures k in KeysOf(Bump(c, k))
    ensures forall x :: x in KeysOf(Bump(c, k)) <==> x in KeysOf(c) || x == k
    ensures KeysOf(c) <= KeysOf(Bump(c, k))
  {
    if c != [] && c[0].0 != k {
      BumpKeys(c[1..], k);
    }
  }

  lemma {:induction false} LookupZeros(ks: seq<string>, k: string)
    ensures Lookup(Zeros(ks), k) == 0
  {
    if ks != [] {
      assert Zeros(ks)[1..] == Zeros(ks[1..]);
      LookupZeros(ks[1..], k);
    }
  }

  lemma {:induction false} TallyFromCounts(start: Counts, ks: seq<string>, k: string)
    ensures Lookup(TallyFrom(start, ks), k) == Lookup(start, k) + Count(ks, k)
    ensures Sum(TallyFrom(start, ks)) == Sum(start) + |ks|
  {
    if ks != [] {
      var init := ks[..|ks| - 1];
      TallyFromCounts(start, init, k);
      BumpLookup(TallyFrom(start, init), ks[|ks| - 1], k);
      BumpSum(TallyFrom(start, init), ks[|ks| - 1]);
    }
  }

  lemma {:induction false} SumZeros(ks: seq<string>)
    ensures Sum(Zeros(ks)) == 0
  {
    if ks != [] {
      assert Zeros(ks)[1..] == Zeros(ks[1..]);
      SumZeros(ks[1..]);
    }
  }

  /** Every impact is counted under its lower-cased key, an absent or empty
      one under `unknown`, and the counts add up to the number of violations. */
  lemma TallyCounts(impacts: seq<Field>, k: string)
    ensures Lookup(Tally(impacts), k) == Occurrences(impacts, k)
    ensures Sum(Tally(impacts)) == |impacts|
  {
    TallyFromCounts(InitialCounts, ImpactKeys(impacts), k);
    LookupZeros(CountKeys, k);
    SumZeros(CountKeys);
  }

  lemma {:induction false} TallyFromKeys(start: Counts, ks: seq<string>)
    ensures KeysOf(start) <= KeysOf(TallyFrom(start, ks))
    ensures forall x :: x in KeysOf(TallyFrom(start, ks)) <==> x in KeysOf(start) || x in ks
  {
    if ks != [] {
      var init, last := ks[..|ks| - 1], ks[|ks| - 1];
      var before := TallyFrom(start, init);
      TallyFromKeys(start, init);
      BumpKeys(before, last);
      assert TallyFrom(start, ks) == Bump(before, last);
      forall x
        ensures x in KeysOf(TallyFrom(start, ks)) <==> x in KeysOf(start) || x in ks
      {
        SnocMember(ks, x);
      }
    }
  }

  /** The five initial keys come first, and any other key is present exactly
      when some impact has it: an unrecognised impact gets a key of its own. */
  lemma TallyKeys(impacts: seq<Field>)
    ensures KeysOf(Tally(impacts))[..5] == CountKeys
    ensures forall x :: x in KeysOf(Tally(impacts)) <==> x in CountKeys || x in ImpactKeys(impacts)
  {
    TallyFromKeys(InitialCounts, ImpactKeys(impacts));
    assert KeysOf(InitialCounts) == CountKeys;
  }

  /** The report engine folds an unrecognised impact into `unknown`; the
      dashboard counts it under its own key, which no pill shows. */
  lemma UnrecognisedImpactsDiffer()
    ensures Engine.Bucket(Str("blocker")) == "unknown"
    ensures var c := Tally([Str("blocker")]);
      Lookup(c, "blocker") == 1 && Lookup(c, "unknown") == 0
  {
    EngineFoldsBlocker();
    var impacts := [Str("blocker")];
    DashboardKeepsBlocker(impacts);
    TallyCounts(impacts, "blocker");
    TallyCounts(impacts, "unknown");
  }

  lemma EngineFoldsBlocker()
    ensures Engine.Bucket(Str("blocker")) == "unknown"
  {
    BlockerIsLower();
    var b := "blocker";
    assert b[0] == 'b';
    assert forall k :: 0 <= k < |Engine.Known| ==> Engine.Known[k][0] != 'b';
    Engine.UnrecognisedIsUnknown(Str(b));
  }

  lemma BlockerIsLower()
    ensures Lower("blocker") == "blocker"
  {
    Engine.NoCapsLower("blocker");
  }

  /** A single impact that is its own key is counted under that key only. */
  lemma SingleImpact(k: string, x: string)
    requires k != "" && Lower(k) == k
    ensures Occurrences([Str(k)], x) == if x == k then 1 else 0
  {
    var ks := ImpactKeys([Str(k)]);
    assert ks == [k];
    assert ks[..0] == [];
    assert Count(ks, x) == Count(ks[..0], x) + if k == x then 1 else 0;
  }

  lemma DashboardKeepsBlocker(impacts: seq<Field>)
    requires impacts == [Str("blocker")]
    ensures Occurrences(impacts, "blocker") == 1 && Occurrences(impacts, "unknown") == 0
  {
    BlockerIsLower();
    SingleImpact("blocker", "blocker");
    SingleImpact("blocker", "unknown");
    assert "blocker"[0] != "unknown"[0];
  }

  /* ---------------------------------------------------------------- */
  /* One row per report                                               */
  /* ---------------------------------------------------------------- */

  /** One `pill(label, cls, value)`; label and class are the same word. */
  datatype Pill = Pill(caption: string, value: nat)

  datatype Breakdown = Pills(pills: seq<Pill>) | NotAvailable

  /** The severity cell: four pills, each `counts[k] ?? 0`, or "n/a". */
  function BreakdownOf(s: Stats): Breakdown {
    match s.counts
    case None => NotAvailable
    case Some(c) => Pills([Pill("critical", Lookup(c, "critical")), Pill("serious", Lookup(c, "serious")),
                           Pill("moderate", Lookup(c, "moderate")), Pill("minor", Lookup(c, "minor"))])
  }

  /** The violations cell: the total, or "n/a". */
  function ViolationsCell(s: Stats): string {
    if s.total.None? then "n/a" else NatToString(s.total.value)
  }

  /** A report that cannot be read shows "n/a" in both cells. */
  lemma UnreadableShowsNa()
    ensures ViolationsCell(StatsOf(Unreadable)) == "n/a" && BreakdownOf(StatsOf(Unreadable)) == NotAvailable
  {
  }

  /** A readable report shows the four pills in order, each with the number
      of its violations; `unknown` and other keys are never shown. */
  lemma {:induction false} PillsCountImpacts(impacts: seq<Field>)
    ensures BreakdownOf(StatsOf(Parsed(Some(impacts)))) ==
      Pills([Pill("critical", Occurrences(impacts, "critical")), Pill("serious", Occurrences(impacts, "serious")),
             Pill("moderate", Occurrences(impacts, "moderate")), Pill("minor", Occurrences(impacts, "minor"))])
  {
    TallyCounts(impacts, "critical");
    TallyCounts(impacts, "serious");
    TallyCounts(impacts, "moderate");
    TallyCounts(impacts, "minor");
  }

  function Shown(impacts: seq<Field>): nat {
    Occurrences(impacts, "critical") + Occurrences(impacts, "serious") +
    Occurrences(impacts, "moderate") + Occurrences(impacts, "minor")
  }

  /** The pills never add up to more than the violations cell. */
  lemma {:induction false} PillsAtMostTotal(impacts: seq<Field>)
    ensures Shown(impacts) <= |impacts|
  {
    if impacts != [] {
      PillsAtMostTotal(impacts[..|impacts| - 1]);
    }
  }

  /** `/^\d{4}-\d{2}-\d{2}_\d{6}_/`. */
  predicate StampPrefixed(s: string) {
    |s| >= 18 && AllDigits(s[0..4]) && s[4] == '-' && AllDigits(s[5..7]) && s[7] == '-' &&
    AllDigits(s[8..10]) && s[10] == '_' && AllDigits(s[11..17]) && s[17] == '_'
  }

  /** The page label: the stamp prefix and then an `_a11y` suffix removed. */
  function PageLabel(base: string): string {
    var s := if StampPrefixed(base) then base[18..] else base;
    if EndsWith(s, "_a11y") then s[..|s| - 5] else s
  }

  /** `name.replace(/\.json$/i, "")`. */
  function DropJsonExt(name: string): string {
    if |name| >= 5 && Lower(name[|name| - 5..]) == ".json" then name[..|name| - 5] else name
  }

  /** `f.endsWith("_a11y.json")`. */
  predicate IsReportJson(name: string) {
    EndsWith(name, "_a11y.json")
  }

  /** `fs.readdirSync(monthPath).filter(...)`: the names of the listed
      entries that end in `_a11y.json`, in listing order; every such entry is
      kept, whatever its kind. */
  function ReportNames(es: seq<DirEntry>): (r: seq<string>)
    ensures forall x :: x in r <==> IsReportJson(x) && exists e :: e in es && e.name == x
    ensures |r| <= |es|
  {
    if es == [] then []
    else
      var init := ReportNames(es[..|es| - 1]);
      assert forall e :: e in es <==> e in es[..|es| - 1] || e == es[|es| - 1];
      init + (if IsReportJson(es[|es| - 1].name) then [es[|es| - 1].name] else [])
  }

  /** A link relative to `reports/`. */
  function Link(f: RunFolder, file: string): string {
    f.year + "/" + f.month + "/" + file
  }

  /** One `<tr>`, with the values as escaped into it. */
  datatype DashRow = DashRow(page: string, violations: string, breakdown: Breakdown,
                             html: string, csv: string, json: string)

  function RowOf(f: RunFolder, jsonFile: string, stats: Stats): DashRow {
    var base := DropJsonExt(jsonFile);
    DashRow(Esc(PageLabel(base)), Esc(ViolationsCell(stats)), BreakdownOf(stats),
            Esc(Link(f, base + ".html")), Esc(Link(f, base + ".csv")), Esc(Link(f, jsonFile)))
  }

  function RowsOf(f: RunFolder, files: seq<string>, readJson: string -> JsonDoc): (r: seq<DashRow>)
    ensures |r| == |files|
  {
    if files == [] then []
    else RowsOf(f, files[..|files| - 1], readJson) +
         [RowOf(f, files[|files| - 1], StatsOf(readJson(f.monthPath + "/" + files[|files| - 1])))]
  }

  /** The page, with its escaped title. */
  datatype Dashboard = Dashboard(title: string, rows: seq<DashRow>)

  function Title(f: RunFolder): string {
    "a11y-scan dashboard (" + f.year + "/" + f.month + ")"
  }

  /** What `main` builds, or `None` where it exits with status 1. */
  function DashboardOf(root: string, rootExists: bool, listing: string -> seq<DirEntry>,
                       readJson: string -> JsonDoc): Option<(RunFolder, Dashboard)>
  {
    if !rootExists then None
    else match FindNewestRunFolder(root, listing)
      case None => None
      case Some(f) =>
        var files := ReportNames(listing(f.monthPath));
        if files == [] then None
        else Some((f, Dashboard(Esc(Title(f)), RowsOf(f, Sort(files), readJson))))
  }

  lemma RowsOfStep(f: RunFolder, files: seq<string>, i: nat, readJson: string -> JsonDoc)
    requires i < |files|
    ensures RowsOf(f, files[..i + 1], readJson) ==
      RowsOf(f, files[..i], readJson) + [RowOf(f, files[i], StatsOf(readJson(f.monthPath + "/" + files[i])))]
  {
    assert files[..i + 1][..i] == files[..i];
  }

  /** The rows of the sorted report files, each with the stats `parseStats` reads. */
  method BuildRows(f: RunFolder, sorted: seq<string>, readJson: string -> JsonDoc) returns (rows: seq<DashRow>)
    ensures rows == RowsOf(f, sorted, readJson)
  {
    rows := [];
    var i := 0;
    while i < |sorted|
      invariant 0 <= i <= |sorted|
      invariant rows == RowsOf(f, sorted[..i], readJson)
    {
      var jsonFile := sorted[i];
      var stats := ParseStats(readJson(f.monthPath + "/" + jsonFile));
      RowsOfStep(f, sorted, i, readJson);
      rows := rows + [RowOf(f, jsonFile, stats)];
      i := i + 1;
    }
    assert sorted[..|sorted|] == sorted;
  }

  lemma TwoWrites(w: seq<string>, a: string, b: string)
    ensures w + [a] + [b] == w + [a, b]
  {
  }

  /** `main`: the same page goes to the month folder and to the root index. */
  method BuildIndex(store: FileStore<Dashboard>, root: string, rootExists: bool,
                    listing: string -> seq<DirEntry>, readJson: string -> JsonDoc)
    returns (exitCode: int)
    modifies store
    ensures exitCode == (if DashboardOf(root, rootExists, listing, readJson).None? then 1 else 0)
    ensures exitCode == 1 ==> store.files == old(store.files) && store.writes == old(store.writes)
    ensures exitCode == 0 ==>
      var (f, page) := DashboardOf(root, rootExists, listing, readJson).value;
      store.writes == old(store.writes) + [f.monthPath + "/index.html", root + "/index.html"] &&
      store.files == old(store.files)[f.monthPath + "/index.html" := page][root + "/index.html" := page]
  {
    if !rootExists {
      return 1;
    }
    var newest := FindNewestRunFolder(root, listing);
    if newest.None? {
      return 1;
    }
    var f := newest.value;
    var jsonFiles := ReportNames(listing(f.monthPath));
    if |jsonFiles| == 0 {
      return 1;
    }
    var rows := BuildRows(f, Sort(jsonFiles), readJson);
    var html := Dashboard(Esc(Title(f)), rows);
    assert DashboardOf(root, rootExists, listing, readJson) == Some((f, html));
    var monthIndex, rootIndex := f.monthPath + "/index.html", root + "/index.html";
    var before := store.writes;
    store.Write(monthIndex, html);
    store.Write(rootIndex, html);
    TwoWrites(before, monthIndex, rootIndex);
    exitCode := 0;
  }

  /** Row `i` is the row of file `i`, with the stats read from that file. */
  lemma {:induction false} RowsOfAt(f: RunFolder, files: seq<string>, readJson: string -> JsonDoc, i: nat)
    requires i < |files|
    ensures RowsOf(f, files, readJson)[i] == RowOf(f, files[i], StatsOf(readJson(f.monthPath + "/" + files[i])))
  {
    if i < |files| - 1 {
      RowsOfAt(f, files[..|files| - 1], readJson, i);
    }
  }

  /** The rows follow the report files in sorted name order, one each, and
      every listed file is a `*_a11y.json` report of the newest folder. */
  lemma RowsFollowSortedReports(root: string, listing: string -> seq<DirEntry>, readJson: string -> JsonDoc)
    requires DashboardOf(root, true, listing, readJson).Some?
    ensures var (f, page) := DashboardOf(root, true, listing, readJson).value;
      var files := Sort(ReportNames(listing(f.monthPath)));
      |page.rows| == |files| && Sorted(files) &&
      multiset(files) == multiset(ReportNames(listing(f.monthPath))) &&
      forall i :: 0 <= i < |files| ==>
        IsReportJson(files[i]) &&
        page.rows[i] == RowOf(f, files[i], StatsOf(readJson(f.monthPath + "/" + files[i])))
  {
    var (f, page) := DashboardOf(root, true, listing, readJson).value;
    var names := ReportNames(listing(f.monthPath));
    var files := Sort(names);
    SortSorted(names);
    forall i | 0 <= i < |files|
      ensures IsReportJson(files[i])
      ensures page.rows[i] == RowOf(f, files[i], StatsOf(readJson(f.monthPath + "/" + files[i])))
    {
      assert files[i] in multiset(names);
      RowsOfAt(f, files, readJson, i);
    }
  }

  /* ---------------------------------------------------------------- */
  /* The label and links of an engine report                          */
  /* ---------------------------------------------------------------- */

  lemma {:induction false} StampShape(y: string, mo: string, d: string, h: string, mi: string, s: string)
    requires |y| == 4 && |mo| == 2 && |d| == 2 && |h| == 2 && |mi| == 2 && |s| == 2
    requires AllDigits(y) && AllDigits(mo) && AllDigits(d) && AllDigits(h) && AllDigits(mi) && AllDigits(s)
    ensures var t := y + "-" + mo + "-" + d + "_" + h + mi + s;
      |t| == 17 && AllDigits(t[0..4]) && t[4] == '-' && AllDigits(t[5..7]) && t[7] == '-' &&
      AllDigits(t[8..10]) && t[10] == '_' && AllDigits(t[11..17])
  {
    var t := y + "-" + mo + "-" + d + "_" + h + mi + s;
    assert t[0..4] == y;
    assert t[5..7] == mo;
    assert t[8..10] == d;
    assert t[11..17] == h + mi + s;
  }

  lemma {:induction false} LabelOfParts(ts: string, slug: string)
    requires |ts| == 17 && AllDigits(ts[0..4]) && ts[4] == '-' && AllDigits(ts[5..7]) && ts[7] == '-' &&
             AllDigits(ts[8..10]) && ts[10] == '_' && AllDigits(ts[11..17])
    ensures PageLabel(ts + "_" + slug + "_a11y") == slug
  {
    var b := ts + "_" + slug + "_a11y";
    assert b[0..4] == ts[0..4] && b[5..7] == ts[5..7] && b[8..10] == ts[8..10] && b[11..17] == ts[11..17];
    assert StampPrefixed(b);
    var s := b[18..];
    assert s == slug + "_a11y";
    assert s[|s| - 5..] == "_a11y";
    assert s[..|s| - 5] == slug;
  }

  /** The label of an engine report is exactly the slug of its host: the
      label strips what the engine's naming adds around it. */
  lemma LabelOfEngineReport(now: Engine.Clock, p: Engine.ParsedUrl)
    ensures PageLabel(Engine.BaseName(now, p)) == Engine.Slugify(Engine.HostOf(p))
  {
    StampShape(Padded(now.year, 4), Padded(now.month, 2), Padded(now.day, 2),
               Padded(now.hour, 2), Padded(now.minute, 2), Padded(now.second, 2));
    LabelOfParts(Engine.Timestamp(now), Engine.Slugify(Engine.HostOf(p)));
  }

  lemma JsonExtLower()
    ensures Lower(".json") == ".json"
  {
    Engine.NoCapsLower(".json");
  }

  /** A name made of a stem, `_a11y` and `.json` is listed, and its base is the stem with `_a11y`. */
  lemma {:induction false} ReportJsonName(stem: string)
    ensures IsReportJson(stem + "_a11y.json")
    ensures DropJsonExt(stem + "_a11y.json") == stem + "_a11y"
  {
    var n := stem + "_a11y.json";
    assert n[|n| - 10..] == "_a11y.json";
    assert n[|n| - 5..] == ".json";
    assert n[..|n| - 5] == stem + "_a11y";
    JsonExtLower();
  }

  /** The row of a listed report in a month folder: label from the base,
      links to the report and its siblings under the folder. */
  lemma {:induction false} RowOfReport(y: string, m: string, stem: string, stats: Stats)
    ensures var f := RunFolder(y, m, "reports/" + y + "/" + m);
      var n := stem + "_a11y.json";
      var row := RowOf(f, n, stats);
      IsReportJson(n) &&
      row.page == Esc(PageLabel(stem + "_a11y")) &&
      "reports/" + Link(f, n) == f.monthPath + "/" + n &&
      row.json == Esc(Link(f, n)) &&
      row.html == Esc(Link(f, stem + "_a11y" + ".html")) &&
      row.csv == Esc(Link(f, stem + "_a11y" + ".csv"))
  {
    ReportJsonName(stem);
    var n := stem + "_a11y.json";
    assert "reports/" + (y + "/" + m + "/" + n) == ("reports/" + y + "/" + m) + "/" + n;
  }

  lemma JsonSuffix(stem: string)
    ensures stem + "_a11y" + ".json" == stem + "_a11y.json"
  {
  }

  /** An engine report is listed, its label is the slug of its host, and its
      row links to the engine's dated HTML, CSV and JSON files when the folder
      is the one of its month. */
  lemma LinksReachEngineFiles(now: Engine.Clock, p: Engine.ParsedUrl, stats: Stats)
    ensures var r := Engine.BuildReportPaths(p, now);
      var f := RunFolder(Padded(now.year, 4), Padded(now.month, 2), Engine.DatedDir(now));
      var row := RowOf(f, r.datedJson.name, stats);
      IsReportJson(r.datedJson.name) &&
      row.page == Esc(Engine.Slugify(Engine.HostOf(p))) &&
      "reports/" + Link(f, r.datedJson.name) == r.datedJson.Full() &&
      row.json == Esc(Link(f, r.datedJson.name)) &&
      row.html == Esc(Link(f, r.datedHtml.name)) && row.csv == Esc(Link(f, r.datedCsv.name))
  {
    var stem := Engine.Timestamp(now) + "_" + Engine.Slugify(Engine.HostOf(p));
    assert Engine.BaseName(now, p) == stem + "_a11y";
    JsonSuffix(stem);
    RowOfReport(Padded(now.year, 4), Padded(now.month, 2), stem, stats);
    LabelOfEngineReport(now, p);
  }
}

/** The bookkeeping of the TypeScript scanner (`scan.spec.ts`): loading the
    target list, the domain and file-name helpers, and the loop that turns
    each target's outcome into CSV/HTML rows and one scan record.

    Driving the browser and running axe-core are not modelled: what the
    scan of one target gave is an input (`PageOutcome`), as are the parsed
    `urls.json`, the host name `new URL` gives and the text `JSON.stringify`
    gives for a thrown value. */
module ScanSpec {
  import opened Wrappers
  import opened Text
  import opened SlugText
  import opened CsvReport
  import Engine

  datatype Target = Target(name: string, url: string)

  const TargetsError := "urls.json must include a non-empty targets[] array"

  /** `loadTargets`, given the `targets` member of the parsed file (`None`
      when it is missing). */
  function LoadTargets(targets: Option<seq<Target>>): (r: Result<seq<Target>, string>)
    ensures r.Ok? <==> targets.Some? && targets.value != []
    ensures r.Ok? ==> r.value == targets.value
    ensures r.Err? ==> r.error == TargetsError
  {
    if targets.None? || |targets.value| == 0 then Err(TargetsError) else Ok(targets.value)
  }

  /** `getDomain`, given the host name `new URL(url)` gives, or `None` when
      it throws: one leading `www.` is removed. */
  function GetDomain(host: Option<string>): (r: string)
  {
    match host
    case None => "unknown-domain"
    case Some(h) => if StartsWith(h, "www.") then h[4..] else h
  }

  /** The domain is the host name without its first `www.`: putting one back
      gives the host name, and only one is removed. */
  lemma GetDomainStripsOneWww(h: string)
    ensures GetDomain(Some("www." + h)) == h
    ensures StartsWith(h, "www.") ==> GetDomain(Some("www." + h)) == "www." + h[4..]
    ensures !StartsWith(h, "www.") ==> GetDomain(Some(h)) == h
  {
    assert ("www." + h)[..4] == "www.";
    assert ("www." + h)[4..] == h;
  }

  /** A host name that cannot be parsed gives the fixed placeholder. */
  lemma GetDomainFallback()
    ensures GetDomain(None) == "unknown-domain"
  {
  }

  /** `slugify`: lower-case, every run of characters other than `a-z0-9`
      replaced by one hyphen, then one hyphen removed at each end. */
  function TsSlugify(input: string): (r: string)
    ensures SlugShaped(r)
  {
    OneHyphenEachEndSuffices(ReplaceRuns(Lower(input)));
    StripOneHyphenEachEnd(ReplaceRuns(Lower(input)))
  }

  /** Unlike the report engine's `slugify` there is no fallback: text without
      a letter or digit gives the empty slug, where the engine gives "report". */
  lemma TsSlugifyMayBeEmpty()
    ensures TsSlugify("!") == ""
    ensures Engine.Slugify("!") == "report"
  {
    assert Lower("!") == "!";
    assert ReplaceRuns("!") == "-";
    assert Trim("!") == "!";
    assert CollapseHyphens("-") == "-";
    assert StripHyphens("-") == "";
  }

  /** Apart from that fallback the two slug functions agree on text without
      surrounding white space. */
  lemma SlugifiesAgree(s: string)
    requires Trim(s) == s
    ensures Engine.Slugify(s) == if TsSlugify(s) == "" then "report" else TsSlugify(s)
  {
    var t := ReplaceRuns(Lower(s));
    assert CollapseHyphens(t) == t;
    OneHyphenEachEndSuffices(t);
  }

  /** A slug is its own slug. */
  lemma TsSlugifyIdempotent(s: string)
    ensures TsSlugify(TsSlugify(s)) == TsSlugify(s)
  {
    var r := TsSlugify(s);
    Engine.LowerOfSlugShaped(r);
    ReplaceRunsFixed(r);
    OneHyphenEachEndSuffices(r);
    assert StripHyphens(r) == r;
  }

  /** The screenshot file of a target, relative to the report directory. */
  function ScreenshotFile(domain: string, name: string): string {
    "screenshots/" + TsSlugify(domain + "-" + name) + ".png"
  }

  /* ---------------------------------------------------------------- */
  /* Outcomes of one target                                           */
  /* ---------------------------------------------------------------- */

  /** A thrown value: an `Error`, or another value that `JSON.stringify`
      turns into a text (`None` for `undefined`) or that it cannot turn into
      a text, in which case `String(err)` is used. */
  datatype Thrown = ErrorObject(message: string) | Serialisable(json: Option<string>) | Unserialisable(text: string)

  /** `toErrorMessage`; `None` is `undefined`. */
  function ErrorMessage(err: Thrown): Option<string> {
    match err
    case ErrorObject(m) => Some(m)
    case Serialisable(j) => j
    case Unserialisable(t) => Some(t)
  }

  /** One entry of axe's `violations`; `None` is an absent or null member,
      and `nodes` is the length of the node list. */
  datatype AxeViolation = AxeViolation(id: string, impact: Option<string>, description: Option<string>,
                                       help: Option<string>, helpUrl: Option<string>, nodes: Option<nat>)

  /** The result object of `axe.run`. */
  datatype AxeResults = AxeResults(violations: Option<seq<AxeViolation>>)

  /** What happened to one target: the scan ran to its end, or something in
      the `try` block threw. A failed screenshot is recorded either way. */
  datatype PageOutcome =
    | Scanned(shotError: Option<Thrown>, results: AxeResults)
    | Raised(shotError: Option<Thrown>, err: Thrown)

  /** Everything the loop learns from outside about one target. */
  datatype TargetRun = TargetRun(host: Option<string>, outcome: PageOutcome)

  /** The object pushed to `allResults`. */
  datatype ScanRecord = ScanRecord(pageName: string, url: string, domain: string, generatedAt: string,
                                   ok: bool, error: Option<string>, results: Option<AxeResults>,
                                   screenshotError: Option<string>)

  const ScanErrorId := "SCAN_ERROR"
  const ScanErrorHelp := "This page could not be scanned. See error details in description."

  /** The row of one violation found on a page. */
  function SuccessRow(domain: string, t: Target, file: string, v: AxeViolation): ViolationRow {
    ViolationRow(domain, t.name, t.url, v.impact.GetOr("unknown"), v.id, v.description.GetOr(""),
                 v.help.GetOr(""), v.helpUrl.GetOr(""), v.nodes.GetOr(0), Some(file))
  }

  function SuccessRows(domain: string, t: Target, file: string, vs: seq<AxeViolation>): (r: seq<ViolationRow>)
    ensures |r| == |vs|
  {
    if vs == [] then [] else SuccessRows(domain, t, file, vs[..|vs| - 1]) + [SuccessRow(domain, t, file, vs[|vs| - 1])]
  }

  /** The row that stands for a page that could not be scanned. */
  function ErrorRow(domain: string, t: Target, file: string, message: Option<string>): ViolationRow {
    ViolationRow(domain, t.name, t.url, "error", ScanErrorId, message.GetOr("Unknown scan error"),
                 ScanErrorHelp, "", 0, Some(file))
  }

  /** The rows one target adds. */
  function TargetRows(t: Target, r: TargetRun): seq<ViolationRow> {
    var domain := GetDomain(r.host);
    var file := ScreenshotFile(domain, t.name);
    match r.outcome
    case Scanned(_, res) => SuccessRows(domain, t, file, res.violations.GetOr([]))
    case Raised(_, err) => [ErrorRow(domain, t, file, ErrorMessage(err))]
  }

  /** `screenshot_error`: absent when the screenshot was taken, and the
      thrown value's message otherwise; a message that is `undefined` leaves
      the key out of the serialised record, as an absent key does. */
  function ShotMessage(e: Option<Thrown>): Option<string> {
    match e
    case None => None
    case Some(x) => ErrorMessage(x)
  }

  /** The record one target adds. */
  function TargetRecord(t: Target, r: TargetRun, generatedAt: string): ScanRecord {
    var domain := GetDomain(r.host);
    match r.outcome
    case Scanned(se, res) => ScanRecord(t.name, t.url, domain, generatedAt, true, None, Some(res), ShotMessage(se))
    case Raised(se, err) => ScanRecord(t.name, t.url, domain, generatedAt, false, ErrorMessage(err), None, ShotMessage(se))
  }

  /** All rows, target by target. */
  function AllRows(ts: seq<Target>, rs: seq<TargetRun>): seq<ViolationRow>
    requires |ts| == |rs|
  {
    if ts == [] then []
    else AllRows(ts[..|ts| - 1], rs[..|rs| - 1]) + TargetRows(ts[|ts| - 1], rs[|rs| - 1])
  }

  function AllRecords(ts: seq<Target>, rs: seq<TargetRun>, generatedAt: string): (r: seq<ScanRecord>)
    requires |ts| == |rs|
    ensures |r| == |ts|
  {
    if ts == [] then []
    else AllRecords(ts[..|ts| - 1], rs[..|rs| - 1], generatedAt) + [TargetRecord(ts[|ts| - 1], rs[|rs| - 1], generatedAt)]
  }

  /** The inner loop over `results.violations ?? []`. */
  method PushViolations(csvRows: seq<ViolationRow>, domain: string, t: Target, file: string, vs: seq<AxeViolation>)
    returns (rows: seq<ViolationRow>)
    ensures rows == csvRows + SuccessRows(domain, t, file, vs)
  {
    rows := csvRows;
    var k := 0;
    while k < |vs|
      invariant 0 <= k <= |vs|
      invariant rows == csvRows + SuccessRows(domain, t, file, vs[..k])
    {
      var v := vs[k];
      assert vs[..k + 1][..k] == vs[..k];
      rows := rows + [ViolationRow(domain, t.name, t.url, v.impact.GetOr("unknown"), v.id,
                                   v.description.GetOr(""), v.help.GetOr(""), v.helpUrl.GetOr(""),
                                   v.nodes.GetOr(0), Some(file))];
      k := k + 1;
    }
    assert vs[..|vs|] == vs;
  }

  /** The body of the loop for one target: its rows are appended to
      `csvRows`, and its record is returned. */
  method ScanTarget(csvRows: seq<ViolationRow>, t: Target, run: TargetRun, generatedAt: string)
    returns (rows: seq<ViolationRow>, record: ScanRecord)
    ensures rows == csvRows + TargetRows(t, run)
    ensures record == TargetRecord(t, run, generatedAt)
  {
    var domain := GetDomain(run.host);
    var file := "screenshots/" + TsSlugify(domain + "-" + t.name) + ".png";
    assert file == ScreenshotFile(domain, t.name);
    record := ScanRecord(t.name, t.url, domain, generatedAt, true, None, None, None);
    match run.outcome {
      case Scanned(se, res) =>
        if se.Some? {
          record := record.(screenshotError := ErrorMessage(se.value));
        }
        record := record.(results := Some(res));
        rows := PushViolations(csvRows, domain, t, file, res.violations.GetOr([]));
      case Raised(se, err) =>
        if se.Some? {
          record := record.(screenshotError := ErrorMessage(se.value));
        }
        record := record.(ok := false);
        record := record.(error := ErrorMessage(err));
        rows := csvRows + [ViolationRow(domain, t.name, t.url, "error", "SCAN_ERROR",
                                        record.error.GetOr("Unknown scan error"), ScanErrorHelp, "", 0, Some(file))];
    }
  }

  /** The screenshot is best effort: a failed one adds its message to the
      record and changes nothing else, neither the rows nor whether the scan
      succeeded. The record shows no screenshot error exactly when the
      screenshot was taken or the thrown value's message is `undefined`. */
  lemma ScreenshotIsBestEffort(t: Target, r: TargetRun, generatedAt: string)
    ensures var plain := r.(outcome := r.outcome.(shotError := None));
      TargetRows(t, r) == TargetRows(t, plain) &&
      TargetRecord(t, r, generatedAt) ==
        TargetRecord(t, plain, generatedAt).(screenshotError := ShotMessage(r.outcome.shotError))
    ensures TargetRecord(t, r, generatedAt).screenshotError.None? <==>
      r.outcome.shotError.None? || r.outcome.shotError.value == Serialisable(None)
    ensures r.outcome.shotError.Some? && r.outcome.shotError.value.ErrorObject? ==>
      TargetRecord(t, r, generatedAt).screenshotError == Some(r.outcome.shotError.value.message)
  {
  }

  lemma TargetsStep(ts: seq<Target>, rs: seq<TargetRun>, generatedAt: string, i: nat)
    requires |ts| == |rs| && i < |ts|
    ensures AllRows(ts[..i + 1], rs[..i + 1]) == AllRows(ts[..i], rs[..i]) + TargetRows(ts[i], rs[i])
    ensures AllRecords(ts[..i + 1], rs[..i + 1], generatedAt) ==
      AllRecords(ts[..i], rs[..i], generatedAt) + [TargetRecord(ts[i], rs[i], generatedAt)]
  {
    assert ts[..i + 1][..i] == ts[..i] && rs[..i + 1][..i] == rs[..i];
  }

  /** The test body's loop over the targets: every target adds its rows to
      `csvRows` and its record, mutated as the scan goes, to `allResults`. */
  method ScanTargets(targets: seq<Target>, runs: seq<TargetRun>, generatedAt: string)
    returns (csvRows: seq<ViolationRow>, allResults: seq<ScanRecord>)
    requires |runs| == |targets|
    ensures csvRows == AllRows(targets, runs)
    ensures allResults == AllRecords(targets, runs, generatedAt)
  {
    csvRows, allResults := [], [];
    var i := 0;
    while i < |targets|
      invariant 0 <= i <= |targets|
      invariant csvRows == AllRows(targets[..i], runs[..i])
      invariant allResults == AllRecords(targets[..i], runs[..i], generatedAt)
    {
      TargetsStep(targets, runs, generatedAt, i);
      var record;
      csvRows, record := ScanTarget(csvRows, targets[i], runs[i], generatedAt);
      allResults := allResults + [record];
      i := i + 1;
    }
    assert targets[..|targets|] == targets && runs[..|runs|] == runs;
  }

  /* ---------------------------------------------------------------- */
  /* Properties                                                       */
  /* ---------------------------------------------------------------- */

  /** One record per target, in target order, failed exactly when the scan threw. */
  lemma {:induction false} RecordsFollowTargets(ts: seq<Target>, rs: seq<TargetRun>, generatedAt: string, i: nat)
    requires |ts| == |rs| && i < |ts|
    ensures var rec := AllRecords(ts, rs, generatedAt)[i];
      rec.pageName == ts[i].name && rec.url == ts[i].url && rec.domain == GetDomain(rs[i].host) &&
      rec.generatedAt == generatedAt &&
      (rec.ok <==> rs[i].outcome.Scanned?) &&
      (!rec.ok ==> rec.error == ErrorMessage(rs[i].outcome.err) && rec.results == None)
  {
    if i < |ts| - 1 {
      RecordsFollowTargets(ts[..|ts| - 1], rs[..|rs| - 1], generatedAt, i);
    }
  }

  /** A completed scan adds one row per violation, with the defaults for
      absent members; a page without violations adds none. */
  lemma {:induction false} SuccessRowsAt(domain: string, t: Target, file: string, vs: seq<AxeViolation>, k: nat)
    requires k < |vs|
    ensures var row := SuccessRows(domain, t, file, vs)[k];
      row.id == vs[k].id && row.impact == vs[k].impact.GetOr("unknown") &&
      row.nodes == vs[k].nodes.GetOr(0) && row.domain == domain && row.pageName == t.name && row.url == t.url
  {
    if k < |vs| - 1 {
      SuccessRowsAt(domain, t, file, vs[..|vs| - 1], k);
    }
  }

  /** A failed scan adds exactly one row, the `SCAN_ERROR` row carrying the
      error message, or a fixed text when there is none. */
  lemma FailedScanRow(t: Target, r: TargetRun)
    requires r.outcome.Raised?
    ensures var rows := TargetRows(t, r);
      |rows| == 1 && rows[0].id == "SCAN_ERROR" && rows[0].impact == "error" && rows[0].nodes == 0 &&
      rows[0].description == ErrorMessage(r.outcome.err).GetOr("Unknown scan error") &&
      rows[0].url == t.url && rows[0].pageName == t.name
  {
  }

  function CountId(rows: seq<ViolationRow>, id: string): nat {
    if rows == [] then 0 else CountId(rows[..|rows| - 1], id) + (if rows[|rows| - 1].id == id then 1 else 0)
  }

  function Failures(rs: seq<TargetRun>): nat {
    if rs == [] then 0 else Failures(rs[..|rs| - 1]) + (if rs[|rs| - 1].outcome.Raised? then 1 else 0)
  }

  lemma {:induction false} CountIdConcat(a: seq<ViolationRow>, b: seq<ViolationRow>, id: string)
    ensures CountId(a + b, id) == CountId(a, id) + CountId(b, id)
    decreases |b|
  {
    if b == [] {
      assert a + b == a;
    } else {
      assert (a + b)[..|a + b| - 1] == a + b[..|b| - 1];
      CountIdConcat(a, b[..|b| - 1], id);
    }
  }

  lemma {:induction false} NoScanErrorAmongSuccesses(domain: string, t: Target, file: string, vs: seq<AxeViolation>)
    requires forall k :: 0 <= k < |vs| ==> vs[k].id != ScanErrorId
    ensures CountId(SuccessRows(domain, t, file, vs), ScanErrorId) == 0
  {
    if vs != [] {
      NoScanErrorAmongSuccesses(domain, t, file, vs[..|vs| - 1]);
    }
  }

  /** Axe never reports a rule named `SCAN_ERROR`. */
  predicate NoRuleNamedScanError(rs: seq<TargetRun>) {
    forall i :: 0 <= i < |rs| && rs[i].outcome.Scanned? && rs[i].outcome.results.violations.Some? ==>
      forall k :: 0 <= k < |rs[i].outcome.results.violations.value| ==>
        rs[i].outcome.results.violations.value[k].id != ScanErrorId
  }

  /** The warning's count of `SCAN_ERROR` rows is the number of targets that
      failed, as long as no rule of axe has that name. */
  lemma {:induction false} ScanErrorsCountFailures(ts: seq<Target>, rs: seq<TargetRun>)
    requires |ts| == |rs| && NoRuleNamedScanError(rs)
    ensures CountId(AllRows(ts, rs), ScanErrorId) == Failures(rs)
  {
    if ts != [] {
      var n := |ts| - 1;
      ScanErrorsCountFailures(ts[..n], rs[..n]);
      CountIdConcat(AllRows(ts[..n], rs[..n]), TargetRows(ts[n], rs[n]), ScanErrorId);
      var r := rs[n];
      match r.outcome {
        case Scanned(_, res) =>
          var domain := GetDomain(r.host);
          if res.violations.Some? {
            NoScanErrorAmongSuccesses(domain, ts[n], ScreenshotFile(domain, ts[n].name), res.violations.value);
          }
        case Raised(_, _) =>
          assert TargetRows(ts[n], r)[..0] == [];
      }
    }
  }
}

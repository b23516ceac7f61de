# a11y-scan, modelled in Dafny

a11y-scan runs accessibility scans of web pages with Playwright and axe-core.
It then turns the results into reports and dashboards. This project models the
bookkeeping around those scans and proves properties of it:

- **The report engine** (`engine.py`):
  - the `slugify` and naming rules of the dated and `latest.*` report paths
  - the five-bucket severity tally
  - the flattening of violations into CSV rows and the CSV column order
  - the structure and escaping of the HTML report
  - the dual write of JSON, HTML and CSV files at the end of `main`
- **The background worker** (`worker.py`): the status record rewritten to
  `status.json` after every change, its `starting → running → completed|failed`
  lifecycle, and the exit status.
- **The TypeScript scanner**:
  - `scan.spec.ts`: target loading, domain and slug helpers, and the
    per-target success/`SCAN_ERROR` rows and scan records
  - its CSV reporter (`toCsv.ts`), with a reader in the style of section 2 of
    RFC 4180 to state the round trip
  - its HTML reporter (`toHtml.ts`): grouping by domain, then by page, in
    first-occurrence order
- **The command-line and launcher scripts**:
  - the dashboard builder (`build-index.js`)
  - the `/api/scan` handler of the launcher (`server.js`)
  - the batch script (`scan-file.js`), which aborts on the first failure
  - the single-URL script (`scan.js`)

Everything that comes from outside is an input of the model. This covers:

- the browser and axe-core results
- the clock readings
- what listing a directory, reading a file or parsing JSON gives
- the host name a URL parser extracts
- how a child process ends: an exit code, possibly `null`, or a start error

Files that are written are a `Files.FileStore`. It is a class holding a map
from path to content and the sequence of paths written.

Modules, one per source file and a few shared ones:

| module | file | models |
|---|---|---|
| `Wrappers` | wrappers.dfy | `Option`, `Result` |
| `Text` | text.dfy | ASCII lower-casing, trimming, joining, `split(/\r?\n/)`, decimal text, subsequences |
| `SlugText` | slug_text.dfy | the regular-expression steps shared by both `slugify` functions |
| `Escaping` | escaping.dfy | the four-pass `esc` of `engine.py` and `build-index.js` |
| `Sorting` | sorting.dfy | `Array.prototype.sort` on names |
| `Files` | files.dfy | whole-file writes |
| `ChildProcess` | child.dfy | the promise around a child process that resolves on exit code 0 |
| `Rfc4180` | rfc4180.dfy | a reader of quoted and bare CSV fields |
| `Engine` | engine.dfy | `playwright-a11y-scanner/engine.py` |
| `Worker` | worker.dfy | `playwright-a11y-scanner/a11y-web/worker.py` |
| `CsvReport` | csv_report.dfy | `playwright-a11y-scanner/src/reporters/toCsv.ts` |
| `Grouping`, `HtmlReporter` | grouping.dfy, html_report.dfy | `playwright-a11y-scanner/src/reporters/toHtml.ts` |
| `ScanSpec` | scan_spec.dfy | `playwright-a11y-scanner/src/scan.spec.ts` |
| `DashboardIndex` | build_index.dfy | `scripts/build-index.js` |
| `Launcher` | server.dfy | `server.js` |
| `BatchScan` | scan_file.dfy | `scripts/scan-file.js` |
| `ScanCli` | scan_cli.dfy | `scripts/scan.js` |

Where the source mutates state step by step, the model is imperative and is
proved against a specification function:

- `severity_counts`, `flatten_violations_to_rows`, the loops of
  `render_html_report`, and `main`'s six writes
- the worker's status record, a class `Worker.RunDir`
- the grouping loops of `toHtml`
- the target loop of the scan test
- `parseStats` and the dashboard's two writes
- the `/api/scan` loop and the batch loop

`parseUrls` in `server.js` and `readUrls` in `scan-file.js` parse text the
same way, so one function, `Launcher.ParseUrls`, models both.

## Model

| member | source | states |
|---|---|---|
| `Engine.Slugify` | playwright-a11y-scanner/engine.py:14-18 | The slug is never empty and only holds `a-z`, `0-9` and `-`. It has no doubled hyphen and no hyphen at either end. |
| `Engine.SlugifyIdempotent` | playwright-a11y-scanner/engine.py:14-18 | Slugifying a slug gives the same slug. |
| `Engine.SlugifyFallback` | playwright-a11y-scanner/engine.py:14-18 | Text with no ASCII letter or digit gives `"report"`. |
| `Engine.Timestamp` | playwright-a11y-scanner/engine.py:37 | The `%Y-%m-%d_%H%M%S` stamp is always 17 characters long. |
| `Engine.BuildReportPaths` | playwright-a11y-scanner/engine.py:21-53 | The dated JSON, HTML and CSV files share the directory `reports/YYYY/MM`. They share the base `{stamp}_{slugify(netloc or path or "site")}_a11y` with their own extensions. The latest paths are `reports/latest.{json,html,csv}`. |
| `Engine.LatestPathsFixed` | playwright-a11y-scanner/engine.py:49-51 | The latest paths are the same for every URL and every time. |
| `Engine.SixPathsDistinct` | playwright-a11y-scanner/engine.py:45-51 | The six paths are pairwise different, so no write of `main` overwrites another. |
| `Engine.TimestampInjective` | playwright-a11y-scanner/engine.py:37 | Two valid clock readings with equal stamps are equal. |
| `Engine.DatedNamesSeparateSeconds` | playwright-a11y-scanner/engine.py:37-45 | Scans in different seconds get different dated JSON files, whatever their URLs. |
| `Engine.Bucket` | playwright-a11y-scanner/engine.py:59-61 | Every impact lands in one of the five buckets. |
| `Engine.SeverityCounts` | playwright-a11y-scanner/engine.py:56-63 | The result's keys are exactly critical, serious, moderate, minor and unknown. Each holds the number of violations in that bucket. |
| `Engine.SeverityTotal` | playwright-a11y-scanner/engine.py:56-63 | The five counts add up to the number of violations. |
| `Engine.OnlyFiveBuckets` | playwright-a11y-scanner/engine.py:57-62 | No violation is counted under any other name. |
| `Engine.BucketIgnoresCase` | playwright-a11y-scanner/engine.py:59 | An impact falls in the same bucket as its lower-cased form. |
| `Engine.UnrecognisedIsUnknown` | playwright-a11y-scanner/engine.py:59-61 | A missing, null, empty or unrecognised impact is counted as `unknown`. |
| `Engine.FlattenViolationsToRows` | playwright-a11y-scanner/engine.py:293-346 | The nested loops give exactly the rows of the reference definition `Rows`, for nodes whose targets are flat lists of selectors. |
| `Engine.RowCount` | playwright-a11y-scanner/engine.py:293-346 | The row count is the sum over violations of max(1, number of nodes), or 1 when there are no violations. |
| `Engine.RowsNeverEmpty` | playwright-a11y-scanner/engine.py:333-344 | Every scan yields at least one row. |
| `Engine.NoViolationsRow` | playwright-a11y-scanner/engine.py:333-344 | No violations gives exactly one row. It carries the URL and "No accessibility violations found", and every other field is empty. |
| `Engine.RowsCarryUrl` | playwright-a11y-scanner/engine.py:293-346 | Every row carries the scanned URL. |
| `Engine.RowOfNode` | playwright-a11y-scanner/engine.py:303-318 | Node `j` of violation `i` is the row at offset (rows of the earlier violations) + `j`. Its target is the node's selectors joined by a space, a vertical bar and a space and its snippet is the node's markup. |
| `Engine.RowOfNodelessViolation` | playwright-a11y-scanner/engine.py:320-331 | A violation without nodes has one row at its offset, with empty target and snippet. |
| `Engine.WriteCsv` | playwright-a11y-scanner/engine.py:349-355 | The header is url, rule_id, impact, description, help_url, target, snippet, with one record per row. |
| `Engine.WriteCsvReadsBack` | playwright-a11y-scanner/engine.py:349-355 | Reading record `i` back by column name gives row `i`, so header and record order agree. |
| `Engine.EscapeTargets` | playwright-a11y-scanner/engine.py:122-123 | The innermost loop escapes every selector of a node, in order. |
| `Engine.CollectTargets` | playwright-a11y-scanner/engine.py:120-123 | The loop over the sampled nodes gives their selectors, escaped, in order. |
| `Engine.BuildCard` | playwright-a11y-scanner/engine.py:114-144 | One iteration gives the card of the violation: its escaped fields with their defaults, and the escaped selectors of the first ten nodes. |
| `Engine.RenderHtmlReport` | playwright-a11y-scanner/engine.py:87-290 | The loops give exactly the report of the reference definition `Report`. |
| `Engine.ReportBadges` | playwright-a11y-scanner/engine.py:101-111 | There are exactly four badges, critical, serious, moderate and minor, each with its bucket's count. There is no `unknown` badge. |
| `Engine.ReportBody` | playwright-a11y-scanner/engine.py:113-150 | The total is the number of violations. The success block is shown exactly when there are none. Otherwise there is one card per violation, in input order. |
| `Engine.CardNoMarkup` | playwright-a11y-scanner/engine.py:114-125 | No text of a card holds a raw `<`, `>` or `"`. |
| `Engine.ReportNoMarkup` | playwright-a11y-scanner/engine.py:264-275 | The URL, the scan time and both download links are free of raw markup characters, and each card is the card of its violation. |
| `Engine.SampleIgnoresLaterNodes` | playwright-a11y-scanner/engine.py:121 | Nodes after the tenth never change the target sample. |
| `Engine.SamplePlaceholder` | playwright-a11y-scanner/engine.py:125 | A violation without nodes shows "(no targets provided)". |
| `Engine.WriteReports` | playwright-a11y-scanner/engine.py:405-413 | The six writes go dated JSON, HTML and CSV first, then the latest ones. Each path gets its content. |
| `Engine.RunMain` | playwright-a11y-scanner/engine.py:358-420 | Without a URL, or when the scan raises, the exit status is 1 and nothing is written. Otherwise the dated files and then the latest files are written. Both JSON files get `json_text`, both CSV files the same table, and each HTML file its own report. Nested shadow-DOM targets are outside the model. |
| `Engine.DualWriteContents` | playwright-a11y-scanner/engine.py:398-413 | After the six writes, dated and latest JSON hold the same text and dated and latest CSV the same table. Each HTML path holds its own report, and every other path keeps its content. |
| `Engine.HtmlReportsDiffer` | playwright-a11y-scanner/engine.py:400-403 | The two HTML reports differ only in their download links and "Scanned" time. The latest links to `latest.csv` and `latest.json`; the dated one links to the dated names. |
| `Escaping.Esc` | playwright-a11y-scanner/engine.py:92-99 | The escaped text holds no raw `<`, `>` or `"`. |
| `Escaping.EscIsCharwise` | playwright-a11y-scanner/engine.py:93-99 | The four replace-all passes, `&` first, equal escaping character by character. So no entity is escaped twice. |
| `Escaping.EscRoundTrip` | playwright-a11y-scanner/engine.py:92-99 | Decoding the four entities recovers the original text. |
| `Escaping.EscOfPlain` | scripts/build-index.js:41-47 | Text without `&`, `<`, `>` or `"` is left unchanged. |
| `SlugText.ReplaceRuns` | playwright-a11y-scanner/engine.py:16 | Each run of characters outside `[a-z0-9]` becomes one hyphen. The result stays in the alphabet and is empty exactly when the input is. |
| `SlugText.StripHyphens` | playwright-a11y-scanner/engine.py:17 | No hyphen is left at either end, and text that had none there is unchanged. |
| `SlugText.OneHyphenEachEndSuffices` | playwright-a11y-scanner/src/scan.spec.ts:57 | On text without doubled hyphens, removing one hyphen at each end equals stripping every edge hyphen, and the result is slug-shaped. |
| `Worker.RunDir.constructor` | playwright-a11y-scanner/a11y-web/worker.py:9-10 | A fresh run directory has no status file and no writes. |
| `Worker.RunDir.WriteStatus` | playwright-a11y-scanner/a11y-web/worker.py:9-10 | The whole file is replaced by the current record, and the write is appended to the history. |
| `Worker.WorkerMain` | playwright-a11y-scanner/a11y-web/worker.py:12-81 | The snapshots written are exactly those of the reference `Snapshots`, in order. The exit status is `ExitCode`: 2, 1, or the child's return code modulo 256. |
| `Worker.SnapshotsFollowLifecycle` | playwright-a11y-scanner/a11y-web/worker.py:35-79 | The written states are `starting, failed` or `starting, running, [running,]` followed by `completed` or `failed`. |
| `Worker.LifecycleEndsOnce` | playwright-a11y-scanner/a11y-web/worker.py:35-79 | In such a sequence only the last state is terminal. |
| `Worker.FirstSnapshot` | playwright-a11y-scanner/a11y-web/worker.py:26-35 | The first record is `starting` with a null return code and a null error, written before any check. |
| `Worker.MissingUrlsFails` | playwright-a11y-scanner/a11y-web/worker.py:37-41 | A missing `urls.json` gives `starting, failed` with the fixed error message and exit status 2. No `running`, command or pid is written. |
| `Worker.RunningBeforeSpawn` | playwright-a11y-scanner/a11y-web/worker.py:50-65 | `running` and the command are written before the child starts. A pid appears exactly in the snapshots after a successful start. |
| `Worker.ChildExited` | playwright-a11y-scanner/a11y-web/worker.py:67-73 | The return code and finish time are recorded. The state is `completed` exactly when the code is 0. The worker exits with the code modulo 256: the child's own status when it exited, and 256 - N when signal N ended it. |
| `Worker.ChildRaised` | playwright-a11y-scanner/a11y-web/worker.py:75-81 | An exception while starting or waiting gives `failed` with its message, the finish time, no return code and exit status 1. |
| `Worker.ExitMatchesLastState` | playwright-a11y-scanner/a11y-web/worker.py:67-81 | The last state is `completed` exactly when the exit status is 0. |
| `Worker.SnapshotsAccumulate` | playwright-a11y-scanner/a11y-web/worker.py:26-34 | Every snapshot keeps the start time, directories and `urls.json` path of the first. |
| `CsvReport.CsvEscape` | playwright-a11y-scanner/src/reporters/toCsv.ts:15-21 | `null` or `undefined` gives `""`. A value without comma, quote or line feed is unchanged, and any other value is wrapped in quotes. |
| `CsvReport.CarriageReturnNotQuoted` | playwright-a11y-scanner/src/reporters/toCsv.ts:17 | A carriage return does not trigger quoting: every value whose only special character is a carriage return is written unchanged. |
| `CsvReport.FieldRoundTrip` | playwright-a11y-scanner/src/reporters/toCsv.ts:15-21 | An RFC 4180 reader reads an escaped value back exactly and stops at its end. |
| `CsvReport.RecordRoundTrip` | playwright-a11y-scanner/src/reporters/toCsv.ts:38-47 | Escaped values joined by commas read back as the same list of values. |
| `CsvReport.DocumentRoundTrip` | playwright-a11y-scanner/src/reporters/toCsv.ts:51 | Lines joined by line feeds read back record by record. |
| `CsvReport.HeaderLinePlain` | playwright-a11y-scanner/src/reporters/toCsv.ts:24-36 | The header line is the eight names joined by commas, with no quoting. |
| `CsvReport.ToCsvRoundTrip` | playwright-a11y-scanner/src/reporters/toCsv.ts:23-52 | Reading the text back gives the eight headers, then one eight-field record per row. The records come in row order, each with pageName, url, impact, id, description, help, helpUrl and nodes. |
| `CsvReport.ToCsvEmpty` | playwright-a11y-scanner/src/reporters/toCsv.ts:35-51 | No rows gives the header line alone, with no trailing newline. |
| `CsvReport.ToCsvIgnoresDomainAndScreenshot` | playwright-a11y-scanner/src/reporters/toCsv.ts:37-48 | Rows that differ only in `domain` and `screenshot` give the same text. |
| `Grouping.GroupBy` | playwright-a11y-scanner/src/reporters/toHtml.ts:6-10 | The Map-updating loop leaves exactly the groups of the reference `Groups`. |
| `Grouping.KeysDistinct` | playwright-a11y-scanner/src/reporters/toHtml.ts:6-10 | No key appears twice. |
| `Grouping.KeysComplete` | playwright-a11y-scanner/src/reporters/toHtml.ts:6-10 | A key is listed exactly when some row has it. |
| `Grouping.KeysPrefix` | playwright-a11y-scanner/src/reporters/toHtml.ts:6-12 | In first-occurrence order, later rows only add keys at the end. |
| `Grouping.GroupsWellFormed` | playwright-a11y-scanner/src/reporters/toHtml.ts:6-10 | Every group is non-empty and holds only rows of its key. |
| `Grouping.FilterIsSubsequence` | playwright-a11y-scanner/src/reporters/toHtml.ts:15-19 | Each group keeps its rows in input order. |
| `Grouping.GroupsArePermutation` | playwright-a11y-scanner/src/reporters/toHtml.ts:12 | The groups, one after another, are a permutation of the input. |
| `HtmlReporter.RenderItems` | playwright-a11y-scanner/src/reporters/toHtml.ts:37-47 | Each row gives one item, in order, with its escaped fields and its raw node count. |
| `HtmlReporter.RenderPages` | playwright-a11y-scanner/src/reporters/toHtml.ts:21-57 | One page block per page group, in order. |
| `HtmlReporter.RenderSections` | playwright-a11y-scanner/src/reporters/toHtml.ts:12-66 | One section per domain group, in order. |
| `HtmlReporter.ToHtml` | playwright-a11y-scanner/src/reporters/toHtml.ts:4-93 | The two grouping loops and the rendering give the reference document `Report`. |
| `HtmlReporter.NoViolationsIffNoRows` | playwright-a11y-scanner/src/reporters/toHtml.ts:68-71 | The "no violations" body is shown exactly when there are no rows. |
| `HtmlReporter.SectionsFollowDomains` | playwright-a11y-scanner/src/reporters/toHtml.ts:6-12 | There is one section per domain key, in first-occurrence order, headed by the escaped key. An empty domain is `unknown-domain`. |
| `HtmlReporter.PageOfGroup` | playwright-a11y-scanner/src/reporters/toHtml.ts:15-35 | Page `j` of section `i` comes from page group `j` of domain `i` and is headed by its page key. Its screenshot comes from the group's first row, shown exactly when present and non-empty. It has one item per row. |
| `HtmlReporter.ItemsAreTheRows` | playwright-a11y-scanner/src/reporters/toHtml.ts:37-47 | The document's items are the rendered rows. Those rows are a permutation of the input, one item per row. |
| `HtmlReporter.ReportIsSafe` | playwright-a11y-scanner/src/reporters/toHtml.ts:29-89 | With an escaper that never outputs `<`, `>` or `"`, no text value of the document holds them. |
| `HtmlReporter.EscIsSafe` | playwright-a11y-scanner/engine.py:92-99 | The four-pass escaper is such an escaper. |
| `ScanSpec.LoadTargets` | playwright-a11y-scanner/src/scan.spec.ts:36-43 | It succeeds exactly when `targets` is present and non-empty, and then returns it. Otherwise it fails with the fixed message. |
| `ScanSpec.GetDomainStripsOneWww` | playwright-a11y-scanner/src/scan.spec.ts:45-51 | One leading `www.` is removed and only one. A host without it is unchanged. |
| `ScanSpec.GetDomainFallback` | playwright-a11y-scanner/src/scan.spec.ts:45-51 | A URL that cannot be parsed gives `unknown-domain`. |
| `ScanSpec.TsSlugify` | playwright-a11y-scanner/src/scan.spec.ts:53-58 | The slug only holds `[a-z0-9-]`, with no doubled hyphen and no hyphen at either end. |
| `ScanSpec.TsSlugifyMayBeEmpty` | playwright-a11y-scanner/src/scan.spec.ts:53-58 | Unlike the engine's slug it can be empty: `"!"` gives `""` here and `"report"` there. |
| `ScanSpec.SlugifiesAgree` | playwright-a11y-scanner/src/scan.spec.ts:53-58 | On trimmed text the two slugs agree apart from the `"report"` fallback. |
| `ScanSpec.TsSlugifyIdempotent` | playwright-a11y-scanner/src/scan.spec.ts:53-58 | Slugifying a slug gives the same slug. |
| `ScanSpec.PushViolations` | playwright-a11y-scanner/src/scan.spec.ts:153-166 | The loop appends one success row per violation, in order. |
| `ScanSpec.ScanTarget` | playwright-a11y-scanner/src/scan.spec.ts:80-195 | One target appends exactly its `TargetRows` and gives exactly its `TargetRecord`: success rows or one error row, and a record failed exactly when the scan threw. A failed screenshot stores its message under `screenshot_error`, and no key when that message is `undefined`. |
| `ScanSpec.ScreenshotIsBestEffort` | playwright-a11y-scanner/src/scan.spec.ts:112-118 | A failed screenshot changes neither the rows nor whether the scan succeeded; it only adds its message to the record. The record has no screenshot error exactly when the screenshot was taken or the thrown value's message is `undefined`. An `Error` gives its `message`. |
| `ScanSpec.ScanTargets` | playwright-a11y-scanner/src/scan.spec.ts:77-197 | The loop over targets gives exactly the rows `AllRows` and the records `AllRecords`. |
| `ScanSpec.RecordsFollowTargets` | playwright-a11y-scanner/src/scan.spec.ts:89-195 | Record `i` belongs to target `i`, with its name, URL, domain and the run's time. It is `ok` exactly when the scan did not throw. A failed record carries the error message and no results. |
| `ScanSpec.SuccessRowsAt` | playwright-a11y-scanner/src/scan.spec.ts:153-166 | Success row `k` is violation `k`, with impact defaulting to `unknown` and nodes to 0, under the page's domain, name and URL. |
| `ScanSpec.FailedScanRow` | playwright-a11y-scanner/src/scan.spec.ts:167-192 | A failed scan adds exactly one row: `SCAN_ERROR`, impact `error`, 0 nodes, and the error message or "Unknown scan error". |
| `ScanSpec.ScanErrorsCountFailures` | playwright-a11y-scanner/src/scan.spec.ts:220-223 | The number of `SCAN_ERROR` rows equals the number of failed targets, as long as axe has no rule of that name. |
| `DashboardIndex.NumberedNames` | scripts/build-index.js:5-7 | It lists exactly the names of the directories with the required number of digits. |
| `DashboardIndex.NewestFolderIsGreatest` | scripts/build-index.js:4-24 | The folder is the greatest numbered year and the greatest numbered month inside that year, with path root/year/month. |
| `DashboardIndex.NoFolderCases` | scripts/build-index.js:4-24 | No folder is found exactly when there is no year, or when the newest year has no month, even if an older year has months. |
| `DashboardIndex.FindKey` | scripts/build-index.js:33 | It finds the first entry holding the key, or reports that there is none. |
| `DashboardIndex.CountImpacts` | scripts/build-index.js:30-34 | The loop gives exactly the reference tally `Tally`. |
| `DashboardIndex.ParseStats` | scripts/build-index.js:26-39 | It gives exactly `StatsOf` of the parsed file. |
| `DashboardIndex.TallyCounts` | scripts/build-index.js:29-35 | Each key counts the impacts that lower-case to it, absent ones under `unknown`. The counts sum to the total. |
| `DashboardIndex.TallyKeys` | scripts/build-index.js:30-34 | The five initial keys come first. Any other key appears exactly when some impact has it. |
| `DashboardIndex.UnrecognisedImpactsDiffer` | scripts/build-index.js:32-33 | An unrecognised impact such as `blocker` is `unknown` in the engine. The dashboard counts it under its own key. |
| `DashboardIndex.UnreadableShowsNa` | scripts/build-index.js:141-151 | A report that cannot be read shows "n/a" in both cells. |
| `DashboardIndex.PillsCountImpacts` | scripts/build-index.js:141-148 | A readable report shows four pills, critical to minor, each with its number of violations and 0 when absent. |
| `DashboardIndex.PillsAtMostTotal` | scripts/build-index.js:141-151 | The pills never add up to more than the violations cell. |
| `DashboardIndex.ReportNames` | scripts/build-index.js:119 | A name is kept exactly when some entry of the month folder has it and it ends in `_a11y.json`, so no report file is skipped. |
| `DashboardIndex.BuildRows` | scripts/build-index.js:125-165 | The loop builds exactly the rows `RowsOf`. |
| `DashboardIndex.BuildIndex` | scripts/build-index.js:104-178 | With no root, no folder or no report file, the exit status is 1 and nothing is written. Otherwise the same page goes first to the month index, then to the root index. |
| `DashboardIndex.RowsOfAt` | scripts/build-index.js:125-165 | Row `i` is the row of file `i`, with the stats read from that file. |
| `DashboardIndex.RowsFollowSortedReports` | scripts/build-index.js:119-131 | There is one row per report file, in sorted name order. The files are a permutation of the listed `_a11y.json` names. |
| `DashboardIndex.LabelOfParts` | scripts/build-index.js:133-135 | Removing the stamp prefix and the `_a11y` suffix from `{stamp}_{slug}_a11y` gives the slug. |
| `DashboardIndex.LabelOfEngineReport` | scripts/build-index.js:133-135 | The label of an engine report (engine.py line 43) is exactly the slug of its host. |
| `DashboardIndex.ReportJsonName` | scripts/build-index.js:119-128 | `{stem}_a11y.json` is listed, and its base is `{stem}_a11y`. |
| `DashboardIndex.RowOfReport` | scripts/build-index.js:126-161 | For a report in a month folder, the label comes from its base. The JSON, HTML and CSV links share the base and resolve inside the folder. |
| `DashboardIndex.LinksReachEngineFiles` | scripts/build-index.js:137-139 | For an engine report in its month's folder, the row's label is the host slug. Its JSON link resolves to the engine's dated JSON path, and its HTML and CSV links name the dated siblings. |
| `Sorting.Sort` | scripts/build-index.js:8 | Sorting gives a permutation of the names. |
| `Sorting.SortSorted` | scripts/build-index.js:8 | The result is in ascending order. |
| `Sorting.LastIsGreatest` | scripts/build-index.js:11 | The last sorted name is at least every other name. |
| `Files.FileStore.constructor` | scripts/build-index.js:173-174 | A new store is empty. |
| `Files.FileStore.Write` | scripts/build-index.js:173-174 | A write replaces the whole file at its path and is recorded in order. |
| `ChildProcess.CodeText` | server.js:26 | The exit code's text is never empty, and a `null` code is `"null"`. |
| `ChildProcess.Settle` | server.js:24-29 | It resolves exactly on exit code 0. A start error rejects with its message, and any other exit rejects with the message built from the code. |
| `Launcher.TrimAll` | server.js:13 | Every line is trimmed, one result per line, in order. |
| `Launcher.KeepUrlLinesMembers` | server.js:14 | A line is kept exactly when it is present, non-empty and not a `#` comment. |
| `Launcher.KeepUrlLinesOrdered` | server.js:14 | The kept lines are a subsequence of the lines. |
| `Launcher.ParseUrlsMembers` | server.js:10-15 | A URL is listed exactly when it is a trimmed line that is non-empty and not a comment. Every listed URL is trimmed. |
| `Launcher.ParseUrlsOrdered` | server.js:10-15 | The URLs keep the order of their lines. |
| `Launcher.RunPythonScan` | server.js:17-31 | It resolves exactly when the engine exits with code 0. |
| `Launcher.BuildDashboard` | server.js:33-45 | It resolves exactly when the builder exits with code 0. |
| `Launcher.EveryUrlAccounted` | server.js:184-199 | `scanned` plus the number of entries in `failed` is the number of URLs. |
| `Launcher.FailedMembers` | server.js:191-199 | A failure is recorded exactly for each run that was rejected, with that run's URL and message. |
| `Launcher.FailedInOrder` | server.js:184-199 | The failed URLs are a subsequence of the URL list. |
| `Launcher.ReplyCases` | server.js:176-220 | The status is 400 exactly when no URL is listed. It is 500 exactly when there are URLs and the dashboard build fails, and 200 otherwise. A 200 reply accounts for every URL, lists failures in order and gives the two fixed links. |
| `Launcher.RunScans` | server.js:184-199 | Every URL is scanned once, in list order, whatever earlier scans gave. The loop ends with the `scanned` count and the `failed` list of `Scanned` and `Failed`. |
| `Launcher.SaveFailures` | server.js:207-211 | `latest-failures.json` gets the failure list and one write exactly when the list is non-empty. Otherwise no file changes. |
| `Launcher.HandleScan` | server.js:176-220 | The reply is `Reply` and every listed URL is scanned in order. `latest-failures.json` is written exactly when the reply is a summary with failures; otherwise no file changes. |
| `BatchScan.Loaded` | scripts/scan-file.js:31-52 | A loaded URL list is never empty. |
| `BatchScan.RunOne` | scripts/scan-file.js:13-28 | It resolves exactly when the engine exits with code 0. |
| `BatchScan.FirstFailure` | scripts/scan-file.js:57-59 | Every run before the index found succeeded, and the run at it, if any, failed. |
| `BatchScan.FirstFailureAt` | scripts/scan-file.js:57-59 | A failed run after an unbroken run of successes is the first failure: the loop stops exactly there. |
| `BatchScan.ScanFile` | scripts/scan-file.js:30-73 | The loop with its early exit gives exactly the reference outcome `Outcome`. |
| `BatchScan.ChecksBeforeAnyScan` | scripts/scan-file.js:34-52 | Scanning starts exactly when a URL list was loaded. A missing argument, a missing or unreadable file, or an empty list gives exit status 1 and no scan. |
| `BatchScan.AbortsOnFirstFailure` | scripts/scan-file.js:57-59 | The started URLs are a non-empty prefix of the list and all but the last succeeded. A failure means exit status 1 and no index build. Stopping before the end means the last run failed. |
| `BatchScan.IndexOnlyAfterEveryScan` | scripts/scan-file.js:57-67 | The index is built exactly when every URL scanned successfully, after all of them were started. The exit status is 0 exactly when, in addition, the build succeeds. |
| `ScanCli.GetUrlFromArgs` | scripts/scan.js:4-8 | It finds a URL exactly when some argument starts with `http://` or `https://`, in any case, and returns the first such argument. |
| `ScanCli.NoUrlNoSpawn` | scripts/scan.js:10-16 | The engine is not started exactly when no argument has a web scheme, and then the exit status is 1. |
| `ScanCli.ExitMirrorsChild` | scripts/scan.js:26-32 | The exit status is the engine's exit code when it has one. It is 1 on a `null` code or a start error, and 0 exactly when the engine was started and exited with 0. |
| `ScanCli.SchemeIgnoresCase` | scripts/scan.js:6 | A URL is recognised in any case exactly as in lower case. |

## Left out

- Browser automation and axe-core (`run_a11y_scan`, navigation, screenshots and `axe.run` in the scan test). Their results are inputs: a violation list, or an exception.
- `playwright-a11y-scanner/a11y-web/App.py` is not part of this model. It is a user interface for a different pipeline.
- `playwright-a11y-scanner/playwright.config.ts` is not part of this model. It is a configuration literal.
- Process plumbing: spawning, copying the environment, `stdio` inheritance and the worker's log file. A child's end is an input: an exit code, possibly `null`, or a start error.
- Express routing, the JSON body parser, static serving and the HTML page of the launcher.
- Directory creation (`mkdir`, `ensureDirs`) and path resolution. Paths are POSIX strings built with `/`. `path.join` normalisation, `path.resolve`, `path.relative` on paths outside `reports/`, and Windows separators are not modelled.
- `BatchScan.FullPath`: `path.isAbsolute` is modelled for POSIX paths only, as a leading `/`.
- JSON serialisation and parsing. The text `json.dumps` gives, the parsed `urls.json` and report files, and what `JSON.stringify` gives for a thrown value are inputs.
- The scan test's three output files and their `Date.now()` names, and the `critical/serious` console warning. Only the `SCAN_ERROR` count behind the first warning is modelled.
- Console output of every script, including the engine's textual summary and the error printed by the catch of `scan-file.js`.
- The markup and styles of all three HTML documents. Each is modelled by the values interpolated into it.
- `HtmlReporter.ToHtml`: the "No violations." and "No violations for this domain." branches cannot be reached, since every group is non-empty. The model leaves them out; `Grouping.GroupsWellFormed` shows why.
- Character handling is ASCII only, in `Text.Lower`, `Text.Trim`, the `i` flag of the URL test and the slug alphabet. Python's `lower()`/`strip()` and JavaScript's `toLowerCase()`/`trim()` also handle non-ASCII letters and Unicode white space.
- `Sorting.Sort` compares characters by code point. JavaScript's default sort compares UTF-16 code units, which orders differently only above U+FFFF; folder and report names are ASCII.
- The counts object of `parseStats` is an insertion-ordered list of keys. Keys that clash with built-in object properties (such as `constructor`) are not modelled.
- `Launcher.Reply`: `String(req.body.urls)` of a non-string value is an input text. Which values count as truthy is not modelled.
- `ScanSpec.SlugifiesAgree`: stated only for text that `Text.Trim` leaves unchanged. Surrounding blanks would become hyphens at the ends, which both slugs drop, so the two are expected to agree there too; that case is not proved.
- `DashboardIndex.RowsOf`: its own contract gives only the number of rows. The row at each index is stated by `DashboardIndex.RowsOfAt`.
- `CsvReport.ToCsvRoundTrip`: the reader splits records at a line feed only. RFC 4180 records end in CRLF, and `toCsv` joins them with a bare line feed.
- The engine's `write_csv` quoting by `csv.DictWriter` is not modelled. The table is modelled before quoting, with its header and column order.
- Integer widths: counts and pids are unbounded integers; the source's platforms never overflow at these sizes. The worker's exit status is taken modulo 256, as `sys.exit` reports it to the parent.
- `Engine.Node`: a node's `target` is a flat list of CSS selector strings. axe-core gives a nested list for an element inside a shadow DOM; then `" | ".join` at `engine.py:305` raises `TypeError`, and `main` exits 1 after creating the output directories and before writing any file. The `str(targets)` branch for a target that is not a list, and the character-by-character escaping at `engine.py:122` of a target that is a single string, are not modelled either. `Engine.RunMain` and `Engine.FlattenViolationsToRows` describe flat targets only.
- `Worker.WorkerMain`: the argument parser's exit with status 2 when `--node-dir` or `--run-dir` is missing (`worker.py:13-17`) is not modelled; it happens before any status file is written.
- `Files.FileStore.Write`: a write always succeeds. Errors from `write_text` and `writeFileSync` (a full disk, a missing directory, no permission) are not modelled.

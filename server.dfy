/** The web launcher: `/api/scan` takes a block of text, scans every URL in
    it one after another with the engine, rebuilds the dashboard and answers
    with how many scans succeeded and which failed.

    How each engine run and the dashboard build settle are inputs; the
    engine is started once per URL, in order, whatever the earlier runs
    gave. */
module Launcher {
  import opened Wrappers
  import opened Text
  import opened Files
  import opened ChildProcess

  /* ---------------------------------------------------------------- */
  /* parseUrls                                                        */
  /* ---------------------------------------------------------------- */

  /** `.map((l) => l.trim())`. */
  function TrimAll(lines: seq<string>): (r: seq<string>)
    ensures |r| == |lines|
    ensures forall i :: 0 <= i < |lines| ==> r[i] == Trim(lines[i])
  {
    if lines == [] then [] else [Trim(lines[0])] + TrimAll(lines[1..])
  }

  /** `l && !l.startsWith("#")`: a non-empty line that is not a comment. */
  predicate IsUrlLine(l: string) {
    l != "" && !StartsWith(l, "#")
  }

  /** `.filter(IsUrlLine)`. */
  function KeepUrlLines(lines: seq<string>): (r: seq<string>)
    ensures |r| <= |lines|
  {
    if lines == [] then []
    else (if IsUrlLine(lines[0]) then [lines[0]] else []) + KeepUrlLines(lines[1..])
  }

  /** `parseUrls(text)` (and `readUrls` on the text of a file): the trimmed
      lines that are neither empty nor comments. */
  function ParseUrls(text: string): seq<string> {
    KeepUrlLines(TrimAll(SplitLines(text)))
  }

  /** The filter keeps exactly the URL lines. */
  lemma {:induction false} KeepUrlLinesMembers(lines: seq<string>, x: string)
    ensures x in KeepUrlLines(lines) <==> x in lines && IsUrlLine(x)
  {
    if lines != [] {
      KeepUrlLinesMembers(lines[1..], x);
      assert lines == [lines[0]] + lines[1..];
    }
  }

  /** The filter keeps the lines in their order. */
  lemma {:induction false} KeepUrlLinesOrdered(lines: seq<string>)
    ensures IsSubsequence(KeepUrlLines(lines), lines)
  {
    if lines != [] {
      KeepUrlLinesOrdered(lines[1..]);
      var rest := KeepUrlLines(lines[1..]);
      if IsUrlLine(lines[0]) {
        assert KeepUrlLines(lines) == [lines[0]] + rest;
        assert KeepUrlLines(lines)[1..] == rest;
      } else {
        assert KeepUrlLines(lines) == rest;
        if rest != [] {
          SubsequenceCons(rest, lines[1..], lines[0]);
        }
      }
    }
  }

  /** A URL is listed exactly when some line, trimmed, is that URL and it is
      neither empty nor a comment; listed URLs carry no surrounding blanks. */
  lemma ParseUrlsMembers(text: string, u: string)
    ensures u in ParseUrls(text) <==> IsUrlLine(u) && u in TrimAll(SplitLines(text))
    ensures u in ParseUrls(text) ==> Trim(u) == u
  {
    var lines := SplitLines(text);
    var trimmed := TrimAll(lines);
    KeepUrlLinesMembers(trimmed, u);
    if u in trimmed {
      var i :| 0 <= i < |trimmed| && trimmed[i] == u;
      TrimIdempotent(lines[i]);
    }
  }

  /** The URLs come in the order of their lines. */
  lemma ParseUrlsOrdered(text: string)
    ensures IsSubsequence(ParseUrls(text), TrimAll(SplitLines(text)))
  {
    KeepUrlLinesOrdered(TrimAll(SplitLines(text)));
  }

  /* ---------------------------------------------------------------- */
  /* /api/scan                                                        */
  /* ---------------------------------------------------------------- */

  /** One entry of `failed`. */
  datatype Failure = Failure(url: string, error: string)

  /** The JSON answer: `{ error }` with a status, or the summary sent with 200. */
  datatype Response =
    | Refused(status: nat, error: string)
    | Summary(scanned: nat, failed: seq<Failure>, dashboardUrl: string, latestUrl: string)
  {
    function Status(): nat {
      if Refused? then status else 200
    }
  }

  const NoUrls := "No URLs provided. Add one URL per line."
  const DashboardFailed := "Scans finished but dashboard build failed: "
  const DashboardUrl := "/reports/index.html"
  const LatestUrl := "/reports/latest.html"
  /** `reports/latest-failures.json`, relative to the launcher's directory. */
  const FailuresPath := "reports/latest-failures.json"

  /** The messages of a failed engine run and a failed build, up to the exit code. */
  const ScanFailure := "Scan failed (exit "
  const DashboardFailure := "Dashboard build failed (exit "

  /** `runPythonScan(url)`; `o` is how the engine run ended. */
  function RunPythonScan(o: ChildOutcome): (r: Result<(), string>)
    ensures r.Ok? <==> Succeeded(o)
  {
    Settle(o, ScanFailure)
  }

  /** `buildDashboard()`; `o` is how `build-index.js` ended. */
  function BuildDashboard(o: ChildOutcome): (r: Result<(), string>)
    ensures r.Ok? <==> Succeeded(o)
  {
    Settle(o, DashboardFailure)
  }

  /** The value of `scanned` after the runs of `urls`; `run(i)` is how the
      engine run for `urls[i]` ended. */
  function Scanned(urls: seq<string>, run: nat -> ChildOutcome): nat {
    if urls == [] then 0
    else Scanned(urls[..|urls| - 1], run) + (if RunPythonScan(run(|urls| - 1)).Ok? then 1 else 0)
  }

  /** The value of `failed` after the runs of `urls`. */
  function Failed(urls: seq<string>, run: nat -> ChildOutcome): seq<Failure> {
    if urls == [] then []
    else
      var n := |urls| - 1;
      var r := RunPythonScan(run(n));
      Failed(urls[..n], run) + (if r.Err? then [Failure(urls[n], r.error)] else [])
  }

  function FailedUrls(fs: seq<Failure>): (r: seq<string>)
    ensures |r| == |fs|
  {
    if fs == [] then [] else FailedUrls(fs[..|fs| - 1]) + [fs[|fs| - 1].url]
  }

  /** Every URL is counted once: as scanned or as failed. */
  lemma {:induction false} EveryUrlAccounted(urls: seq<string>, run: nat -> ChildOutcome)
    ensures Scanned(urls, run) + |Failed(urls, run)| == |urls|
  {
    if urls != [] {
      EveryUrlAccounted(urls[..|urls| - 1], run);
    }
  }

  /** A failure is recorded exactly for each run that did not succeed, with
      its URL and the message it was rejected with. */
  lemma {:induction false} FailedMembers(urls: seq<string>, run: nat -> ChildOutcome, f: Failure)
    ensures f in Failed(urls, run) <==>
      exists i :: 0 <= i < |urls| && urls[i] == f.url && RunPythonScan(run(i)) == Err(f.error)
  {
    if urls != [] {
      var n := |urls| - 1;
      var r := RunPythonScan(run(n));
      var last := if r.Err? then [Failure(urls[n], r.error)] else [];
      FailedMembers(urls[..n], run, f);
      RejectedSnoc(urls, run, f);
      assert Failed(urls, run) == Failed(urls[..n], run) + last;
      assert f in last <==> urls[n] == f.url && r == Err(f.error);
    }
  }

  /** A rejected run among `urls` is one among all but the last, or the last. */
  lemma RejectedSnoc(urls: seq<string>, run: nat -> ChildOutcome, f: Failure)
    requires urls != []
    ensures var n := |urls| - 1;
      (exists i :: 0 <= i < |urls| && urls[i] == f.url && RunPythonScan(run(i)) == Err(f.error)) <==>
      (exists i :: 0 <= i < n && urls[..n][i] == f.url && RunPythonScan(run(i)) == Err(f.error)) ||
      (urls[n] == f.url && RunPythonScan(run(n)) == Err(f.error))
  {
    var n := |urls| - 1;
    if exists i :: 0 <= i < |urls| && urls[i] == f.url && RunPythonScan(run(i)) == Err(f.error) {
      var i :| 0 <= i < |urls| && urls[i] == f.url && RunPythonScan(run(i)) == Err(f.error);
      if i < n {
        assert urls[..n][i] == f.url;
      }
    }
  }

  /** The failures keep the order of the URL list. */
  lemma {:induction false} FailedInOrder(urls: seq<string>, run: nat -> ChildOutcome)
    ensures IsSubsequence(FailedUrls(Failed(urls, run)), urls)
  {
    if urls != [] {
      var n := |urls| - 1;
      var init := urls[..n];
      FailedInOrder(init, run);
      assert urls == init + [urls[n]];
      var before := Failed(init, run);
      var r := RunPythonScan(run(n));
      if r.Err? {
        var now := before + [Failure(urls[n], r.error)];
        assert now[..|now| - 1] == before;
        assert FailedUrls(now) == FailedUrls(before) + [urls[n]];
        SubsequenceSnocBoth(FailedUrls(before), init, urls[n]);
      } else {
        assert Failed(urls, run) == before;
        SubsequenceSnoc(FailedUrls(before), init, urls[n]);
      }
    }
  }

  /** What `/api/scan` answers. `urls` is `String(req.body.urls)` when that
      field is truthy and `None` otherwise; `run(i)` is how the `i`-th engine
      run ended and `dashboard` how the dashboard build ended. */
  function Reply(urls: Option<string>, run: nat -> ChildOutcome, dashboard: ChildOutcome): Response {
    var list := ParseUrls(urls.GetOr(""));
    if list == [] then Refused(400, NoUrls)
    else
      var d := BuildDashboard(dashboard);
      if d.Err? then Refused(500, DashboardFailed + d.error)
      else Summary(Scanned(list, run), Failed(list, run), DashboardUrl, LatestUrl)
  }

  /** 400 exactly when no URL is listed, 500 exactly when there are URLs and
      the dashboard build fails, and otherwise a summary that accounts for
      every URL, lists the failures in order and points at the dashboard. */
  lemma ReplyCases(urls: Option<string>, run: nat -> ChildOutcome, dashboard: ChildOutcome)
    ensures var list, r := ParseUrls(urls.GetOr("")), Reply(urls, run, dashboard);
      (r.Status() == 400 <==> list == []) &&
      (r.Status() == 500 <==> list != [] && !Succeeded(dashboard)) &&
      (r.Status() == 200 <==> list != [] && Succeeded(dashboard)) &&
      (r.Summary? ==> r.scanned + |r.failed| == |list| && IsSubsequence(FailedUrls(r.failed), list) &&
                      r.dashboardUrl == DashboardUrl && r.latestUrl == LatestUrl)
  {
    var list := ParseUrls(urls.GetOr(""));
    EveryUrlAccounted(list, run);
    FailedInOrder(list, run);
  }

  /** The loop of the handler: every URL is scanned in turn, whatever the
      earlier scans gave; returns `scanned`, `failed` and the URLs the engine
      was started for. */
  method RunScans(list: seq<string>, run: nat -> ChildOutcome)
    returns (scanned: nat, failed: seq<Failure>, started: seq<string>)
    ensures scanned == Scanned(list, run) && failed == Failed(list, run) && started == list
  {
    failed := [];
    scanned := 0;
    started := [];
    var i := 0;
    while i < |list|
      invariant 0 <= i <= |list|
      invariant started == list[..i]
      invariant scanned == Scanned(list[..i], run)
      invariant failed == Failed(list[..i], run)
    {
      var url := list[i];
      started := started + [url];
      assert list[..i + 1][..i] == list[..i];
      match RunPythonScan(run(i)) {
        case Ok(_) =>
          scanned := scanned + 1;
        case Err(message) =>
          failed := failed + [Failure(url, message)];
      }
      i := i + 1;
    }
    assert list[..|list|] == list;
  }

  /** The `/api/scan` handler. Returns the answer and the URLs the engine was
      started for, in order; the failures file is written only on a summary
      that lists failures. */
  method HandleScan(urls: Option<string>, run: nat -> ChildOutcome, dashboard: ChildOutcome,
                    store: FileStore<seq<Failure>>)
    returns (response: Response, started: seq<string>)
    modifies store
    ensures response == Reply(urls, run, dashboard)
    ensures started == ParseUrls(urls.GetOr(""))
    ensures if response.Summary? && response.failed != [] then
        store.files == old(store.files)[FailuresPath := response.failed] &&
        store.writes == old(store.writes) + [FailuresPath]
      else store.files == old(store.files) && store.writes == old(store.writes)
  {
    var list := ParseUrls(urls.GetOr(""));
    response, started := Refused(400, NoUrls), [];
    if list != [] {
      var scanned, failed;
      scanned, failed, started := RunScans(list, run);
      var d := BuildDashboard(dashboard);
      response := if d.Err? then Refused(500, DashboardFailed + d.error)
                  else Summary(scanned, failed, DashboardUrl, LatestUrl);
    }
    if response.Summary? {
      SaveFailures(store, response.failed);
    }
  }

  /** `if (failed.length)`: the failures file is written only when some scan failed. */
  method SaveFailures(store: FileStore<seq<Failure>>, failed: seq<Failure>)
    modifies store
    ensures if failed != [] then
        store.files == old(store.files)[FailuresPath := failed] &&
        store.writes == old(store.writes) + [FailuresPath]
      else store.files == old(store.files) && store.writes == old(store.writes)
  {
    if |failed| > 0 {
      store.Write(FailuresPath, failed);
    }
  }
}

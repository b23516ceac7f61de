/** The batch command line: read a file of URLs, scan them one after another
    and stop at the first scan that fails; when every scan succeeds, build
    the dashboard index of the newest run folder.

    The arguments, the working directory, which paths exist, what reading a
    file gives and how each child process ends are inputs. */
module BatchScan {
  import opened Wrappers
  import opened Text
  import opened ChildProcess
  import Launcher

  /** Everything `main` learns from outside. `args` is
      `process.argv.slice(2)`; `present(p)` is `fs.existsSync(p)`; `read(p)`
      is `None` where `readFileSync` throws; `run(i)` is how the engine run
      for the `i`-th URL ends and `index` how `build-index.js` ends. */
  datatype Env = Env(args: seq<string>, cwd: string, present: string -> bool,
                     read: string -> Option<string>, run: nat -> ChildOutcome, index: ChildOutcome)

  /** How `main` ends: the exit status, the URLs the engine was started
      for, in order, and whether the index builder was started. */
  datatype Run = Run(exitCode: nat, started: seq<string>, indexStarted: bool)

  /** `path.isAbsolute(file) ? file : path.join(process.cwd(), file)`, for
      POSIX paths. */
  function FullPath(cwd: string, file: string): string {
    if StartsWith(file, "/") then file else cwd + "/" + file
  }

  /** `readUrls(fullPath)`: the URL lines of the file, or `None` where the
      read throws. */
  function ReadUrls(e: Env, fullPath: string): Option<seq<string>> {
    match e.read(fullPath)
    case None => None
    case Some(raw) => Some(Launcher.ParseUrls(raw))
  }

  /** The URL list the loop runs over, or `None` where `main` exits with
      status 1 first: no argument, no such file, a file that cannot be read,
      or no URL in it. */
  function Loaded(e: Env): (r: Option<seq<string>>)
    ensures r.Some? ==> r.value != []
  {
    if e.args == [] || e.args[0] == "" then None
    else
      var p := FullPath(e.cwd, e.args[0]);
      if !e.present(p) then None
      else match ReadUrls(e, p)
        case None => None
        case Some(urls) => if urls == [] then None else Some(urls)
  }

  /** The message of a failed run, up to its exit code. */
  function ScanFailure(url: string): string {
    "Scan failed for " + url + " (exit code "
  }

  /** `runOne(url)`; `o` is how the engine run ended. */
  function RunOne(url: string, o: ChildOutcome): (r: Result<(), string>)
    ensures r.Ok? <==> Succeeded(o)
  {
    Settle(o, ScanFailure(url))
  }

  /** The index of the first run from `from` on that fails, or `n` when
      none of them does. */
  function FirstFailure(n: nat, run: nat -> ChildOutcome, from: nat): (k: nat)
    requires from <= n
    ensures from <= k <= n
    ensures forall j :: from <= j < k ==> Succeeded(run(j))
    ensures k < n ==> !Succeeded(run(k))
    decreases n - from
  {
    if from == n then n
    else if !Succeeded(run(from)) then from
    else FirstFailure(n, run, from + 1)
  }

  /** The first failure is the one after a run of successes. */
  lemma {:induction false} FirstFailureAt(n: nat, run: nat -> ChildOutcome, from: nat, k: nat)
    requires from <= k < n && !Succeeded(run(k))
    requires forall j :: from <= j < k ==> Succeeded(run(j))
    ensures FirstFailure(n, run, from) == k
    decreases k - from
  {
    if from < k {
      FirstFailureAt(n, run, from + 1, k);
    }
  }

  /** What `main` does. */
  function Outcome(e: Env): Run {
    match Loaded(e)
    case None => Run(1, [], false)
    case Some(urls) =>
      var k := FirstFailure(|urls|, e.run, 0);
      if k < |urls| then Run(1, urls[..k + 1], false)
      else Run(if Succeeded(e.index) then 0 else 1, urls, true)
  }

  /** `main`, with the loop as the script runs it. */
  method ScanFile(e: Env) returns (exitCode: nat, started: seq<string>, indexStarted: bool)
    ensures Run(exitCode, started, indexStarted) == Outcome(e)
  {
    started := [];
    var loaded := Loaded(e);
    if loaded.None? {
      return 1, started, false;
    }
    var urls := loaded.value;
    var i := 0;
    while i < |urls|
      invariant 0 <= i <= |urls|
      invariant started == urls[..i]
      invariant forall j :: 0 <= j < i ==> Succeeded(e.run(j))
    {
      PrefixStep(urls, i);
      started := started + [urls[i]];
      if RunOne(urls[i], e.run(i)).Err? {
        FirstFailureAt(|urls|, e.run, 0, i);
        return 1, started, false;
      }
      i := i + 1;
    }
    WholePrefix(urls);
    indexStarted := true;
    exitCode := if Succeeded(e.index) then 0 else 1;
  }

  /** Scanning starts exactly when a non-empty URL list was loaded; a missing
      argument, file or URL list ends the script with status 1 and no scan. */
  lemma ChecksBeforeAnyScan(e: Env)
    ensures Outcome(e).started != [] <==> Loaded(e).Some?
    ensures Loaded(e).None? ==> Outcome(e) == Run(1, [], false)
  {
  }

  /** Scans run in file order and the first failure ends the loop: the
      started URLs are a prefix of the list, every one but the last
      succeeded, and a failure means status 1 and no index. */
  lemma AbortsOnFirstFailure(e: Env)
    requires Loaded(e).Some?
    ensures var urls, r := Loaded(e).value, Outcome(e);
      var n := |r.started|;
      0 < n <= |urls| && r.started == urls[..n] &&
      (forall j :: 0 <= j < n - 1 ==> Succeeded(e.run(j))) &&
      (!Succeeded(e.run(n - 1)) ==> r.exitCode == 1 && !r.indexStarted) &&
      (n < |urls| ==> !Succeeded(e.run(n - 1)))
  {
    var urls := Loaded(e).value;
    var k := FirstFailure(|urls|, e.run, 0);
    if k == |urls| {
      assert urls[..|urls|] == urls;
    }
  }

  /** The index is built exactly when every URL scanned successfully, and
      the script succeeds exactly when, in addition, the build succeeds. */
  lemma IndexOnlyAfterEveryScan(e: Env)
    ensures Outcome(e).indexStarted <==>
      Loaded(e).Some? && forall j :: 0 <= j < |Loaded(e).value| ==> Succeeded(e.run(j))
    ensures Outcome(e).exitCode == 0 <==> Outcome(e).indexStarted && Succeeded(e.index)
    ensures Outcome(e).indexStarted ==> Outcome(e).started == Loaded(e).value
  {
  }
}

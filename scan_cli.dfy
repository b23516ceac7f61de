/** The single-URL command line: pick the first argument that looks like a
    web address, run the engine on it and exit with the engine's status.

    The arguments and how the engine's process ends are inputs. */
module ScanCli {
  import opened Wrappers
  import opened Text
  import opened ChildProcess

  /** `/^https?:\/\//i`; the flag folds ASCII letters only. */
  predicate HasWebScheme(a: string) {
    StartsWith(Lower(a), "http://") || StartsWith(Lower(a), "https://")
  }

  /** `getUrlFromArgs()`, with `args` as `process.argv.slice(2)`: the first
      argument with a web scheme, or `None` (`null`). */
  function GetUrlFromArgs(args: seq<string>): (r: Option<string>)
    ensures r.Some? <==> exists i :: 0 <= i < |args| && HasWebScheme(args[i])
    ensures r.Some? ==> exists i :: 0 <= i < |args| && args[i] == r.value && HasWebScheme(args[i]) &&
                                    forall j :: 0 <= j < i ==> !HasWebScheme(args[j])
  {
    if args == [] then None
    else if HasWebScheme(args[0]) then Some(args[0])
    else
      var r := GetUrlFromArgs(args[1..]);
      assert forall i :: 0 < i < |args| ==> args[i] == args[1..][i - 1];
      r
  }

  /** How the script ends: its exit status and the URL the engine was
      started with, if it was started. */
  datatype Run = Run(exitCode: nat, spawned: Option<string>)

  /** `process.exit(code ?? 1)` on `exit`, `process.exit(1)` on `error`. */
  function ExitCodeOf(o: ChildOutcome): nat {
    match o
    case Exited(code) => code.GetOr(1)
    case Errored(_) => 1
  }

  /** The whole script; `child` is how the engine's process ends. */
  function Script(args: seq<string>, child: ChildOutcome): Run {
    match GetUrlFromArgs(args)
    case None => Run(1, None)
    case Some(url) => Run(ExitCodeOf(child), Some(url))
  }

  /** Without a web address among the arguments the engine is not started
      and the script exits with status 1. */
  lemma NoUrlNoSpawn(args: seq<string>, child: ChildOutcome)
    ensures Script(args, child).spawned.None? <==> forall a :: a in args ==> !HasWebScheme(a)
    ensures Script(args, child).spawned.None? ==> Script(args, child).exitCode == 1
  {
  }

  /** Once started, the script's status is the engine's: its exit code when
      it has one, and 1 when it was killed by a signal or could not start;
      so the script succeeds exactly when the engine exits with 0. */
  lemma ExitMirrorsChild(args: seq<string>, child: ChildOutcome)
    ensures var r := Script(args, child);
      (r.spawned.Some? && child.Exited? && child.code.Some? ==> r.exitCode == child.code.value) &&
      (r.spawned.Some? && (child.Errored? || child == Exited(None)) ==> r.exitCode == 1) &&
      (r.exitCode == 0 <==> r.spawned.Some? && Succeeded(child))
  {
  }

  /** The scheme test ignores the case of the argument. */
  lemma {:induction false} SchemeIgnoresCase(a: string)
    ensures HasWebScheme(a) <==> HasWebScheme(Lower(a))
  {
    LowerIdempotent(a);
  }
}

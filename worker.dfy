/** The background worker that runs one batch scan for the web front end:
    it keeps a status record, rewrites `status.json` in the run directory
    after every change, starts `npm run <script>` and mirrors the child's
    outcome in its exit status.

    Whether `urls.json` exists, what starting the child gave and what
    waiting for it gave are inputs, as are the two clock readings. */
module Worker {
  import opened Wrappers

  datatype State = Starting | Running | Completed | Failed {
    /** The text stored under `"state"`. */
    function Name(): string {
      match this
      case Starting => "starting"
      case Running => "running"
      case Completed => "completed"
      case Failed => "failed"
    }

    predicate Terminal() { this == Completed || this == Failed }
  }

  /** The status record; `None` stands for JSON `null` or a key not yet added. */
  datatype Status = Status(state: State, startedAt: string, nodeDir: string, runDir: string,
                           urlsJson: string, returncode: Option<int>, error: Option<string>,
                           command: Option<string>, pid: Option<int>, finishedAt: Option<string>)

  /** What `subprocess.Popen` gave: a child with its pid, or an exception. */
  datatype SpawnOutcome = Spawned(pid: int) | SpawnRaised(message: string)

  /** An exit status as a POSIX process reports it. */
  type ExitStatus = x: int | 0 <= x < 256

  /** The number of the signal that ended a child, as a wait status holds it. */
  type Signal = x: int | 1 <= x < 128 witness 1

  /** What `proc.wait()` gave: the child exited with a status, a signal
      killed it, or waiting raised an exception. */
  datatype WaitOutcome = Exited(status: ExitStatus) | Killed(signal: Signal) | WaitRaised(message: string) {
    /** `proc.wait()`'s value: the exit status, or minus the signal number. */
    function ReturnCode(): int
      requires !WaitRaised?
    {
      if Exited? then status else 0 - signal as int
    }
  }

  /** Everything the worker learns from outside. The paths are already resolved. */
  datatype Env = Env(startedAt: string, nodeDir: string, runDir: string, npmScript: string,
                     urlsExists: bool, spawn: SpawnOutcome, wait: WaitOutcome, finishedAt: string)

  const MissingUrls := "urls.json not found in run directory."

  /** `" ".join(["npm", "run", script])`. */
  function Command(npmScript: string): string {
    "npm run " + npmScript
  }

  function InitialStatus(e: Env): Status {
    Status(Starting, e.startedAt, e.nodeDir, e.runDir, e.runDir + "/urls.json", None, None, None, None, None)
  }

  /** The snapshots `main` writes to `status.json`, in order. */
  function Snapshots(e: Env): seq<Status> {
    var s0 := InitialStatus(e);
    if !e.urlsExists then
      [s0, s0.(state := Failed, error := Some(MissingUrls))]
    else
      var s1 := s0.(state := Running, command := Some(Command(e.npmScript)));
      match e.spawn
      case SpawnRaised(m) =>
        [s0, s1, s1.(state := Failed, error := Some(m), finishedAt := Some(e.finishedAt))]
      case Spawned(pid) =>
        var s2 := s1.(pid := Some(pid));
        if e.wait.WaitRaised? then
          [s0, s1, s2, s2.(state := Failed, error := Some(e.wait.message), finishedAt := Some(e.finishedAt))]
        else
          var rc := e.wait.ReturnCode();
          [s0, s1, s2, s2.(returncode := Some(rc), finishedAt := Some(e.finishedAt),
                           state := if rc == 0 then Completed else Failed)]
  }

  /** The worker's exit status. `sys.exit(rc)` ends the process with `rc`
      taken modulo 256, so a child killed by signal `N` gives `256 - N`. */
  function ExitCode(e: Env): ExitStatus {
    if !e.urlsExists then 2
    else if e.spawn.Spawned? && !e.wait.WaitRaised? then e.wait.ReturnCode() % 256
    else 1
  }

  /** The run directory's `status.json`, with the history of what was written to it. */
  class RunDir {
    var statusFile: Option<Status>
    var history: seq<Status>

    /** The file holds the last snapshot written. */
    predicate Valid()
      reads this
    {
      history != [] ==> statusFile == Some(history[|history| - 1])
    }

    constructor ()
      ensures Valid() && statusFile == None && history == []
    {
      statusFile := None;
      history := [];
    }

    /** `write_status`: the whole file is replaced by the current record. */
    method WriteStatus(status: Status)
      requires Valid()
      modifies this
      ensures Valid()
      ensures statusFile == Some(status)
      ensures history == old(history) + [status]
    {
      statusFile := Some(status);
      history := history + [status];
    }
  }

  /** `main`, with the status dictionary as a local record that is updated
      in place and written out after each update. */
  method WorkerMain(dir: RunDir, e: Env) returns (exitCode: ExitStatus)
    requires dir.Valid()
    modifies dir
    ensures dir.Valid()
    ensures dir.history == old(dir.history) + Snapshots(e)
    ensures exitCode == ExitCode(e)
  {
    var status := Status(Starting, e.startedAt, e.nodeDir, e.runDir, e.runDir + "/urls.json",
                         None, None, None, None, None);
    dir.WriteStatus(status);

    if !e.urlsExists {
      status := status.(state := Failed);
      status := status.(error := Some(MissingUrls));
      dir.WriteStatus(status);
      return 2;
    }

    status := status.(state := Running);
    status := status.(command := Some("npm run " + e.npmScript));
    dir.WriteStatus(status);

    match e.spawn {
      case SpawnRaised(m) =>
        status := status.(state := Failed);
        status := status.(error := Some(m));
        status := status.(finishedAt := Some(e.finishedAt));
        dir.WriteStatus(status);
        return 1;
      case Spawned(pid) =>
        status := status.(pid := Some(pid));
        dir.WriteStatus(status);
        if e.wait.WaitRaised? {
          status := status.(state := Failed);
          status := status.(error := Some(e.wait.message));
          status := status.(finishedAt := Some(e.finishedAt));
          dir.WriteStatus(status);
          return 1;
        }
        var rc := e.wait.ReturnCode();
        status := status.(returncode := Some(rc));
        status := status.(finishedAt := Some(e.finishedAt));
        status := status.(state := if rc == 0 then Completed else Failed);
        dir.WriteStatus(status);
        return rc % 256;
    }
  }

  function StatesOf(ss: seq<Status>): (r: seq<State>)
    ensures |r| == |ss| && forall i :: 0 <= i < |ss| ==> r[i] == ss[i].state
  {
    if ss == [] then [] else StatesOf(ss[..|ss| - 1]) + [ss[|ss| - 1].state]
  }

  /** The state sequences the worker may write:
      starting, failed | starting, running, [running,] (completed | failed). */
  predicate ValidLifecycle(s: seq<State>) {
    s == [Starting, Failed] ||
    (|s| in {3, 4} && s[0] == Starting && s[1] == Running && s[|s| - 1].Terminal() &&
     (|s| == 4 ==> s[2] == Running))
  }

  /** Every run writes one of the allowed state sequences. */
  lemma SnapshotsFollowLifecycle(e: Env)
    ensures ValidLifecycle(StatesOf(Snapshots(e)))
  {
    var s := StatesOf(Snapshots(e));
    if e.urlsExists {
      assert s[0] == Starting && s[1] == Running;
    }
  }

  /** In an allowed sequence only the last state is terminal, so nothing is
      written after the worker has completed or failed. */
  lemma LifecycleEndsOnce(s: seq<State>)
    requires ValidLifecycle(s)
    ensures s[|s| - 1].Terminal()
    ensures forall i :: 0 <= i < |s| - 1 ==> !s[i].Terminal()
  {
  }

  /** The first snapshot is written before any check: starting, no return
      code, no error. */
  lemma FirstSnapshot(e: Env)
    ensures var s := Snapshots(e)[0];
      s.state == Starting && s.returncode == None && s.error == None &&
      s.urlsJson == e.runDir + "/urls.json"
  {
  }

  /** Missing `urls.json`: failed with the fixed message, exit status 2, and
      neither "running" nor a command nor a pid is ever written. */
  lemma MissingUrlsFails(e: Env)
    requires !e.urlsExists
    ensures StatesOf(Snapshots(e)) == [Starting, Failed]
    ensures Snapshots(e)[1].error == Some("urls.json not found in run directory.")
    ensures ExitCode(e) == 2
    ensures forall s :: s in Snapshots(e) ==> s.state != Running && s.command == None && s.pid == None
  {
  }

  /** "running" and the command are written before the child is started; the
      pid is known only in the snapshots after a successful start. */
  lemma RunningBeforeSpawn(e: Env)
    requires e.urlsExists
    ensures Snapshots(e)[1].state == Running && Snapshots(e)[1].command == Some(Command(e.npmScript))
    ensures forall i :: 0 <= i < |Snapshots(e)| ==>
      (Snapshots(e)[i].pid.Some? <==> e.spawn.Spawned? && i >= 2)
    ensures e.spawn.Spawned? ==> forall i :: 2 <= i < |Snapshots(e)| ==> Snapshots(e)[i].pid == Some(e.spawn.pid)
  {
  }

  /** A child that ran to its end: its return code is recorded with the finish
      time and the state is completed exactly when it is 0. The worker exits
      with the child's status, or with `256 - N` when signal `N` killed it. */
  lemma ChildExited(e: Env)
    requires e.urlsExists && e.spawn.Spawned? && !e.wait.WaitRaised?
    ensures var last := Snapshots(e)[|Snapshots(e)| - 1];
      last.returncode == Some(e.wait.ReturnCode()) && last.finishedAt == Some(e.finishedAt) &&
      (last.state == Completed <==> e.wait.ReturnCode() == 0) && last.state.Terminal() &&
      ExitCode(e) == e.wait.ReturnCode() % 256
    ensures e.wait.Exited? ==> ExitCode(e) == e.wait.status
    ensures e.wait.Killed? ==> e.wait.ReturnCode() + e.wait.signal == 0 && ExitCode(e) + e.wait.signal == 256
  {
  }

  /** An exception while starting or waiting: failed, the message as error,
      the finish time set, no return code, exit status 1. */
  lemma ChildRaised(e: Env)
    requires e.urlsExists && (e.spawn.SpawnRaised? || e.wait.WaitRaised?)
    requires e.spawn.Spawned? ==> e.wait.WaitRaised?
    ensures var last := Snapshots(e)[|Snapshots(e)| - 1];
      var m := if e.spawn.SpawnRaised? then e.spawn.message else e.wait.message;
      last.state == Failed && last.error == Some(m) && last.finishedAt == Some(e.finishedAt) &&
      last.returncode == None && ExitCode(e) == 1
  {
  }

  /** The last state says how the worker exited: completed exactly when the
      exit status is 0 (an exit status that is 0 only comes from the child). */
  lemma ExitMatchesLastState(e: Env)
    ensures var last := Snapshots(e)[|Snapshots(e)| - 1];
      last.state == Completed <==> ExitCode(e) == 0
  {
  }

  /** Each snapshot keeps what the ones before it recorded about the run:
      the identity fields never change and a recorded pid stays. */
  lemma SnapshotsAccumulate(e: Env)
    ensures forall i :: 0 <= i < |Snapshots(e)| ==>
      var s := Snapshots(e)[i];
      s.startedAt == e.startedAt && s.nodeDir == e.nodeDir && s.runDir == e.runDir &&
      s.urlsJson == e.runDir + "/urls.json"
  {
  }
}

/** What the Node scripts learn from a child process they spawn: the first
    of its `exit` and `error` events, which settles the promise wrapped
    around the child. */
module ChildProcess {
  import opened Wrappers
  import opened Text

  /** An `exit` event with the child's code (`null` when a signal ended it),
      or an `error` event with the error's message. */
  datatype ChildOutcome = Exited(code: Option<nat>) | Errored(message: string)

  /** `code === 0`. */
  predicate Succeeded(o: ChildOutcome) {
    o == Exited(Some(0))
  }

  /** `${code}` inside a template string. */
  function CodeText(code: Option<nat>): (r: string)
    ensures r != ""
  {
    match code
    case None => "null"
    case Some(n) => NatToString(n)
  }

  /** A promise that resolves on exit code 0 and otherwise rejects: on
      `exit` with an `Error` whose message is `lead`, the code and `)`; on
      `error` with the spawn error itself. */
  function Settle(o: ChildOutcome, lead: string): (r: Result<(), string>)
    ensures r.Ok? <==> Succeeded(o)
    ensures o.Errored? ==> r == Err(o.message)
    ensures o.Exited? && !Succeeded(o) ==> r == Err(lead + CodeText(o.code) + ")")
  {
    match o
    case Exited(code) => if code == Some(0) then Ok(()) else Err(lead + CodeText(code) + ")")
    case Errored(m) => Err(m)
  }
}

/** Failure-compatible wrappers shared by every module of the model. */
module Wrappers {

  datatype Option<+T> = None | Some(value: T) {
    function GetOr(default: T): T {
      match this
      case Some(v) => v
      case None => default
    }
  }

  datatype Result<+R, +E> = Ok(value: R) | Err(error: E)

  /** A value read out of a parsed JSON object by key: the key may be missing,
      hold `null`, or hold a string. Python's `d.get(k, default)` and
      `d.get(k) or default` treat these three cases differently. */
  datatype Field = Absent | Null | Str(s: string) {
    /** Python `d.get(k, default)`, followed by `str(...)` where the caller formats it. */
    function GetWithDefault(default: string): string {
      match this
      case Absent => default
      case Null => "None"
      case Str(s) => s
    }

    /** Python `d.get(k) or default`: missing, null and empty all fall back. */
    function OrDefault(default: string): string {
      match this
      case Str(s) => if s == "" then default else s
      case _ => default
    }

    /** What `csv.DictWriter` writes for `d.get(k, "")`: `None` becomes an empty cell. */
    function CsvCell(): string {
      match this
      case Str(s) => s
      case _ => ""
    }
  }
}

/** Small shared vocabulary: optional values, the JavaScript `||` default on
    strings, and the `Math.max(a, Math.min(b, n))` clamp used by the prompt
    builder and by the results screen. */
module Common {

  /** A value that may be missing: JavaScript's `undefined`/`null`. */
  datatype Option<+T> = None | Some(value: T) {

    /** The value, or `default` when it is missing (JavaScript `x ?? d`). */
    function GetOr(default: T): (r: T)
      ensures Some? ==> r == value
      ensures None? ==> r == default
    {
      match this
      case Some(v) => v
      case None => default
    }
  }

  /** The outcome of a step that can fail with an error of type `E`. */
  datatype Result<+T, +E> = Ok(value: T) | Err(error: E)

  /** JavaScript `s || d` for a string: the empty string is falsy. */
  function OrElse(s: string, d: string): (r: string)
    ensures s != "" ==> r == s
    ensures s == "" ==> r == d
  {
    if s == "" then d else s
  }

  /** `Math.max(a, Math.min(b, n))`. */
  function Clamp(n: int, a: int, b: int): (r: int)
    ensures a <= b ==> a <= r <= b
    ensures a <= n <= b ==> r == n
    ensures n < a ==> r == a
    ensures a <= b < n ==> r == b
  {
    if b < n then (if a < b then b else a)
    else if a < n then n else a
  }

  /** A per-answer duration in seconds as both session screens read it,
      `timerSec || 90`: a missing or zero setting falls back to 90. */
  function DurationOr90(timerSec: Option<int>): (d: int)
    ensures timerSec.None? || timerSec == Some(0) ==> d == 90
    ensures timerSec.Some? && timerSec.value != 0 ==> d == timerSec.value
    ensures d != 0
  {
    match timerSec
    case None => 90
    case Some(t) => if t == 0 then 90 else t
  }
}

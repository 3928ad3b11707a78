/** Stock datatypes and the calendar arithmetic shared by every other module. */
module Basics {

  datatype Option<+T> = None | Some(value: T) {
    function GetOr(default: T): T {
      match this
      case Some(v) => v
      case None => default
    }
  }

  datatype Result<+T> = Ok(value: T) | Err

  /** Instants are seconds on the naive UTC time line; delays are signed numbers of seconds. */
  const HOUR: int := 3600
  const DAY: int := 86400

  type TimeOfDay = t: int | 0 <= t < DAY

  function DateOf(instant: int): int {
    instant / DAY
  }

  function TimeOf(instant: int): TimeOfDay {
    instant % DAY
  }

  function Combine(date: int, time: TimeOfDay): int {
    date * DAY + time
  }

  /** Python's truth value of an optional delay: neither None nor zero. */
  predicate Truthy(delay: Option<int>) {
    delay.Some? && delay.value != 0
  }

  function Max(x: int, y: int): int {
    if x < y then y else x
  }
}

/** Shared vocabulary: optional values, replies and the clock. */
module Common {
  datatype Option<+T> = None | Some(value: T)

  datatype Failure = NotFound | NotPermitted | Invalid | Internal

  datatype Reply<+T> = Ok(value: T) | Err(error: Failure)

  /** An instant in nanoseconds. The zero time is 0 and lies before every other instant. */
  type Time = nat

  /** A length of time in nanoseconds; it may be negative. */
  type Duration = int

  const ZERO_TIME: Time := 0

  const MINUTE: Duration := 60_000_000_000
}

/** Result types and the time unit shared by every module. Times are integer nanoseconds, as in Go's time package. */
module Common {
  datatype Option<+T> = None | Some(value: T)

  datatype Result<+T> = Ok(value: T) | Err(error: string)

  const SECOND: int := 1_000_000_000
}

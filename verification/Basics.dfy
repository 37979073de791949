/** Types shared by every module: optional values, results that carry the
    source's error code, and the Go integer type. */
module Basics {

  datatype Option<+T> = None | Some(value: T)

  /** A Go `(T, error)` pair; `code` is the `Code` of the application error. */
  datatype Result<+T> = Ok(value: T) | Err(code: string)

  const MIN_INT64: int := -0x8000_0000_0000_0000
  const MAX_INT64: int := 0x7fff_ffff_ffff_ffff

  /** Go's `int` on a 64-bit platform. */
  type Int64 = n: int | MIN_INT64 <= n <= MAX_INT64

  /** Instants and durations, in nanoseconds. */
  type Time = int

  const SECOND: int := 1_000_000_000
  const MINUTE: int := 60 * SECOND
  const HOUR: int := 60 * MINUTE
  const DAY: int := 24 * HOUR

  type Id = string

  /** No element occurs twice. */
  predicate Distinct<T(==)>(s: seq<T>) {
    forall i, j :: 0 <= i < j < |s| ==> s[i] != s[j]
  }
}

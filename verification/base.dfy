/**
 Values shared by every part of the scheduler model: optional values, Go-style
 error results, the way a call into Go code ends (it returns or it panics), and
 Go's 64-bit signed integers with their wrap-around.
 */
module Base {

  /** A value that may be absent (a Go nil). */
  datatype Option<+T> = None | Some(value: T)

  /** A Go `(T, error)` pair in which exactly one side is meaningful. */
  datatype Result<+T> = Ok(value: T) | Err(error: Error)

  /** Go `error` values, split by the one distinction the core makes about
      them: whether the dynamic type is the broker library's `amqp.Error`. */
  datatype Error = AmqpError(code: int, reason: string) | GoError(message: string)

  /** How a call into Go code ends: it returns an error or nil, or it panics
      (an unrecovered panic ends the process). */
  datatype Outcome = Returned(err: Option<Error>) | Panicked

  const MinInt64: int := -0x8000_0000_0000_0000
  const MaxInt64: int := 0x7fff_ffff_ffff_ffff
  const TwoTo64: int := 0x1_0000_0000_0000_0000

  /** Go's `int64`. */
  type Int64 = x: int | MinInt64 <= x <= MaxInt64

  /** An instant, in nanoseconds since the Unix epoch, UTC (Go's `time.Time`
      reduced to the instant it denotes). */
  type Time = int

  /** Raw message bytes. */
  type Bytes = seq<bv8>

  /** The int64 that Go's wrapping arithmetic produces for the mathematical
      value `x`: the unique int64 congruent to `x` modulo 2^64. */
  function Wrap64(x: int): (r: Int64)
    ensures (r - x) % TwoTo64 == 0
    ensures MinInt64 <= x <= MaxInt64 ==> r == x
  {
    var m := x % TwoTo64;
    assert x == (x / TwoTo64) * TwoTo64 + m;
    if m > MaxInt64 then m - TwoTo64 else m
  }
}

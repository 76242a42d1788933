/** Go's dynamic values, errors and fixed-width integers, as far as the cache
    observes them. */
module Values {

  /** The name of a Go dynamic type as reflection reports it ("string", "error", ...). */
  type Ty = string

  /** An `interface{}` value: the nil interface, or a value of a dynamic type.
      The payload is opaque to the cache, so only its printed form is kept. */
  datatype Value = Nil | Typed(ty: Ty, repr: string)

  /** A non-nil Go `error`; a nil error is `None` in an `Option<Error>`. */
  datatype Error = Error(msg: string)

  const TwoTo63: int := 0x8000_0000_0000_0000
  const TwoTo64: int := 0x1_0000_0000_0000_0000

  /** Go's `int64`. */
  type Int64 = x: int | -0x8000_0000_0000_0000 <= x < 0x8000_0000_0000_0000

  /** Go's `time.Duration`: an `int64` count of nanoseconds. */
  type Duration = Int64

  /** `time.Second` */
  const Second: Duration := 1_000_000_000

  /** The largest whole number of seconds a `Duration` can hold. */
  const MaxDurationSeconds: int := 9_223_372_036

  /** Two's-complement wrap-around of an `int64` arithmetic result. */
  function Wrap64(x: int): (r: Int64)
    ensures (r - x) % TwoTo64 == 0
    ensures -TwoTo63 <= x < TwoTo63 ==> r == x
  {
    var q := (x + TwoTo63) / TwoTo64;
    var r := x + TwoTo63 - q * TwoTo64 - TwoTo63;
    assert r - x == -q * TwoTo64;
    r
  }
}

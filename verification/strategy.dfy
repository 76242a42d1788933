/** The `Strategy` interface of cache.go: where cached results live. A
    strategy is modelled as three operations over a state `S` that the cache
    threads through its calls, so that a storage medium's effects are
    visible. The clock a strategy consults is passed in as `now`, in
    nanoseconds; the request context is not modelled. */
module StrategyInterface {
  import opened Wrappers
  import opened Values

  datatype Strategy<!S> = Strategy(
    /** `GetName` */
    name: string,
    /** `Read(ctx, key, opType)`: the stored value or an error. */
    read: (S, int, string, Ty) -> (S, Result<Value, Error>),
    /** `Write(ctx, key, expiration, res, err)` */
    write: (S, int, string, Duration, Value, Option<Error>) -> (S, Option<Error>),
    /** `Delete(ctx, key)` */
    delete: (S, string) -> (S, Option<Error>))

  /** One call the cache made on its strategy, recorded in order. */
  datatype Call =
    | ReadCall(key: string, opType: Ty)
    | WriteCall(key: string, expiration: Duration, res: Value, err: Option<Error>)
    | DeleteCall(key: string)
}

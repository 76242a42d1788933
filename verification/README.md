# go-cache in Dafny

A functional model of the go-cache memoisation library: the read-through
orchestrator `Cache` / `Delete` of `cache.go` and the in-process TTL store
`InApp` of `inapp.go`, with proofs of what they promise.

- `Cache` takes a function value and its arguments, checks the call's shape
  (a function; one assignable argument per parameter; exactly two results,
  the second an `error`), derives the function's cache identity from its
  runtime name, builds the key `name + "_" + key`, consults the per-function
  configuration, and then calls the function directly (caching off), panics
  (caching on, nil strategy), serves the strategy's stored value (hit) or calls
  the function and writes its `(res, err)` back best-effort (miss).
- `Delete` forwards the caller's key, unprefixed, to the strategy.
- `InApp` is a map from key to `Item{object, expiration}`; a read that finds a
  stale item removes it. Expiry is strict: an item is stale only when
  `now > expiration` (`time.Time.After`).

Modules, one per component: `Wrappers` (Option/Result), `Values` (Go values,
errors, `int64` and `time.Duration` with explicit wrap-around), `FuncName`
(`getFuncName` and the `filepath.Ext` it relies on), `Reflection` (callable
descriptor, the shape checks, `invoke`), `StrategyInterface` (the `Strategy`
interface as a record of three state-threading operations, plus a log of calls),
`InApp` (the store), `Orchestrator` (`Cache`, `Delete`, configuration, keys)
and `Scenarios` (successive `Cache`/`Delete` calls over the `InApp` store).

Modelling choices:
- Reflection is replaced by a descriptor `Fn(fullName, params, results, body)`;
  `AssignableTo` and `Implements(error)` are the caller-supplied relations of
  `TypeRules`. The runtime name lookup `runtime.FuncForPC(...).Name()` is
  replaced by the descriptor's `fullName`.
- The strategy is a value of `Strategy<S>` whose operations take and return a
  state `S`; `Cache` threads it and returns the calls it made, in order, and the
  number of times it ran the function.
- The wall clock is an explicit parameter in nanoseconds: `Cache` takes the
  instant of the strategy's read and of its write separately.
- `inapp.go` gives `InApp` value receivers over a `sync.Map`, so in Go each
  method works on a copy of the struct, and `NewInApp` returns an undeclared
  type `Storage`. The model gives the evident intent: one map threaded through
  `Read`, `Write` and `Delete`.
- A nil argument makes `checkForArgsError` panic in Go (`reflect.TypeOf(nil)`
  is nil); the model returns `Panicked(NilArgument(i))` for it.

Behaviour of the code worth knowing, each stated by a lemma:
- Expiry is inclusive: an item is served up to and including its expiration
  instant, so a zero TTL still hits at the very instant of the write
  (`InApp.ZeroTtlWrite`, `Scenarios.ZeroTtl`).
- Failed results are cached: `Cache` writes `(res, err)` whatever `err` is,
  and a later hit returns the stored `res` with a nil error
  (`Scenarios.RepeatWithinTtlHits`).
- Keys collide once a function name holds '_': `name + "_" + key` is the same
  for `f` with key "a_b" and `f_a` with key "b"
  (`Orchestrator.CacheKeyCollision`); for names without '_' it is injective
  (`Orchestrator.CacheKeyInjective`).

## Model

| member | source | states |
|---|---|---|
| FuncName.LastSegmentSpec | cache.go:117 | the segment `filepath.Ext` scans is the path's suffix after its last '/', holds no '/', and is the whole path or is preceded by '/' |
| FuncName.FileExt | cache.go:117 | `filepath.Ext`: the extension is empty or starts with '.', holds no '/' and no second '.', and is no longer than the path (`FileExtSpec` pins which suffix it is) |
| FuncName.TrimDot | cache.go:118 | `strings.TrimPrefix(s, ".")`: exactly one leading '.' is removed when there is one, and otherwise the string is kept |
| FuncName.FileExtSpec | cache.go:117 | the extension is empty exactly when the last segment has no '.', and otherwise is the segment's suffix that starts with a '.' and holds no other '.' |
| FuncName.GetFuncName | cache.go:115-124 | the identity never contains '.' or '/', and is empty when the last segment of the runtime name has no '.' |
| FuncName.StripMethodSuffix | cache.go:119-122 | one trailing "-fm" is removed exactly when the name is longer than three characters and ends in it; otherwise the name is kept |
| FuncName.NameOfFunction | cache.go:115-124 | round trip: the identity recovered from "<package path>.<ident>" is `ident` for any identifier without '.', '/' or a removable "-fm" |
| FuncName.NameOfMethodValue | cache.go:119-122 | round trip: the identity recovered from a method value's name "<receiver>.<ident>-fm" is `ident` |
| FuncName.FileExtOfDotted | cache.go:117 | a path ending in '.' followed by a tail without '.' or '/' has that dot and tail as its extension |
| Reflection.FetchFuncType | cache.go:127-134 | only a function value passes; any other value is rejected with the not-a-function error carrying that value |
| Reflection.CheckForArgsError | cache.go:137-148 | passes exactly when the counts match and every argument fits its parameter; a count mismatch is reported first with both counts; otherwise the first misfit is reported with its expected and provided type, or panics when it is a nil argument |
| Reflection.CheckArgsFrom | cache.go:142-146 | from a position on: passes exactly when every later argument fits, and a failure names the first non-fitting position with all earlier ones fitting |
| Reflection.CheckArgIndexForError | cache.go:93-98 | passes exactly when the result at the index implements `error`; otherwise the second-result error |
| Orchestrator.IsCachingEnabled | cache.go:37-43 | on exactly when the function has an enabled entry; no entry gives a zero TTL; otherwise the TTL is seconds times 10^9 nanoseconds modulo 2^64, and exactly that product within the int64 range |
| Orchestrator.Validate | cache.go:50-66 | accepts exactly the well-shaped calls; errors in the order `Cache` runs the checks (cache.go:50-66): not a function, then argument count, then the first misfitting argument (with its index, expected and provided type and the function's name) or a nil-argument panic, then result count, then a second result that is not an `error` |
| Orchestrator.Cache | cache.go:49-82 | every validation error is returned as that error and a nil argument panics with its index; a rejected call touches neither configuration, strategy nor function; caching off equals a direct call and never touches the strategy, even a nil one; caching on with nil strategy panics before any read, state untouched; every strategy key is name + "_" + key; a hit returns the stored value with nil error and no call; a miss calls once, writes `(res, err)` with the configured TTL and returns `(res, err)` |
| Orchestrator.Dispatch | cache.go:67-73 | after the checks: caching off is one direct call with no strategy call and the state unchanged; caching on with a nil strategy panics with the state unchanged; caching on with a strategy is the read-through under `name + "_" + key` with the configured TTL; the strategy is only ever called when caching is on |
| Orchestrator.ReadThrough | cache.go:74-81 | one read under the key; on success the stored value with a nil error and no call; on any read error one call, one write of its `(res, err)` under the same key with the TTL, the write's error dropped, and `(res, err)` returned |
| Orchestrator.Delete | cache.go:85-90 | panics exactly when the strategy is nil; otherwise one delete with the caller's key unchanged |
| Orchestrator.CacheKey | cache.go:55 | the key is the function's name, then '_' at position `|name|`, then the caller's key, with length `|name| + 1 + |key|` |
| Orchestrator.CacheKeyInjective | cache.go:55 | two (name, key) pairs whose names hold no '_' share a cache key only when they are equal |
| Orchestrator.CacheKeyCollision | cache.go:55 | a name may hold '_', and then function `f` with key "a_b" and function `f_a` with key "b" share one key |
| Orchestrator.CacheReadsThrough | cache.go:67-81 | with caching on and a strategy present, `Cache` is the read-through under the prefixed key with the configured TTL |
| InApp.GetName | inapp.go:25-27 | the name is "InApp" |
| InApp.Read | inapp.go:29-45 | absent key: "cache miss", store unchanged; stale item (`now` after its expiration): "cache expired" and only that key removed; otherwise its object and store unchanged |
| InApp.Write | inapp.go:47-50 | the key now maps to the object until `now + expiration`, other keys unchanged, the result is nil |
| InApp.Delete | inapp.go:52-55 | the key is gone, other keys unchanged, the result is nil |
| InApp.WriteThenRead | inapp.go:39-48 | a written object is read back at any instant up to and including its expiration, and that read changes nothing |
| InApp.WriteThenReadExpired | inapp.go:39-48 | after the expiration instant the read reports "cache expired" and leaves the store as before the write minus that key |
| InApp.ZeroTtlWrite | inapp.go:40-48 | a zero TTL write is served at the instant of the write and expired at any later one |
| InApp.WriteIgnoresErr | inapp.go:47-49 | the error handed to `Write` does not affect the store |
| InApp.ReadLiveIsPure | inapp.go:39-44 | reading a live item leaves the store unchanged, so reading twice is reading once |
| InApp.DeleteIdempotent | inapp.go:52-55 | deleting twice is deleting once |
| InApp.ReadAfterDelete | inapp.go:29-34 | a read right after deleting the key is a miss |
| Scenarios.RepeatWithinTtlHits | cache.go:74-81 | first call on an absent entry runs the function; a repeat up to the expiration instant runs nothing and returns the stored value with a nil error even if the first returned an error |
| Scenarios.RepeatAfterTtlRecomputes | cache.go:74-81 | a repeat after the expiration instant runs the function again and stores the fresh result until its own write instant plus the TTL |
| Scenarios.ZeroTtl | inapp.go:40 | with a TTL of 0 seconds (so a zero `time.Duration` from cache.go:42) the repeat is a hit only at the instant of the first write, because `time.After` is strict |
| Scenarios.MissStoresResult | cache.go:79-81 | a call on an absent entry runs the function once and leaves the store with `(res, write instant + TTL)` under the prefixed key |
| Scenarios.StaleEntryRecomputed | cache.go:74-81 | a stale entry under the prefixed key is dropped by the read, the function runs once, and its `(res, err)` replaces the entry until the write instant plus the TTL |
| Scenarios.LiveEntryServed | cache.go:75-78 | a live entry under the prefixed key is returned with a nil error, no call and the store unchanged |
| Scenarios.DeleteWithCallerKeyMissesEntry | cache.go:85-90 | deleting with the caller's own key does not remove what `Cache` stored under the prefixed key |
| Scenarios.DeleteWithCacheKeyForcesRecompute | cache.go:85-90 | deleting with the prefixed key makes the next call run the function |
| Scenarios.DisabledAlwaysRecomputes | cache.go:67-70 | with caching off every call runs the function and leaves the store untouched |
| Scenarios.ArityMismatchRejected | cache.go:137-141 | one argument for a two-parameter function is rejected with the counts 2 and 1, and the store is untouched |
| Values.Wrap64 | cache.go:42 | the result is an int64 congruent to the input modulo 2^64, and equal to it when it is already in range |

## Left out

- redis.go: a wrapper over a networked Redis client and JSON encoding, whose connection is set up in a package `init`; nothing of it is visible to a proof.
- `Init` and the package-level configuration map: the configuration is a parameter of `Cache`.
- Reflection: `reflect.Call`, `AssignableTo`, `Implements` and `runtime.FuncForPC` are replaced by the descriptor and the `TypeRules` relations.
- Reflection.Invoke: panics raised inside the called function, and a second result that is not an error value at run time, are not modelled; the body returns the `(res, err)` pair directly. Variadic functions are not modelled either: `reflect.Value.Call` (cache.go:108) packs the last argument into the variadic slice, so a variadic function whose `[]T` argument passes `checkForArgsError` panics in the call (or, for `...interface{}`, receives its slice wrapped in another); `Fn` has no variadic flag. `Invoke` has no row in the table because its result is the called function's own, which is an input of the model.
- Validation error messages: the errors carry their data (counts, index, types, function name) rather than the formatted text.
- InApp.Read: the branch for a stored value that is not an `Item` ("cached entry is not of expected type") cannot arise, since the modelled store holds only items; the expected result type passed to `Read` is ignored, as in the code.
- Concurrency: `sync.Map` and parallel callers are not modelled; every operation is one atomic step on one threaded store.
- Time: `time.Time` arithmetic is unbounded integer nanoseconds; overflow of `time.Now().Add` and the monotonic clock reading are not modelled.
- The `context.Context` argument of every call is not modelled.
- FuncName.GetFuncName: only '/' is a path separator, as on Unix systems; Windows' '\\' is not modelled.
- `NewInApp`, `NewInRedis` and examples_test.go: constructors and an integration test that needs a live Redis contribute no checkable behaviour.

/** The read-through orchestrator of cache.go: `Cache`, `Delete` and the
    per-function configuration. The package-level configuration map that
    `Init` sets is a parameter here. */
module Orchestrator {
  import opened Wrappers
  import opened Values
  import opened FuncName
  import opened Reflection
  import opened StrategyInterface

  /** `Config`: per-function caching switch and time to live. */
  datatype Config = Config(ttlInSeconds: Int64, enabled: bool)

  /** Caching is switched on for `fnName`: it has an entry that enables it. */
  predicate CachingOn(cfg: map<string, Config>, fnName: string)
  {
    fnName in cfg && cfg[fnName].enabled
  }

  /** `isCachingEnabled`: a missing entry means off with no expiration;
      otherwise the entry's switch and its TTL as a `Duration`. Go computes
      `time.Duration(TtlInSeconds) * time.Second` in `int64`, which wraps for
      TTLs beyond about 292 years; the wrap is modelled. */
  function IsCachingEnabled(cfg: map<string, Config>, fnName: string): (r: (bool, Duration))
    ensures r.0 <==> CachingOn(cfg, fnName)
    ensures fnName !in cfg ==> r.1 == 0
    ensures fnName in cfg ==> (r.1 - cfg[fnName].ttlInSeconds * Second) % TwoTo64 == 0
    ensures fnName in cfg && -MaxDurationSeconds <= cfg[fnName].ttlInSeconds <= MaxDurationSeconds ==>
      r.1 == cfg[fnName].ttlInSeconds * Second
  {
    if fnName !in cfg then (false, 0)
    else
      var conf := cfg[fnName];
      (conf.enabled, Wrap64(conf.ttlInSeconds * Second))
  }

  /** The separator between the function's name and the caller's key. */
  const Separator: string := "_"

  /** `k` is laid out as the function's name, the separator, then the key. */
  predicate KeyLayout(k: string, fnName: string, key: string)
  {
    && |k| == |fnName| + 1 + |key|
    && k[..|fnName|] == fnName && k[|fnName|] == '_' && k[|fnName| + 1..] == key
  }

  /** The key under which `Cache` stores a result. */
  function CacheKey(fnName: string, key: string): (k: string)
    ensures KeyLayout(k, fnName, key)
  {
    fnName + Separator + key
  }

  /** A call the checks accept: a function, with one fitting argument per
      parameter, and exactly two results of which the second is an `error`. */
  predicate WellShaped(rules: TypeRules, fnc: Callable, args: seq<Value>)
  {
    && fnc.Func?
    && |args| == |fnc.fn.params|
    && FitFrom(rules, args, fnc.fn.params, 0)
    && |fnc.fn.results| == 2
    && rules.implementsError(fnc.fn.results[1])
  }

  datatype Validation = Valid(fn: Fn, fnName: string) | Invalid(error: ValidationError) | InvalidPanic(index: nat)

  /** The checks `Cache` runs before anything else, in the order it runs them
      (cache.go:50-66): is it a function, the argument count, each argument's
      type (the first misfit is reported), the result count, the second
      result's type. */
  function Validate(rules: TypeRules, fnc: Callable, args: seq<Value>): (v: Validation)
    ensures v.Valid? <==> WellShaped(rules, fnc, args)
    ensures v.Valid? ==> v.fn == fnc.fn && v.fnName == GetFuncName(fnc.fn.fullName)
    ensures fnc.NotFunc? ==> v == Invalid(NotAFunc(fnc.value))
    ensures fnc.Func? && |args| != |fnc.fn.params| ==>
      v == Invalid(ArgCountMismatch(|fnc.fn.params|, |args|, GetFuncName(fnc.fn.fullName)))
    ensures v.InvalidPanic? ==>
      && fnc.Func? && |args| == |fnc.fn.params| && v.index < |args| && args[v.index].Nil?
      && forall j :: 0 <= j < v.index ==> Fits(rules, args[j], fnc.fn.params[j])
    ensures v.Invalid? && v.error.ArgTypeMismatch? ==>
      && fnc.Func? && |args| == |fnc.fn.params|
      && var i := v.error.index;
      && i < |args| && args[i].Typed? && !rules.assignable(args[i].ty, fnc.fn.params[i])
      && v.error.expectedType == fnc.fn.params[i] && v.error.providedType == args[i].ty
      && v.error.fnName == GetFuncName(fnc.fn.fullName)
      && forall j :: 0 <= j < i ==> Fits(rules, args[j], fnc.fn.params[j])
    // With the count right, a misfitting argument is what gets reported.
    ensures fnc.Func? && |args| == |fnc.fn.params| && !FitFrom(rules, args, fnc.fn.params, 0) ==>
      v.InvalidPanic? || (v.Invalid? && v.error.ArgTypeMismatch?)
    ensures (v.Invalid? && v.error.ResultCountMismatch?) <==>
      fnc.Func? && |args| == |fnc.fn.params| && FitFrom(rules, args, fnc.fn.params, 0)
      && |fnc.fn.results| != 2
    ensures (v.Invalid? && v.error.SecondResultNotError?) <==>
      fnc.Func? && |args| == |fnc.fn.params| && FitFrom(rules, args, fnc.fn.params, 0)
      && |fnc.fn.results| == 2 && !rules.implementsError(fnc.fn.results[1])
    ensures v.Invalid? && (v.error.ResultCountMismatch? || v.error.SecondResultNotError?) ==>
      v.error.fnName == GetFuncName(fnc.fn.fullName)
  {
    match FetchFuncType(fnc)
    case Failure(e) => Invalid(e)
    case Success(fn) =>
      var fnName := GetFuncName(fn.fullName);
      match CheckForArgsError(rules, args, fnName, fn)
      case ArgsInvalid(e) => Invalid(e)
      case ArgsPanic(i) => InvalidPanic(i)
      case ArgsOk =>
        if |fn.results| != 2 then Invalid(ResultCountMismatch(fnName))
        else
          match CheckArgIndexForError(rules, fn, 1, fnName)
          case Some(e) => Invalid(e)
          case None => Valid(fn, fnName)
  }

  /** Why a call panicked instead of returning. */
  datatype PanicReason = NilStrategy | NilArgument(index: nat)

  /** What `Cache` hands back: the pair `(res, err)`, a validation error
      (returned in Go as `(nil, err)`), or a panic. */
  datatype CacheResult = Returned(res: Value, err: Option<Error>) | Rejected(error: ValidationError) | Panicked(reason: PanicReason)

  /** A `Cache` call's result, the strategy's state after it, the calls made
      on the strategy in order, and how many times the function ran. */
  datatype Outcome<S> = Outcome(result: CacheResult, state: S, calls: seq<Call>, invocations: nat)

  /** `Cache`: validate, then either call the function directly (caching
      off), panic (caching on, no strategy), serve the strategy's value (hit)
      or call the function and write its result back (miss). The strategy's
      read happens at `readAt` and its write at `writeAt`. */
  function Cache<S(==)>(cfg: map<string, Config>, rules: TypeRules, key: string, strategy: Option<Strategy<S>>,
                        st: S, readAt: int, writeAt: int, fnc: Callable, args: seq<Value>): (o: Outcome<S>)
    ensures o.invocations <= 1
    // A rejected call reaches neither the configuration, the strategy nor the function.
    ensures !WellShaped(rules, fnc, args) ==>
      && (o.result.Rejected? || o.result.Panicked?)
      && o.calls == [] && o.invocations == 0 && o.state == st
    ensures o.result.Rejected? ==> Validate(rules, fnc, args) == Invalid(o.result.error)
    // A validation failure is returned as that error; a nil argument panics.
    ensures Validate(rules, fnc, args).Invalid? ==> o.result == Rejected(Validate(rules, fnc, args).error)
    ensures Validate(rules, fnc, args).InvalidPanic? ==> o.result == Panicked(NilArgument(Validate(rules, fnc, args).index))
    // The strategy is used only for an accepted call to a function whose caching is on.
    ensures |o.calls| > 0 ==>
      WellShaped(rules, fnc, args) && CachingOn(cfg, GetFuncName(fnc.fn.fullName)) && strategy.Some?
    // Every key the strategy sees is the function's name, "_", then the caller's key.
    ensures forall c :: c in o.calls ==> !c.DeleteCall? && c.key == CacheKey(GetFuncName(fnc.fn.fullName), key)
    // Caching off: exactly a direct call, whatever the strategy, even a nil one.
    ensures WellShaped(rules, fnc, args) && !CachingOn(cfg, GetFuncName(fnc.fn.fullName)) ==>
      && o.result == Returned(fnc.fn.body(args).res, fnc.fn.body(args).err)
      && o.calls == [] && o.invocations == 1 && o.state == st
    // Caching on with a nil strategy: a panic before any read.
    ensures WellShaped(rules, fnc, args) && CachingOn(cfg, GetFuncName(fnc.fn.fullName)) && strategy.None? ==>
      o.result == Panicked(NilStrategy) && o.calls == [] && o.invocations == 0 && o.state == st
    // Caching on: one read, then either the hit or the call and the write.
    ensures WellShaped(rules, fnc, args) && CachingOn(cfg, GetFuncName(fnc.fn.fullName)) && strategy.Some? ==>
      var name := GetFuncName(fnc.fn.fullName);
      var k := CacheKey(name, key);
      var read := strategy.value.read(st, readAt, k, fnc.fn.results[0]);
      var ret := fnc.fn.body(args);
      && |o.calls| >= 1 && o.calls[0] == ReadCall(k, fnc.fn.results[0])
      && (read.1.Success? ==>
            o.result == Returned(read.1.value, None) && o.invocations == 0
            && |o.calls| == 1 && o.state == read.0)
      && (read.1.Failure? ==>
            && o.result == Returned(ret.res, ret.err) && o.invocations == 1
            && |o.calls| == 2 && o.calls[1] == WriteCall(k, IsCachingEnabled(cfg, name).1, ret.res, ret.err)
            && o.state == strategy.value.write(read.0, writeAt, k, IsCachingEnabled(cfg, name).1, ret.res, ret.err).0)
  {
    match Validate(rules, fnc, args)
    case Invalid(e) => Outcome(Rejected(e), st, [], 0)
    case InvalidPanic(i) => Outcome(Panicked(NilArgument(i)), st, [], 0)
    case Valid(fn, fnName) => Dispatch(cfg, key, strategy, st, readAt, writeAt, fn, fnName, args)
  }

  /** `Cache` after the checks: build the key, consult the configuration,
      then call directly, panic, or read through the strategy. */
  function Dispatch<S(==)>(cfg: map<string, Config>, key: string, strategy: Option<Strategy<S>>,
                           st: S, readAt: int, writeAt: int, fn: Fn, fnName: string, args: seq<Value>): (o: Outcome<S>)
    requires |fn.results| == 2
    ensures o.invocations <= 1
    ensures |o.calls| > 0 ==> CachingOn(cfg, fnName) && strategy.Some?
    ensures forall c :: c in o.calls ==> !c.DeleteCall? && c.key == CacheKey(fnName, key)
    ensures !CachingOn(cfg, fnName) ==>
      o == Outcome(Returned(fn.body(args).res, fn.body(args).err), st, [], 1)
    ensures CachingOn(cfg, fnName) && strategy.None? ==> o == Outcome(Panicked(NilStrategy), st, [], 0)
    ensures CachingOn(cfg, fnName) && strategy.Some? ==>
      o == ReadThrough(strategy.value, st, readAt, writeAt, CacheKey(fnName, key), IsCachingEnabled(cfg, fnName).1, fn, args)
  {
    var k := CacheKey(fnName, key);
    var (enabled, expiration) := IsCachingEnabled(cfg, fnName);
    if !enabled then
      var ret := Invoke(fn, args);
      Outcome(Returned(ret.res, ret.err), st, [], 1)
    else if strategy.None? then
      Outcome(Panicked(NilStrategy), st, [], 0)
    else ReadThrough(strategy.value, st, readAt, writeAt, k, expiration, fn, args)
  }

  /** The caching half of `Cache` (caching on, strategy present): read the
      key; on success return the stored value with a nil error and without
      calling the function; on any read error call the function, write its
      `(res, err)` back under the same key, ignore the write's own error and
      return `(res, err)`. */
  function ReadThrough<S>(strat: Strategy<S>, st: S, readAt: int, writeAt: int, k: string,
                          expiration: Duration, fn: Fn, args: seq<Value>): (o: Outcome<S>)
    requires |fn.results| == 2
    ensures 1 <= |o.calls| <= 2 && o.calls[0] == ReadCall(k, fn.results[0])
    ensures o.invocations <= 1
    ensures forall c :: c in o.calls ==> !c.DeleteCall? && c.key == k
    ensures var read := strat.read(st, readAt, k, fn.results[0]);
      read.1.Success? ==>
        o.result == Returned(read.1.value, None) && o.invocations == 0
        && |o.calls| == 1 && o.state == read.0
    ensures var read := strat.read(st, readAt, k, fn.results[0]);
      var ret := fn.body(args);
      read.1.Failure? ==>
        && o.result == Returned(ret.res, ret.err) && o.invocations == 1
        && |o.calls| == 2 && o.calls[1] == WriteCall(k, expiration, ret.res, ret.err)
        && o.state == strat.write(read.0, writeAt, k, expiration, ret.res, ret.err).0
  {
    var opType := fn.results[0];
    var (st1, read) := strat.read(st, readAt, k, opType);
    if read.Success? then
      Outcome(Returned(read.value, None), st1, [ReadCall(k, opType)], 0)
    else
      var ret := Invoke(fn, args);
      // the write's error is dropped: caching is best effort
      var (st2, _) := strat.write(st1, writeAt, k, expiration, ret.res, ret.err);
      Outcome(Returned(ret.res, ret.err), st2, [ReadCall(k, opType), WriteCall(k, expiration, ret.res, ret.err)], 1)
  }

  /** With caching on and a strategy present, `Cache` is the read-through. */
  lemma CacheReadsThrough<S>(cfg: map<string, Config>, rules: TypeRules, key: string, strat: Strategy<S>,
                                 st: S, readAt: int, writeAt: int, fnc: Callable, args: seq<Value>)
    requires WellShaped(rules, fnc, args) && CachingOn(cfg, GetFuncName(fnc.fn.fullName))
    ensures var name := GetFuncName(fnc.fn.fullName);
      Cache(cfg, rules, key, Some(strat), st, readAt, writeAt, fnc, args)
      == ReadThrough(strat, st, readAt, writeAt, CacheKey(name, key), IsCachingEnabled(cfg, name).1, fnc.fn, args)
  {
  }

  /** What `Delete` leaves: whether it panicked, the strategy's state and the
      calls made on it. */
  datatype DeleteOutcome<S> = DeleteOutcome(panicked: bool, state: S, calls: seq<Call>)

  /** `Delete`: hands the caller's key to the strategy as it is, with no
      function-name prefix; panics on a nil strategy; drops the strategy's
      error. */
  function Delete<S(==)>(key: string, strategy: Option<Strategy<S>>, st: S): (o: DeleteOutcome<S>)
    ensures o.panicked <==> strategy.None?
    ensures strategy.None? ==> o.state == st && o.calls == []
    ensures strategy.Some? ==> o.calls == [DeleteCall(key)] && o.state == strategy.value.delete(st, key).0
  {
    match strategy
    case None => DeleteOutcome(true, st, [])
    case Some(strat) =>
      var (st1, _) := strat.delete(st, key);
      DeleteOutcome(false, st1, [DeleteCall(key)])
  }

  /** When neither name contains the separator, different (name, key) pairs
      never share a cache key. */
  lemma CacheKeyInjective(name1: string, key1: string, name2: string, key2: string)
    requires '_' !in name1 && '_' !in name2
    requires CacheKey(name1, key1) == CacheKey(name2, key2)
    ensures name1 == name2 && key1 == key2
  {
    assert |name1| == |name2|;
    assert name1 == name2;
  }

  /** Go identifiers may contain '_', and then keys collide: a function
      `f` with key "a_b" and a function `f_a` with key "b" share a cache entry. */
  lemma CacheKeyCollision(name: string, a: string, b: string)
    ensures CacheKey(name, a + Separator + b) == CacheKey(name + Separator + a, b)
  {
  }
}

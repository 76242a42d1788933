/** `Cache` and `Delete` of cache.go driven over the in-process store of
    inapp.go: what successive calls observe. */
module Scenarios {
  import opened Wrappers
  import opened Values
  import opened FuncName
  import opened Reflection
  import opened StrategyInterface
  import InApp
  import opened Orchestrator

  /** The in-process store, handed to `Cache` as its strategy. */
  function InAppStrategy(): Option<Strategy<InApp.Store>>
  {
    Some(InApp.AsStrategy())
  }

  /** The call passes the checks and its function has caching switched on. */
  predicate Cached(cfg: map<string, Config>, rules: TypeRules, fnc: Callable, args: seq<Value>)
  {
    WellShaped(rules, fnc, args) && CachingOn(cfg, GetFuncName(fnc.fn.fullName))
  }

  /** The store key `Cache` uses for the call. */
  function KeyOf(fnc: Callable, key: string): string
    requires fnc.Func?
  {
    CacheKey(GetFuncName(fnc.fn.fullName), key)
  }

  /** The time to live configured for the call's function. */
  function TtlOf(cfg: map<string, Config>, fnc: Callable): Duration
    requires fnc.Func?
  {
    IsCachingEnabled(cfg, GetFuncName(fnc.fn.fullName)).1
  }

  /** With caching on, `Cache` over the store is the read-through under the
      call's key and TTL. */
  lemma InAppReadsThrough(cfg: map<string, Config>, rules: TypeRules, key: string, s: InApp.Store,
                          r: int, w: int, fnc: Callable, args: seq<Value>)
    requires Cached(cfg, rules, fnc, args)
    ensures Cache(cfg, rules, key, InAppStrategy(), s, r, w, fnc, args)
      == ReadThrough(InApp.AsStrategy(), s, r, w, KeyOf(fnc, key), TtlOf(cfg, fnc), fnc.fn, args)
  {
    CacheReadsThrough(cfg, rules, key, InApp.AsStrategy(), s, r, w, fnc, args);
  }

  /** The read-through over the store when the key is absent: one call of
      the function, whose result is stored until the write instant plus the TTL. */
  lemma ReadThroughMiss(s: InApp.Store, r: int, w: int, k: string, ttl: Duration, fn: Fn, args: seq<Value>)
    requires |fn.results| == 2
    requires k !in s
    ensures var o := ReadThrough(InApp.AsStrategy(), s, r, w, k, ttl, fn, args);
      && o.invocations == 1 && o.result == Returned(fn.body(args).res, fn.body(args).err)
      && o.state == s[k := InApp.Item(fn.body(args).res, w + ttl)]
  {
  }

  /** The read-through over the store when the key holds a stale item: the
      read drops it, and the function's fresh result is stored in its place. */
  lemma ReadThroughStale(base: InApp.Store, item: InApp.Item, r: int, w: int, k: string, ttl: Duration,
                          fn: Fn, args: seq<Value>)
    requires |fn.results| == 2
    requires InApp.Expired(item, r)
    ensures var s := base[k := item];
      var o := ReadThrough(InApp.AsStrategy(), s, r, w, k, ttl, fn, args);
      && o.invocations == 1 && o.result == Returned(fn.body(args).res, fn.body(args).err)
      && o.state == s[k := InApp.Item(fn.body(args).res, w + ttl)]
  {
    var s := base[k := item];
    assert (s - {k})[k := InApp.Item(fn.body(args).res, w + ttl)] == s[k := InApp.Item(fn.body(args).res, w + ttl)];
  }

  /** A call that finds no entry runs the function and stores its result
      under the prefixed key until the write instant plus the TTL; the store
      is `base` without that key. */
  lemma MissStoresResult(cfg: map<string, Config>, rules: TypeRules, key: string, base: InApp.Store,
                         r: int, w: int, fnc: Callable, args: seq<Value>)
    requires Cached(cfg, rules, fnc, args)
    ensures var s := base - {KeyOf(fnc, key)};
      var o := Cache(cfg, rules, key, InAppStrategy(), s, r, w, fnc, args);
      && o.invocations == 1 && o.result == Returned(fnc.fn.body(args).res, fnc.fn.body(args).err)
      && o.state == s[KeyOf(fnc, key) := InApp.Item(fnc.fn.body(args).res, w + TtlOf(cfg, fnc))]
  {
    var s := base - {KeyOf(fnc, key)};
    InAppReadsThrough(cfg, rules, key, s, r, w, fnc, args);
    ReadThroughMiss(s, r, w, KeyOf(fnc, key), TtlOf(cfg, fnc), fnc.fn, args);
  }

  /** A call that finds a stale entry runs the function and stores the fresh
      result in its place; `base` is the store apart from that entry. */
  lemma StaleEntryRecomputed(cfg: map<string, Config>, rules: TypeRules, key: string, base: InApp.Store,
                             item: InApp.Item, r: int, w: int, fnc: Callable, args: seq<Value>)
    requires Cached(cfg, rules, fnc, args)
    requires InApp.Expired(item, r)
    ensures var s := base[KeyOf(fnc, key) := item];
      var o := Cache(cfg, rules, key, InAppStrategy(), s, r, w, fnc, args);
      && o.invocations == 1 && o.result == Returned(fnc.fn.body(args).res, fnc.fn.body(args).err)
      && o.state == s[KeyOf(fnc, key) := InApp.Item(fnc.fn.body(args).res, w + TtlOf(cfg, fnc))]
  {
    var s := base[KeyOf(fnc, key) := item];
    InAppReadsThrough(cfg, rules, key, s, r, w, fnc, args);
    ReadThroughStale(base, item, r, w, KeyOf(fnc, key), TtlOf(cfg, fnc), fnc.fn, args);
  }

  /** A live entry under the call's key is served: no call of the function,
      the entry's object back with a nil error, and the store unchanged;
      `base` is the store apart from that entry. */
  lemma LiveEntryServed(cfg: map<string, Config>, rules: TypeRules, key: string, base: InApp.Store,
                        item: InApp.Item, r: int, w: int, fnc: Callable, args: seq<Value>)
    requires Cached(cfg, rules, fnc, args)
    requires !InApp.Expired(item, r)
    ensures var s := base[KeyOf(fnc, key) := item];
      var o := Cache(cfg, rules, key, InAppStrategy(), s, r, w, fnc, args);
      o.invocations == 0 && o.result == Returned(item.obj, None) && o.state == s
  {
    var s := base[KeyOf(fnc, key) := item];
    InAppReadsThrough(cfg, rules, key, s, r, w, fnc, args);
  }

  /** A first call on an absent entry runs the function and stores its result;
      a second call up to and including the expiration instant is served from
      the store without running the function, and returns the stored value
      with a nil error even when the first call's error was not nil. */
  lemma RepeatWithinTtlHits(cfg: map<string, Config>, rules: TypeRules, key: string, s: InApp.Store,
                            r1: int, w1: int, r2: int, w2: int, fnc: Callable, args: seq<Value>)
    requires Cached(cfg, rules, fnc, args)
    requires KeyOf(fnc, key) !in s
    requires w1 <= r2 <= w1 + TtlOf(cfg, fnc)
    ensures var o1 := Cache(cfg, rules, key, InAppStrategy(), s, r1, w1, fnc, args);
      var o2 := Cache(cfg, rules, key, InAppStrategy(), o1.state, r2, w2, fnc, args);
      var ret := fnc.fn.body(args);
      && o1.invocations == 1 && o1.result == Returned(ret.res, ret.err)
      && o2.invocations == 0 && o2.result == Returned(ret.res, None)
      && o2.state == o1.state
  {
    var o1 := Cache(cfg, rules, key, InAppStrategy(), s, r1, w1, fnc, args);
    assert s - {KeyOf(fnc, key)} == s;
    MissStoresResult(cfg, rules, key, s, r1, w1, fnc, args);
    LiveEntryServed(cfg, rules, key, s, InApp.Item(fnc.fn.body(args).res, w1 + TtlOf(cfg, fnc)), r2, w2, fnc, args);
  }

  /** A second call after the expiration instant runs the function again, and
      stores the fresh result. */
  lemma RepeatAfterTtlRecomputes(cfg: map<string, Config>, rules: TypeRules, key: string, s: InApp.Store,
                                 r1: int, w1: int, r2: int, w2: int, fnc: Callable, args: seq<Value>)
    requires Cached(cfg, rules, fnc, args)
    requires KeyOf(fnc, key) !in s
    requires r2 > w1 + TtlOf(cfg, fnc)
    ensures var o1 := Cache(cfg, rules, key, InAppStrategy(), s, r1, w1, fnc, args);
      var o2 := Cache(cfg, rules, key, InAppStrategy(), o1.state, r2, w2, fnc, args);
      var ret := fnc.fn.body(args);
      && o2.invocations == 1 && o2.result == Returned(ret.res, ret.err)
      && KeyOf(fnc, key) in o2.state
      && o2.state[KeyOf(fnc, key)] == InApp.Item(ret.res, w2 + TtlOf(cfg, fnc))
  {
    var o1 := Cache(cfg, rules, key, InAppStrategy(), s, r1, w1, fnc, args);
    assert s - {KeyOf(fnc, key)} == s;
    MissStoresResult(cfg, rules, key, s, r1, w1, fnc, args);
    StaleEntryRecomputed(cfg, rules, key, s, InApp.Item(fnc.fn.body(args).res, w1 + TtlOf(cfg, fnc)), r2, w2, fnc, args);
  }

  /** With a TTL of zero seconds the entry is still served to a call at the
      very instant it was written, and to no later call. */
  lemma ZeroTtl(cfg: map<string, Config>, rules: TypeRules, key: string, s: InApp.Store,
                r1: int, w1: int, r2: int, w2: int, fnc: Callable, args: seq<Value>)
    requires Cached(cfg, rules, fnc, args)
    requires cfg[GetFuncName(fnc.fn.fullName)].ttlInSeconds == 0
    requires KeyOf(fnc, key) !in s
    requires r2 >= w1
    ensures var o1 := Cache(cfg, rules, key, InAppStrategy(), s, r1, w1, fnc, args);
      var o2 := Cache(cfg, rules, key, InAppStrategy(), o1.state, r2, w2, fnc, args);
      o2.invocations == if r2 == w1 then 0 else 1
  {
    assert TtlOf(cfg, fnc) == 0;
    if r2 == w1 {
      RepeatWithinTtlHits(cfg, rules, key, s, r1, w1, r2, w2, fnc, args);
    } else {
      RepeatAfterTtlRecomputes(cfg, rules, key, s, r1, w1, r2, w2, fnc, args);
    }
  }

  /** Deleting the caller's key from a store that holds an entry under the
      prefixed key leaves that entry in place. */
  lemma DeleteBesideEntry(s: InApp.Store, k: string, key: string, item: InApp.Item)
    requires |k| > |key|
    ensures InApp.Delete(s[k := item], key).0 == (s - {key})[k := item]
  {
  }

  /** `Delete` with the key the caller gave `Cache` does not reach the entry
      `Cache` stored, which lives under the function-prefixed key: the next
      call within the TTL is still a hit. */
  lemma DeleteWithCallerKeyMissesEntry(cfg: map<string, Config>, rules: TypeRules, key: string, s: InApp.Store,
                                       r1: int, w1: int, r2: int, w2: int, fnc: Callable, args: seq<Value>)
    requires Cached(cfg, rules, fnc, args)
    requires KeyOf(fnc, key) !in s
    requires w1 <= r2 <= w1 + TtlOf(cfg, fnc)
    ensures var o1 := Cache(cfg, rules, key, InAppStrategy(), s, r1, w1, fnc, args);
      var d := Delete(key, InAppStrategy(), o1.state);
      var o2 := Cache(cfg, rules, key, InAppStrategy(), d.state, r2, w2, fnc, args);
      !d.panicked && o2.invocations == 0
  {
    var o1 := Cache(cfg, rules, key, InAppStrategy(), s, r1, w1, fnc, args);
    assert s - {KeyOf(fnc, key)} == s;
    MissStoresResult(cfg, rules, key, s, r1, w1, fnc, args);
    var item := InApp.Item(fnc.fn.body(args).res, w1 + TtlOf(cfg, fnc));
    DeleteBesideEntry(s, KeyOf(fnc, key), key, item);
    LiveEntryServed(cfg, rules, key, s - {key}, item, r2, w2, fnc, args);
  }

  /** `Delete` with the prefixed key removes the entry: the next call runs
      the function again, whatever the time. */
  lemma DeleteWithCacheKeyForcesRecompute(cfg: map<string, Config>, rules: TypeRules, key: string, s: InApp.Store,
                                          r1: int, w1: int, r2: int, w2: int, fnc: Callable, args: seq<Value>)
    requires Cached(cfg, rules, fnc, args)
    ensures var o1 := Cache(cfg, rules, key, InAppStrategy(), s, r1, w1, fnc, args);
      var d := Delete(KeyOf(fnc, key), InAppStrategy(), o1.state);
      var o2 := Cache(cfg, rules, key, InAppStrategy(), d.state, r2, w2, fnc, args);
      o2.invocations == 1 && o2.result == Returned(fnc.fn.body(args).res, fnc.fn.body(args).err)
  {
    var o1 := Cache(cfg, rules, key, InAppStrategy(), s, r1, w1, fnc, args);
    MissStoresResult(cfg, rules, key, o1.state, r2, w2, fnc, args);
  }

  /** With caching off every call runs the function and the store is never
      touched, whatever the key, the time or the store's contents. */
  lemma DisabledAlwaysRecomputes(cfg: map<string, Config>, rules: TypeRules, key: string, s: InApp.Store,
                                 r: int, w: int, fnc: Callable, args: seq<Value>)
    requires WellShaped(rules, fnc, args) && !CachingOn(cfg, GetFuncName(fnc.fn.fullName))
    ensures var o := Cache(cfg, rules, key, InAppStrategy(), s, r, w, fnc, args);
      o.invocations == 1 && o.state == s && o.calls == []
  {
  }

  /** One argument for a function of two parameters is rejected with the
      count mismatch, and the store is never touched. */
  lemma ArityMismatchRejected(cfg: map<string, Config>, rules: TypeRules, key: string, s: InApp.Store,
                              r: int, w: int, fn: Fn, arg: Value)
    requires |fn.params| == 2
    ensures var o := Cache(cfg, rules, key, InAppStrategy(), s, r, w, Func(fn), [arg]);
      && o.result == Rejected(ArgCountMismatch(2, 1, GetFuncName(fn.fullName)))
      && o.calls == [] && o.state == s && o.invocations == 0
  {
  }
}

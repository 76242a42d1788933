/** The in-process store of inapp.go: a map from key to `Item` whose entries
    are evicted lazily, by the read that finds them stale.

    In Go, `InApp` wraps a `sync.Map` and its methods have value receivers, so
    each call works on a copy of the struct, and `NewInApp` returns a type
    `Storage` the package never declares. The evident intent is one map that
    every `Read`, `Write` and `Delete` sees; that is what is modelled here: one
    `Store` value threaded from call to call. The clock `time.Now()` is the
    parameter `now`, in nanoseconds. */
module InApp {
  import opened Wrappers
  import opened Values
  import opened StrategyInterface

  /** A cached object and the instant after which it is stale. */
  datatype Item = Item(obj: Value, expiration: int)

  type Store = map<string, Item>

  const MissError := Error("cache miss")
  const ExpiredError := Error("cache expired")

  /** `time.Time.After`: stale strictly after the expiration instant, so an
      item read at exactly its expiration is still served. */
  predicate Expired(item: Item, now: int)
  {
    now > item.expiration
  }

  /** `GetName` */
  function GetName(): (name: string)
    ensures name == "InApp"
  {
    "InApp"
  }

  /** `Read`: a miss leaves the store alone, a stale item is removed and
      reported, a live item is returned and the store is left alone. */
  function Read(s: Store, now: int, key: string): (r: (Store, Result<Value, Error>))
    ensures r.0.Keys <= s.Keys
    ensures forall k :: k in r.0 ==> r.0[k] == s[k]
    ensures r.0.Keys == if key in s && Expired(s[key], now) then s.Keys - {key} else s.Keys
    ensures key !in s ==> r.1 == Failure(MissError)
    ensures key in s && Expired(s[key], now) ==> r.1 == Failure(ExpiredError)
    ensures r.1.Success? <==> key in s && !Expired(s[key], now)
    ensures r.1.Success? ==> r.1.value == s[key].obj
  {
    if key !in s then (s, Failure(MissError))
    else
      var item := s[key];
      if Expired(item, now) then (s - {key}, Failure(ExpiredError))
      else (s, Success(item.obj))
  }

  /** `Write`: stores the object under `key` until `now + expiration`,
      replacing any earlier entry. The `err` argument plays no part. */
  function Write(s: Store, now: int, key: string, expiration: Duration, res: Value, err: Option<Error>): (r: (Store, Option<Error>))
    ensures r.1 == None
    ensures r.0.Keys == s.Keys + {key}
    ensures key in r.0 && r.0[key].obj == res && r.0[key].expiration == now + expiration
    ensures forall k :: k in s && k != key ==> r.0[k] == s[k]
  {
    (s[key := Item(res, now + expiration)], None)
  }

  /** `Delete`: removes the entry if there is one; never fails. */
  function Delete(s: Store, key: string): (r: (Store, Option<Error>))
    ensures r.1 == None
    ensures r.0.Keys == s.Keys - {key}
    ensures forall k :: k in r.0 ==> r.0[k] == s[k]
  {
    (s - {key}, None)
  }

  /** The store as a `Strategy`. `Read` does not look at the expected type. */
  function AsStrategy(): (st: Strategy<Store>)
    ensures st.name == GetName()
  {
    Strategy(
      GetName(),
      (s, now, key, opType) => Read(s, now, key),
      (s, now, key, expiration, res, err) => Write(s, now, key, expiration, res, err),
      (s, key) => Delete(s, key))
  }

  /** A write is read back up to and including its expiration instant, and
      the read leaves the store as the write left it. */
  lemma WriteThenRead(s: Store, writeAt: int, key: string, expiration: Duration, res: Value, err: Option<Error>, now: int)
    requires writeAt <= now <= writeAt + expiration
    ensures var s1 := Write(s, writeAt, key, expiration, res, err).0;
      Read(s1, now, key) == (s1, Success(res))
  {
  }

  /** After its expiration instant a write reads as expired, and the read
      removes exactly that key: the store is as before the write, minus `key`. */
  lemma WriteThenReadExpired(s: Store, writeAt: int, key: string, expiration: Duration, res: Value, err: Option<Error>, now: int)
    requires now > writeAt + expiration
    ensures var s1 := Write(s, writeAt, key, expiration, res, err).0;
      Read(s1, now, key) == (s - {key}, Failure(ExpiredError))
  {
    var s1 := Write(s, writeAt, key, expiration, res, err).0;
    assert s1 - {key} == s - {key};
  }

  /** A zero expiration still serves the item at the very instant of the
      write, and never after it. */
  lemma ZeroTtlWrite(s: Store, writeAt: int, key: string, res: Value, err: Option<Error>, now: int)
    requires now >= writeAt
    ensures var s1 := Write(s, writeAt, key, 0, res, err).0;
      Read(s1, now, key).1 == if now == writeAt then Success(res) else Failure(ExpiredError)
  {
  }

  /** The `err` handed to `Write` is not stored: two writes differing only in
      it leave the same store. */
  lemma WriteIgnoresErr(s: Store, now: int, key: string, expiration: Duration, res: Value, e1: Option<Error>, e2: Option<Error>)
    ensures Write(s, now, key, expiration, res, e1) == Write(s, now, key, expiration, res, e2)
  {
  }

  /** A live read changes nothing, so reading twice is reading once. */
  lemma ReadLiveIsPure(s: Store, now: int, key: string)
    requires key in s && !Expired(s[key], now)
    ensures Read(s, now, key).0 == s
    ensures Read(Read(s, now, key).0, now, key) == Read(s, now, key)
  {
  }

  /** `Delete` is idempotent: deleting twice is deleting once. */
  lemma DeleteIdempotent(s: Store, key: string)
    ensures Delete(Delete(s, key).0, key) == Delete(s, key)
  {
    assert Delete(s, key).0 - {key} == s - {key};
  }

  /** Whatever was written before, a read right after a delete is a miss. */
  lemma ReadAfterDelete(s: Store, key: string, now: int)
    ensures var s1 := Delete(s, key).0;
      Read(s1, now, key) == (s1, Failure(MissError))
  {
  }
}

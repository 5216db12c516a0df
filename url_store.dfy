/**
 * The expiring store as values: the map from alias to URLMapping and the
 * three things the service does to it (insert-or-overwrite on shorten,
 * lookup with lazy removal on resolve, and the periodic sweep). The class
 * in module Service changes its field exactly as these functions say.
 */
module UrlStore {
  import opened Mapping

  type Store = map<string, URLMapping>

  /** What resolve hands back: the original URL, or nothing (Java's null). */
  datatype Resolution = Found(originalURL: string) | NotFound

  /** The store after a shorten request stores `originalURL` under `key` at
      time `now`: an earlier mapping for `key` is overwritten, every other
      entry is kept as it was. */
  function Insert(store: Store, key: string, originalURL: string, now: int): (r: Store)
    ensures key in r && r[key] == NewMapping(originalURL, now)
    ensures r.Keys == store.Keys + {key}
    ensures forall k :: k in store && k != key ==> r[k] == store[k]
  {
    store[key := NewMapping(originalURL, now)]
  }

  /** What resolve answers for `key` at time `now`. It never hands out a
      target whose mapping the sweep would remove. */
  function Lookup(store: Store, key: string, now: int): (r: Resolution)
    ensures r.Found? <==> key in store && !IsExpired(store[key], now)
    ensures r.Found? ==> r.originalURL == store[key].originalURL
  {
    if key in store && IsLive(store[key], now) then Found(store[key].originalURL) else NotFound
  }

  /** The store after resolve looked `key` up at time `now`: a live entry is
      left alone, anything else under `key` is removed (removing an absent
      key changes nothing). */
  function AfterLookup(store: Store, key: string, now: int): (r: Store)
    ensures key in r <==> Lookup(store, key, now).Found?
    ensures r.Keys <= store.Keys
    ensures forall k :: k in store && k != key ==> k in r
    ensures forall k :: k in r ==> r[k] == store[k]
  {
    if key in store && IsLive(store[key], now) then store else store - {key}
  }

  /** The store after the periodic cleanup at time `now`: the entries the
      removal test picks out are dropped, the others are kept unchanged. */
  function Sweep(store: Store, now: int): (r: Store)
    ensures forall k :: k in r <==> k in store && IsLive(store[k], now)
    ensures forall k :: k in r ==> r[k] == store[k]
  {
    map k | k in store && !IsExpired(store[k], now) :: store[k]
  }

  /** The aliases whose mappings have expired at time `now`. */
  function ExpiredKeys(store: Store, now: int): (s: set<string>)
    ensures s <= store.Keys
    ensures forall k :: k in store ==> (k in s <==> !IsLive(store[k], now))
  {
    set k | k in store && IsExpired(store[k], now)
  }

  /** The sweep shrinks the store by exactly the number of expired entries. */
  lemma SweepSize(store: Store, now: int)
    ensures |Sweep(store, now)| == |store| - |ExpiredKeys(store, now)|
  {
    var kept, gone := Sweep(store, now).Keys, ExpiredKeys(store, now);
    assert kept == store.Keys - gone;
    assert store.Keys == kept + gone && kept !! gone;
    assert |store.Keys| == |kept| + |gone|;
  }

  /** After a sweep nothing expired at that instant is left, so a second
      sweep at the same time removes nothing. */
  lemma SweepIdempotent(store: Store, now: int)
    ensures ExpiredKeys(Sweep(store, now), now) == {}
    ensures Sweep(Sweep(store, now), now) == Sweep(store, now)
  {
    var once := Sweep(store, now);
    assert Sweep(once, now).Keys == once.Keys;
  }

  /** A sweep at time t followed by one at a later time t' leaves what the
      later one alone would leave. */
  lemma SweepLater(store: Store, t: int, t': int)
    requires t <= t'
    ensures Sweep(Sweep(store, t), t') == Sweep(store, t')
  {
    assert Sweep(Sweep(store, t), t').Keys == Sweep(store, t').Keys;
  }

  /** The sweep never changes what resolve answers, then or later. */
  lemma LookupAfterSweep(store: Store, key: string, t: int, t': int)
    requires t <= t'
    ensures Lookup(Sweep(store, t), key, t') == Lookup(store, key, t')
  {
  }

  /** Lazy and eager removal agree: a resolve followed by a sweep at the
      same time leaves what the sweep alone leaves, and after a sweep a
      resolve removes nothing. So either path may remove an entry first. */
  lemma AfterLookupThenSweep(store: Store, key: string, now: int)
    ensures Sweep(AfterLookup(store, key, now), now) == Sweep(store, now)
    ensures AfterLookup(Sweep(store, now), key, now) == Sweep(store, now)
  {
    assert Sweep(AfterLookup(store, key, now), now).Keys == Sweep(store, now).Keys;
  }

  /** Resolving the same key twice at the same time gives the same answer
      and the second call changes nothing. */
  lemma LookupRepeated(store: Store, key: string, now: int)
    ensures Lookup(AfterLookup(store, key, now), key, now) == Lookup(store, key, now)
    ensures AfterLookup(AfterLookup(store, key, now), key, now) == AfterLookup(store, key, now)
  {
  }

  /** Resolving a key that was never stored answers NotFound and leaves the
      store as it was. */
  lemma LookupAbsent(store: Store, key: string, now: int)
    requires key !in store
    ensures Lookup(store, key, now) == NotFound
    ensures AfterLookup(store, key, now) == store
  {
  }

  /** Resolving an alias at t' right after shortening it at t finds the
      target exactly while t' is before the expiry time, and removes it
      otherwise. */
  lemma LookupAfterInsert(store: Store, key: string, originalURL: string, t: int, t': int)
    ensures Lookup(Insert(store, key, originalURL, t), key, t') ==
      if t' < t + EXPIRY_TIME_MILLIS then Found(originalURL) else NotFound
    ensures key in AfterLookup(Insert(store, key, originalURL, t), key, t') <==> t' < t + EXPIRY_TIME_MILLIS
  {
  }
}

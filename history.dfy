/**
 * Sequences of requests against one store, run one after another, and what
 * they guarantee about a short URL handed out earlier.
 */
module History {
  import opened Mapping
  import opened ShortKey
  import opened ShortUrl
  import opened UrlStore

  /** One call on the service. For a shorten request, `key` is the key the
      generator produced for it. */
  datatype Request =
    | Shorten(originalURL: string, key: string, time: int)
    | Resolve(shortURL: string, time: int)
    | Cleanup(time: int)

  /** The store after one request, as ShortenURL, ResolveURL and
      CleanupExpiredEntries leave it. */
  function Step(store: Store, req: Request): Store
  {
    match req
    case Shorten(originalURL, key, t) => Insert(store, key, originalURL, t)
    case Resolve(shortURL, t) => AfterLookup(store, ExtractShortKey(shortURL), t)
    case Cleanup(t) => Sweep(store, t)
  }

  /** The store after the requests, in order. */
  function Run(store: Store, reqs: seq<Request>): Store
    decreases |reqs|
  {
    if reqs == [] then store else Run(Step(store, reqs[0]), reqs[1..])
  }

  /** No request in `reqs` stores anything under `key`. */
  predicate NeverReuses(reqs: seq<Request>, key: string)
  {
    forall i :: 0 <= i < |reqs| && reqs[i].Shorten? ==> reqs[i].key != key
  }

  /** Every request in `reqs` happens no later than `t`. */
  predicate AllBy(reqs: seq<Request>, t: int)
  {
    forall i :: 0 <= i < |reqs| ==> reqs[i].time <= t
  }

  lemma {:induction false} RunAppend(store: Store, front: seq<Request>, back: seq<Request>)
    ensures Run(store, front + back) == Run(Run(store, front), back)
    decreases |front|
  {
    if front != [] {
      assert (front + back)[0] == front[0];
      assert (front + back)[1..] == front[1..] + back;
      RunAppend(Step(store, front[0]), front[1..], back);
    } else {
      assert front + back == back;
    }
  }

  /** While no request reuses `key`, whatever is stored under it is the
      mapping `m` put there before; requests that all happen while `m` is
      live do not remove it either. */
  lemma {:induction false} RunKeepsMapping(store: Store, reqs: seq<Request>, key: string, m: URLMapping)
    requires key in store ==> store[key] == m
    requires NeverReuses(reqs, key)
    ensures key in Run(store, reqs) ==> Run(store, reqs)[key] == m
    ensures key in store && (forall i :: 0 <= i < |reqs| ==> IsLive(m, reqs[i].time)) ==> key in Run(store, reqs)
    decreases |reqs|
  {
    if reqs != [] {
      var next := Step(store, reqs[0]);
      assert NeverReuses(reqs[1..], key) by {
        forall i | 0 <= i < |reqs[1..]| && reqs[1..][i].Shorten? ensures reqs[1..][i].key != key {
          assert reqs[1..][i] == reqs[i + 1];
        }
      }
      if key in store && (forall i :: 0 <= i < |reqs| ==> IsLive(m, reqs[i].time)) {
        assert IsLive(m, reqs[0].time);
        assert key in next;
        forall i | 0 <= i < |reqs[1..]| ensures IsLive(m, reqs[1..][i].time) {
          assert reqs[1..][i] == reqs[i + 1];
        }
      }
      RunKeepsMapping(next, reqs[1..], key, m);
    }
  }

  /**
   * A short URL handed out at time t, resolved at t' after other requests
   * (none of which reuses its key, and none later than t'), answers the
   * original URL exactly while t' is before t + TTL, and NotFound after.
   */
  lemma ShortenThenResolve(store: Store, originalURL: string, draws: seq<int>, t: int, reqs: seq<Request>, t': int)
    requires ValidDraws(draws)
    requires NeverReuses(reqs, KeyOf(draws))
    requires AllBy(reqs, t')
    ensures
      var key := KeyOf(draws);
      var after := Run(store, [Shorten(originalURL, key, t)] + reqs);
      Lookup(after, ExtractShortKey(Render(key)), t') ==
        if t' < t + EXPIRY_TIME_MILLIS then Found(originalURL) else NotFound
  {
    var key := KeyOf(draws);
    var m := NewMapping(originalURL, t);
    var stored := Insert(store, key, originalURL, t);
    RunAppend(store, [Shorten(originalURL, key, t)], reqs);
    assert Run(store, [Shorten(originalURL, key, t)]) == stored;
    RunKeepsMapping(stored, reqs, key, m);
    KeyOfIsAlphanumeric(draws);
    ExtractRender(key);
  }

  /** Shorten requests with pairwise distinct keys, issued one after another,
      are each resolvable afterwards while none has expired: no write is lost. */
  lemma DistinctShortensAllResolvable(store: Store, reqs: seq<Request>, t': int)
    requires forall i :: 0 <= i < |reqs| ==> reqs[i].Shorten? && reqs[i].time <= t' < reqs[i].time + EXPIRY_TIME_MILLIS
    requires forall i, j :: 0 <= i < j < |reqs| ==> reqs[i].key != reqs[j].key
    ensures forall i :: 0 <= i < |reqs| ==> Lookup(Run(store, reqs), reqs[i].key, t') == Found(reqs[i].originalURL)
  {
    forall i | 0 <= i < |reqs| ensures Lookup(Run(store, reqs), reqs[i].key, t') == Found(reqs[i].originalURL) {
      var key, m := reqs[i].key, NewMapping(reqs[i].originalURL, reqs[i].time);
      var front, back := reqs[..i], reqs[i + 1..];
      assert reqs == front + [reqs[i]] + back;
      RunAppend(store, front + [reqs[i]], back);
      RunAppend(store, front, [reqs[i]]);
      var stored := Run(store, front + [reqs[i]]);
      assert stored == Insert(Run(store, front), key, reqs[i].originalURL, reqs[i].time);
      forall j | 0 <= j < |back| && back[j].Shorten? ensures back[j].key != key {
        assert back[j] == reqs[i + 1 + j];
      }
      forall j | 0 <= j < |back| ensures IsLive(m, back[j].time) {
        assert back[j] == reqs[i + 1 + j];
      }
      RunKeepsMapping(stored, back, key, m);
    }
  }
}

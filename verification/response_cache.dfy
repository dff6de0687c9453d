/** The in-memory response cache of main.py: `weather_cache`, read and
    written by `get_hko_data`, emptied by `clear_cache` and reported by
    `cache_status`.

    The Python dict is a sequence of slots with distinct keys, kept in
    insertion order: overwriting a key keeps its position, a new key goes
    last, which is the order `list(weather_cache.keys())` reports. The
    clock and the HTTP request are parameters of `GetHkoData`: `now` is the
    value `time.time()` returned on entry, and the fetch is given by its
    outcome. */
module ResponseCache {
  import opened Wrappers
  import opened HttpErrors

  /** Seconds for which a cached payload is served without refetching. */
  const CacheDuration: real := 300.0

  /** The tuple `(cached_time, cached_data)` stored per key. */
  datatype Entry<P> = Entry(fetchedAt: real, payload: P)

  datatype Slot<P> = Slot(key: string, entry: Entry<P>)

  predicate DistinctKeys<P>(slots: seq<Slot<P>>) {
    forall i, j :: 0 <= i < j < |slots| ==> slots[i].key != slots[j].key
  }

  /** A dict from data type to entry: at most one slot per key. */
  type Cache<P> = slots: seq<Slot<P>> | DistinctKeys(slots) witness []

  /** What the request for a data type produced: the payload, or the
      `RequestException` the source turns into a 503. */
  datatype FetchOutcome<P> = Fetched(payload: P) | Unavailable(reason: string)

  /** The effect of one `get_hko_data` call: the cache afterwards, what the
      call returned or raised, and whether it went to the network. */
  datatype Step<P> = Step(cache: Cache<P>, result: Result<P, ApiError>, fetched: bool)

  /** The keys of the cache, in insertion order. */
  function Keys<P>(c: seq<Slot<P>>): (ks: seq<string>)
    ensures |ks| == |c|
    ensures forall i :: 0 <= i < |c| ==> ks[i] == c[i].key
  {
    seq(|c|, i requires 0 <= i < |c| => c[i].key)
  }

  /** The position of the slot holding `key`, if there is one. */
  function IndexOf<P>(c: seq<Slot<P>>, key: string): (r: Option<nat>)
    ensures r.None? <==> key !in Keys(c)
    ensures r.Some? ==> r.value < |c| && c[r.value].key == key
  {
    if c == [] then None
    else if c[0].key == key then Some(0)
    else
      var r := IndexOf(c[1..], key);
      assert Keys(c) == [c[0].key] + Keys(c[1..]);
      if r.Some? then Some(r.value + 1) else None
  }

  /** In a cache with distinct keys, each key's slot is the one `IndexOf`
      reports. */
  lemma {:induction false} IndexOfSlot<P>(c: Cache<P>, i: nat)
    requires i < |c|
    ensures IndexOf(c, c[i].key) == Some(i)
  {
    if i > 0 {
      assert c[0].key != c[i].key;
      var tail: Cache<P> := c[1..];
      IndexOfSlot(tail, i - 1);
    }
  }

  /** `weather_cache.get(key)` */
  function Find<P>(c: Cache<P>, key: string): (r: Option<Entry<P>>)
    ensures r.None? <==> key !in Keys(c)
    ensures r.Some? ==> Slot(key, r.value) in c
  {
    match IndexOf(c, key)
    case Some(i) => Some(c[i].entry)
    case None => None
  }

  /** `weather_cache[key] = entry`: an existing key is overwritten in place,
      a new key is appended. */
  function Put<P>(c: Cache<P>, key: string, e: Entry<P>): (r: Cache<P>)
    ensures Find(r, key) == Some(e)
    ensures forall k :: k != key ==> Find(r, k) == Find(c, k)
    ensures Keys(r) == if key in Keys(c) then Keys(c) else Keys(c) + [key]
  {
    match IndexOf(c, key)
    case Some(i) =>
      var r: Cache<P> := c[i := Slot(key, e)];
      PutAt(c, i, e, r);
      r
    case None =>
      var r: Cache<P> := c + [Slot(key, e)];
      PutAt(c, |c|, e, r);
      r
  }

  /** Writing the slot at position `at` (an overwrite, or an append when
      `at` is the length) changes the entry of that slot's key only. */
  lemma PutAt<P>(c: Cache<P>, at: nat, e: Entry<P>, r: Cache<P>)
    requires at <= |c| && |r| == if at < |c| then |c| else |c| + 1
    requires at < |r| && r[at].entry == e
    requires forall j :: 0 <= j < |r| && j != at ==> r[j] == c[j]
    requires at < |c| ==> r[at].key == c[at].key
    ensures Find(r, r[at].key) == Some(e)
    ensures forall k :: k != r[at].key ==> Find(r, k) == Find(c, k)
  {
    IndexOfSlot(r, at);
    forall k | k != r[at].key ensures Find(r, k) == Find(c, k) {
      match IndexOf(r, k)
      case Some(j) =>
        IndexOfSlot(c, j);
      case None =>
        if k in Keys(c) {
          var j := IndexOf(c, k).value;
          IndexOfSlot(r, j);
        }
    }
  }

  /** The entry for `key` is young enough to be served: it was stored less
      than `CacheDuration` seconds before `now`. */
  predicate IsFresh<P>(c: Cache<P>, key: string, now: real) {
    match Find(c, key)
    case Some(e) => now - e.fetchedAt < CacheDuration
    case None => false
  }

  /** `get_hko_data(data_type)` as a step function. A fresh entry is
      returned as it is, without fetching and without touching the cache.
      Otherwise the fetch outcome decides: a payload is stored under the key
      with the time captured on entry and returned; an unavailable feed
      raises 503 and the cache, stale entry included, stays as it was. */
  function GetHkoData<P>(c: Cache<P>, now: real, dataType: string, outcome: FetchOutcome<P>): (s: Step<P>)
    ensures !s.fetched <==> IsFresh(c, dataType, now)
    ensures !s.fetched ==>
      s.cache == c && Find(c, dataType).Some? && s.result == Success(Find(c, dataType).value.payload)
    ensures s.fetched && outcome.Fetched? ==>
      && s.result == Success(outcome.payload)
      && Find(s.cache, dataType) == Some(Entry(now, outcome.payload))
      && (forall k :: k != dataType ==> Find(s.cache, k) == Find(c, k))
    ensures s.fetched && outcome.Unavailable? ==>
      s.cache == c && s.result.Failure? && s.result.error.StatusCode() == 503
  {
    var cached := Find(c, dataType);
    if cached.Some? && now - cached.value.fetchedAt < CacheDuration then
      Step(c, Success(cached.value.payload), false)
    else
      match outcome
      case Fetched(data) => Step(Put(c, dataType, Entry(now, data)), Success(data), true)
      case Unavailable(reason) => Step(c, Failure(ServiceUnavailable(reason)), true)
  }

  /** The reply to `DELETE /cache/clear`. */
  datatype Cleared<P> = Cleared(cache: Cache<P>, itemsCleared: nat)

  /** `clear_cache()`: empties the cache and reports how many entries it
      held. */
  function ClearCache<P>(c: Cache<P>): (r: Cleared<P>)
    ensures forall k :: Find(r.cache, k).None?
    ensures r.itemsCleared == |Keys(c)|
  {
    Cleared([], |c|)
  }

  /** The reply to `GET /cache/status`. */
  datatype Status = Status(cachedItems: nat, cachedKeys: seq<string>)

  /** `cache_status()`: the number of entries and their keys in insertion
      order; the keys listed are exactly those with an entry, each once. */
  function CacheStatus<P>(c: Cache<P>): (r: Status)
    ensures r.cachedItems == |r.cachedKeys|
    ensures forall k :: k in r.cachedKeys <==> Find(c, k).Some?
    ensures forall i, j :: 0 <= i < j < |r.cachedKeys| ==> r.cachedKeys[i] != r.cachedKeys[j]
  {
    Status(|c|, Keys(c))
  }

  /** A fresh entry is served whatever the network would have answered:
      the fetch is not consulted. */
  lemma FreshHitIgnoresFetch<P>(c: Cache<P>, now: real, key: string, o1: FetchOutcome<P>, o2: FetchOutcome<P>)
    requires IsFresh(c, key, now)
    ensures GetHkoData(c, now, key, o1) == GetHkoData(c, now, key, o2)
  {
  }

  /** An entry aged exactly `CacheDuration` or more is a miss: the
      comparison is strict. */
  lemma ExpiredEntryIsMiss<P>(c: Cache<P>, now: real, key: string, e: Entry<P>, o: FetchOutcome<P>)
    requires Find(c, key) == Some(e)
    requires now - e.fetchedAt >= CacheDuration
    ensures GetHkoData(c, now, key, o).fetched
  {
  }

  /** Two calls for the same key less than `CacheDuration` apart, the first
      of which missed and fetched successfully: the second one does not
      fetch and returns the first one's payload. */
  lemma RepeatWithinWindowHits<P>(c: Cache<P>, t1: real, t2: real, key: string, o1: FetchOutcome<P>, o2: FetchOutcome<P>)
    requires !IsFresh(c, key, t1) && o1.Fetched?
    requires t2 - t1 < CacheDuration
    ensures var s1 := GetHkoData(c, t1, key, o1);
      var s2 := GetHkoData(s1.cache, t2, key, o2);
      && !s2.fetched && s2.result == s1.result && s2.cache == s1.cache
  {
  }

  /** Once an entry has expired, a successful fetch replaces it with the new
      payload stamped with the time of the call. */
  lemma RefetchAfterExpiry<P>(c: Cache<P>, now: real, key: string, e: Entry<P>, data: P)
    requires Find(c, key) == Some(e)
    requires now - e.fetchedAt >= CacheDuration
    ensures var s := GetHkoData(c, now, key, Fetched(data));
      && s.fetched && s.result == Success(data)
      && Find(s.cache, key) == Some(Entry(now, data))
  {
  }

  /** A failed fetch is not cached: after a failure on an expired entry the
      old entry is still there, and every other key is untouched. */
  lemma FailedFetchKeepsStaleEntry<P>(c: Cache<P>, now: real, key: string, e: Entry<P>, reason: string)
    requires Find(c, key) == Some(e)
    requires now - e.fetchedAt >= CacheDuration
    ensures var s := GetHkoData(c, now, key, Unavailable(reason));
      && s.result == Failure(ServiceUnavailable(reason))
      && forall k :: Find(s.cache, k) == Find(c, k)
  {
  }

  /** `get_hko_data` never drops a key and never reorders them: the keys
      before the call are a prefix of the keys after it, and at most the
      requested key is added. */
  lemma {:induction false} KeysOnlyGrow<P>(c: Cache<P>, now: real, key: string, o: FetchOutcome<P>)
    ensures var ks := Keys(GetHkoData(c, now, key, o).cache);
      && Keys(c) <= ks
      && (ks == Keys(c) || ks == Keys(c) + [key])
  {
  }

  /** What `clear_cache` reports is what `cache_status` showed just before,
      and `cache_status` just after shows an empty cache. */
  lemma ClearReportsStatusCount<P>(c: Cache<P>)
    ensures ClearCache(c).itemsCleared == CacheStatus(c).cachedItems
    ensures CacheStatus(ClearCache(c).cache) == Status(0, [])
  {
  }

  /** After `clear_cache` every data type is fetched again. */
  lemma ClearForcesRefetch<P>(c: Cache<P>, now: real, key: string, o: FetchOutcome<P>)
    ensures GetHkoData(ClearCache(c).cache, now, key, o).fetched
  {
  }
}

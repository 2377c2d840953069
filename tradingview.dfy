/**
 * The analysis cache of `get_tv_analysis` (app/services/tradingview_fetcher.py):
 * a module-level map from `symbol_screener_exchange_interval` to the last
 * fetched analysis and the clock read before that fetch. An entry younger
 * than 60 seconds is served without fetching; otherwise the analysis is
 * fetched and stored, or `None` is returned when the fetch raises.
 *
 * The clock is integer microseconds; what `TA_Handler(...).get_analysis()`
 * yields is an input.
 */
module TradingView {
  import opened Common

  /** `CACHE_DURATION_SECONDS`: 60 seconds, in microseconds. */
  const CacheDuration: int := 60 * 1_000_000

  /** `Interval.INTERVAL_1_DAY`, the default interval. */
  const DefaultInterval: string := "1d"

  /** A cache entry: the analysis and when it was fetched. */
  datatype Entry<D> = Entry(data: D, timestamp: int)

  /** What creating the handler and calling `get_analysis()` gave. */
  datatype Fetch<D> = Analysis(data: D) | FetchRaises

  /** What a call returns, the cache it leaves, and whether it fetched. */
  datatype Reply<D> = Reply(result: Option<D>, cache: map<string, Entry<D>>, fetched: bool)

  /** `f"{symbol}_{screener}_{exchange}_{interval}"`. */
  function CacheKey(symbol: string, screener: string, exchange: string, interval: string): (r: string)
    ensures |r| == |symbol| + |screener| + |exchange| + |interval| + 3
    ensures symbol + "_" <= r
  {
    symbol + "_" + screener + "_" + exchange + "_" + interval
  }

  /** The entry for `key` exists and is younger than `CacheDuration` at `now`. */
  predicate Hit<D>(cache: map<string, Entry<D>>, key: string, now: int): (r: bool)
    ensures r ==> key in cache
    ensures key in cache && cache[key].timestamp <= now < cache[key].timestamp + CacheDuration ==> r
  {
    key in cache && now - cache[key].timestamp < CacheDuration
  }

  /** `get_tv_analysis` on values. */
  function Lookup<D>(cache: map<string, Entry<D>>, key: string, now: int, fetch: Fetch<D>): (r: Reply<D>)
    ensures cache.Keys <= r.cache.Keys <= cache.Keys + {key}
    ensures r.fetched <==> !Hit(cache, key, now)
    ensures r.result.None? ==> r.fetched && fetch == FetchRaises && r.cache == cache
  {
    if Hit(cache, key, now) then Reply(Some(cache[key].data), cache, false)
    else
      match fetch
      case FetchRaises => Reply(None, cache, true)
      case Analysis(d) => Reply(Some(d), cache[key := Entry(d, now)], true)
  }

  /** The module-level `_cache`. */
  class AnalysisCache<D> {
    var entries: map<string, Entry<D>>

    constructor ()
      ensures entries == map[]
    {
      entries := map[];
    }

    /** `get_tv_analysis(symbol, screener, exchange, interval)`, with `now`
        the clock read on entry and `fetch` what the fetch would give. */
    method GetTvAnalysis(symbol: string, screener: string, exchange: string, interval: string, now: int, fetch: Fetch<D>)
      returns (result: Option<D>, fetched: bool)
      modifies this
      ensures Lookup(old(entries), CacheKey(symbol, screener, exchange, interval), now, fetch)
        == Reply(result, entries, fetched)
    {
      var key := CacheKey(symbol, screener, exchange, interval);
      if key in entries && now - entries[key].timestamp < CacheDuration {
        return Some(entries[key].data), false;
      }
      fetched := true;
      match fetch {
        case FetchRaises =>
          result := None;
        case Analysis(analysis) =>
          entries := entries[key := Entry(analysis, now)];
          result := Some(analysis);
      }
    }
  }

  // ------------------------------------------------------------ properties

  /** A young entry is served as it is: no fetch, and the cache is unchanged. */
  lemma HitServedFromCache<D>(cache: map<string, Entry<D>>, key: string, now: int, fetch: Fetch<D>)
    requires key in cache && now - cache[key].timestamp < CacheDuration
    ensures Lookup(cache, key, now, fetch) == Reply(Some(cache[key].data), cache, false)
  {
  }

  /** A fetch happens exactly when there is no entry or it is 60 seconds old or more. */
  lemma FetchIffMiss<D>(cache: map<string, Entry<D>>, key: string, now: int, fetch: Fetch<D>)
    ensures Lookup(cache, key, now, fetch).fetched
        <==> key !in cache || now - cache[key].timestamp >= CacheDuration
  {
  }

  /** A successful fetch on a miss is returned and stored under its key with
      the clock read before the fetch; every other entry stays as it was. */
  lemma MissStoresFetched<D>(cache: map<string, Entry<D>>, key: string, now: int, d: D)
    requires !Hit(cache, key, now)
    ensures var r := Lookup(cache, key, now, Analysis(d));
      && r.result == Some(d) && r.fetched
      && key in r.cache && r.cache[key] == Entry(d, now)
      && (forall k :: k in cache && k != key ==> k in r.cache && r.cache[k] == cache[k])
      && r.cache.Keys == cache.Keys + {key}
  {
  }

  /** A failed fetch returns `None` and is not remembered: a stale entry
      is kept as it was. */
  lemma FailureKeepsCache<D>(cache: map<string, Entry<D>>, key: string, now: int)
    requires !Hit(cache, key, now)
    ensures Lookup(cache, key, now, FetchRaises) == Reply(None, cache, true)
  {
  }

  /** No call removes an entry; only the called key's entry can change. */
  lemma NeverEvicts<D>(cache: map<string, Entry<D>>, key: string, now: int, fetch: Fetch<D>)
    ensures var r := Lookup(cache, key, now, fetch);
      && cache.Keys <= r.cache.Keys
      && (forall k :: k in cache && k != key ==> r.cache[k] == cache[k])
  {
  }

  /** A second call with the same key less than 60 seconds after a
      successful fetch returns the same analysis without fetching. */
  lemma RepeatWithinWindow<D>(cache: map<string, Entry<D>>, key: string, t1: int, d: D, t2: int, fetch: Fetch<D>)
    requires !Hit(cache, key, t1)
    requires t2 - t1 < CacheDuration
    ensures var first := Lookup(cache, key, t1, Analysis(d));
      Lookup(first.cache, key, t2, fetch) == Reply(Some(d), first.cache, false)
  {
  }

  /** The position of the first `_` in `s`, or `|s|` when there is none. */
  function UnderscoreAt(s: string): (r: nat)
    ensures r <= |s|
    ensures r < |s| ==> s[r] == '_'
    ensures forall i :: 0 <= i < r ==> s[i] != '_'
  {
    if s == [] || s[0] == '_' then 0 else 1 + UnderscoreAt(s[1..])
  }

  lemma {:induction false} UnderscoreAfter(a: string, rest: string)
    requires '_' !in a
    ensures UnderscoreAt(a + "_" + rest) == |a|
    decreases |a|
  {
    if a != [] {
      assert (a + "_" + rest)[1..] == a[1..] + "_" + rest;
      UnderscoreAfter(a[1..], rest);
    }
  }

  /** A field without `_` is recovered from the text it starts. */
  lemma SplitAtUnderscore(a: string, x: string, b: string, y: string)
    requires '_' !in a && '_' !in b
    requires a + "_" + x == b + "_" + y
    ensures a == b && x == y
  {
    UnderscoreAfter(a, x);
    UnderscoreAfter(b, y);
    var k := a + "_" + x;
    assert a == k[..|a|] && b == k[..|b|];
    assert x == k[|a| + 1..] && y == k[|b| + 1..];
  }

  /** Calls whose fields contain no `_` share an entry only when all four
      fields agree. */
  lemma CacheKeyInjective(s1: string, sc1: string, e1: string, i1: string,
                          s2: string, sc2: string, e2: string, i2: string)
    requires '_' !in s1 && '_' !in sc1 && '_' !in e1
    requires '_' !in s2 && '_' !in sc2 && '_' !in e2
    requires CacheKey(s1, sc1, e1, i1) == CacheKey(s2, sc2, e2, i2)
    ensures s1 == s2 && sc1 == sc2 && e1 == e2 && i1 == i2
  {
    assert CacheKey(s1, sc1, e1, i1) == s1 + "_" + (sc1 + "_" + e1 + "_" + i1);
    assert CacheKey(s2, sc2, e2, i2) == s2 + "_" + (sc2 + "_" + e2 + "_" + i2);
    SplitAtUnderscore(s1, sc1 + "_" + e1 + "_" + i1, s2, sc2 + "_" + e2 + "_" + i2);
    assert sc1 + "_" + e1 + "_" + i1 == sc1 + "_" + (e1 + "_" + i1);
    assert sc2 + "_" + e2 + "_" + i2 == sc2 + "_" + (e2 + "_" + i2);
    SplitAtUnderscore(sc1, e1 + "_" + i1, sc2, e2 + "_" + i2);
    SplitAtUnderscore(e1, i1, e2, i2);
  }

  /** With `_` inside a field, two different calls share one entry: the
      second is served the first one's analysis. */
  lemma CacheKeyCollision()
    ensures CacheKey("A_B", "america", "NASDAQ", DefaultInterval)
         == CacheKey("A", "B_america", "NASDAQ", DefaultInterval)
  {
    assert CacheKey("A_B", "america", "NASDAQ", DefaultInterval) == "A_B_america_NASDAQ_1d";
    assert CacheKey("A", "B_america", "NASDAQ", DefaultInterval) == "A_B_america_NASDAQ_1d";
  }
}

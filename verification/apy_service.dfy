/**
 * The APY fetch service: a time-stamped cache of APY records per protocol,
 * the rules that turn a proxy response (or a failure) into a record, the bulk
 * fetch with its per-protocol fallback, and the best-APY pick. The proxy is
 * an oracle: each request's outcome is an input, and the URLs requested are
 * part of the result so that "no request" can be stated. Time is the input
 * `now`, in milliseconds.
 */
module ApyService {

  import opened Base

  /** A protocol the service knows: its display name, proxy endpoint and fallback APY. */
  datatype ApiConfig = ApiConfig(name: string, protocol: string, endpoint: string, fallbackApy: real)

  const ProxyBase := "http://localhost:3001"
  const BulkUrl := ProxyBase + "/api/all-apys"

  const Configs := [
    ApiConfig("Tulip Garden", "tulip", ProxyBase + "/api/tulip", 8.5),
    ApiConfig("Francium", "francium", ProxyBase + "/api/francium", 5.0),
    ApiConfig("Kamino Finance", "kamino", ProxyBase + "/api/kamino", 10.1),
    ApiConfig("Solend", "solend", ProxyBase + "/api/solend", 7.8)
  ]

  /** Cached records expire after 5 minutes. */
  const CacheDuration: int := 5 * 60 * 1000

  /** When a record was taken: the proxy's timestamp text, or the service's own clock. */
  datatype Stamp = FromText(text: string) | At(millis: int)

  datatype ApyData = ApyData(
    name: string,
    protocol: string,
    apy: real,
    lastUpdated: Stamp,
    isLive: bool,
    source: string)

  /** One protocol's answer from the proxy; `error` is "" when the answer carries none. */
  datatype ProxyResponse = ProxyResponse(protocol: string, apy: real, source: string, timestamp: string, error: string)

  /** The outcome of one request for one protocol: a parsed answer, or any failure (status, abort, bad body). */
  datatype Reply = Response(response: ProxyResponse) | Failure

  /** The outcome of the bulk request: the answers it lists, or any failure. */
  datatype BulkReply = BulkData(items: seq<ProxyResponse>) | BulkFailed

  // ---------------------------------------------------------------------
  // The cache: a map that keeps its keys in insertion order

  datatype CacheEntry = CacheEntry(data: ApyData, timestamp: int)
  datatype KeyedEntry = KeyedEntry(key: string, entry: CacheEntry)
  type Cache = seq<KeyedEntry>

  function Keys(c: Cache): (ks: seq<string>)
    ensures |ks| == |c| && forall i :: 0 <= i < |c| ==> ks[i] == c[i].key
  {
    if |c| == 0 then [] else [c[0].key] + Keys(c[1..])
  }

  /** `Map.get`. */
  function Lookup(c: Cache, key: string): (r: Option<CacheEntry>)
    ensures r.None? <==> key !in Keys(c)
  {
    if |c| == 0 then None
    else if c[0].key == key then Some(c[0].entry)
    else Lookup(c[1..], key)
  }

  /** `Map.set`: replace the entry in place, or append a new key at the end. */
  function Store(c: Cache, key: string, e: CacheEntry): (r: Cache)
    ensures Lookup(r, key) == Some(e)
    ensures forall k :: k != key ==> Lookup(r, k) == Lookup(c, k)
  {
    if |c| == 0 then
      ConsView(KeyedEntry(key, e), []);
      [KeyedEntry(key, e)]
    else if c[0].key == key then
      assert c == [c[0]] + c[1..];
      ConsView(c[0], c[1..]);
      ConsView(KeyedEntry(key, e), c[1..]);
      [KeyedEntry(key, e)] + c[1..]
    else
      var rest := Store(c[1..], key, e);
      assert c == [c[0]] + c[1..];
      ConsView(c[0], c[1..]);
      ConsView(c[0], rest);
      [c[0]] + rest
  }

  /** Setting a key keeps the insertion order: an existing key stays in place, a new one goes last. */
  lemma {:induction false} StoreKeyOrder(c: Cache, key: string, e: CacheEntry)
    ensures Keys(Store(c, key, e)) == if key in Keys(c) then Keys(c) else Keys(c) + [key]
  {
    if |c| > 0 {
      assert c == [c[0]] + c[1..];
      KeysCons(c[0], c[1..]);
      if c[0].key != key {
        var rest := Store(c[1..], key, e);
        assert Store(c, key, e) == [c[0]] + rest;
        StoreKeyOrder(c[1..], key, e);
        KeysCons(c[0], rest);
        assert key in Keys(c) <==> key in Keys(c[1..]);
      } else {
        KeysCons(KeyedEntry(key, e), c[1..]);
      }
    }
  }

  lemma KeysCons(x: KeyedEntry, rest: Cache)
    ensures Keys([x] + rest) == [x.key] + Keys(rest)
  {
    assert ([x] + rest)[1..] == rest;
  }

  /** How `Keys` and `Lookup` read a cache that starts with `x`. */
  lemma ConsView(x: KeyedEntry, rest: Cache)
    ensures Keys([x] + rest) == [x.key] + Keys(rest)
    ensures forall k :: Lookup([x] + rest, k) == if x.key == k then Some(x.entry) else Lookup(rest, k)
  {
    assert ([x] + rest)[1..] == rest;
  }

  /** `clearCache`. */
  function ClearCache(): (c: Cache)
    ensures forall k :: Lookup(c, k).None?
  {
    []
  }

  predicate Fresh(e: CacheEntry, now: int) {
    now - e.timestamp < CacheDuration
  }

  /** `getCachedAPYs`: the records of the unexpired entries, in key insertion order. */
  function GetCachedApys(c: Cache, now: int): (r: seq<ApyData>)
    ensures |r| <= |c|
    ensures forall d :: d in r ==> exists i :: 0 <= i < |c| && c[i].entry.data == d && Fresh(c[i].entry, now)
    ensures forall i :: 0 <= i < |c| && Fresh(c[i].entry, now) ==> c[i].entry.data in r
  {
    if |c| == 0 then []
    else
      var rest := GetCachedApys(c[1..], now);
      (if Fresh(c[0].entry, now) then [c[0].entry.data] else []) + rest
  }

  /** Whether a cache slot's entry is still fresh at `now`. */
  function FreshAt(now: int): KeyedEntry -> bool {
    (k: KeyedEntry) => Fresh(k.entry, now)
  }

  /** The records keep the cache's order: those of a joined cache are those of each part, in turn. */
  lemma {:induction false} GetCachedApysAppend(c1: Cache, c2: Cache, now: int)
    ensures GetCachedApys(c1 + c2, now) == GetCachedApys(c1, now) + GetCachedApys(c2, now)
    decreases |c1|
  {
    if |c1| == 0 {
      assert c1 + c2 == c2;
    } else {
      assert (c1 + c2)[0] == c1[0] && (c1 + c2)[1..] == c1[1..] + c2;
      GetCachedApysAppend(c1[1..], c2, now);
    }
  }

  /** Each fresh slot gives exactly one record: their number is the number of fresh slots. */
  lemma GetCachedApysCount(c: Cache, now: int)
    ensures |GetCachedApys(c, now)| == |IndicesWhere(c, FreshAt(now))|
  {
    CachedApysKeptSlots(c, now);
    FilterCount(c, FreshAt(now));
  }

  /** As many records as slots the freshness filter keeps. */
  lemma {:induction false} CachedApysKeptSlots(c: Cache, now: int)
    ensures |GetCachedApys(c, now)| == |Filter(c, FreshAt(now))|
    decreases |c|
  {
    if |c| > 0 {
      CachedApysKeptSlots(c[1..], now);
    }
  }

  /** Nothing survives `clearCache`. */
  lemma ClearedCacheIsEmpty(now: int)
    ensures GetCachedApys(ClearCache(), now) == []
  {
  }

  // ---------------------------------------------------------------------
  // Turning answers into records

  /** `Array.find` over the configured protocols. */
  function FindConfig(protocol: string): (r: Option<ApiConfig>)
    ensures r.Some? ==> r.value in Configs && r.value.protocol == protocol
    ensures r.None? <==> forall c :: c in Configs ==> c.protocol != protocol
  {
    if protocol == "tulip" then Some(Configs[0])
    else if protocol == "francium" then Some(Configs[1])
    else if protocol == "kamino" then Some(Configs[2])
    else if protocol == "solend" then Some(Configs[3])
    else None
  }

  /** An answer is live unless the proxy says it fell back or reports an error. */
  predicate IsLiveAnswer(resp: ProxyResponse) {
    resp.source != "fallback" && resp.error == ""
  }

  /** The record for one protocol's answer: a zero APY is replaced by the configured fallback. */
  function FromResponse(cfg: ApiConfig, resp: ProxyResponse): (d: ApyData)
    ensures d.name == cfg.name && d.protocol == resp.protocol
    ensures d.apy == (if resp.apy != 0.0 then resp.apy else cfg.fallbackApy)
    ensures d.isLive <==> IsLiveAnswer(resp)
    ensures d.lastUpdated == FromText(resp.timestamp) && d.source == resp.source
  {
    ApyData(cfg.name, resp.protocol, if resp.apy != 0.0 then resp.apy else cfg.fallbackApy,
            FromText(resp.timestamp), IsLiveAnswer(resp), resp.source)
  }

  /** The record that stands in when a request fails. */
  function FallbackData(cfg: ApiConfig, now: int): (d: ApyData)
    ensures d.name == cfg.name && d.protocol == cfg.protocol && d.apy == cfg.fallbackApy
    ensures !d.isLive && d.source == "fallback" && d.lastUpdated == At(now)
  {
    ApyData(cfg.name, cfg.protocol, cfg.fallbackApy, At(now), false, "fallback")
  }

  /** The record for one item of the bulk answer: names and APYs fall back to the configuration, then to the raw protocol and 0. */
  function FromBulkItem(resp: ProxyResponse): (d: ApyData)
    ensures FindConfig(resp.protocol).Some? ==> d.name == FindConfig(resp.protocol).value.name
    ensures FindConfig(resp.protocol).None? ==> d.name == resp.protocol
    ensures resp.apy != 0.0 ==> d.apy == resp.apy
    ensures resp.apy == 0.0 && FindConfig(resp.protocol).Some? ==> d.apy == FindConfig(resp.protocol).value.fallbackApy
    ensures resp.apy == 0.0 && FindConfig(resp.protocol).None? ==> d.apy == 0.0
    ensures d.protocol == resp.protocol && (d.isLive <==> IsLiveAnswer(resp))
    ensures d.lastUpdated == FromText(resp.timestamp) && d.source == resp.source
  {
    var cfg := FindConfig(resp.protocol);
    var name := if cfg.Some? && cfg.value.name != "" then cfg.value.name else resp.protocol;
    var apy :=
      if resp.apy != 0.0 then resp.apy
      else if cfg.Some? && cfg.value.fallbackApy != 0.0 then cfg.value.fallbackApy
      else 0.0;
    ApyData(name, resp.protocol, apy, FromText(resp.timestamp), IsLiveAnswer(resp), resp.source)
  }

  // ---------------------------------------------------------------------
  // Fetching

  /** A result together with the cache afterwards and the URLs requested on the way. */
  datatype Fetched<T> = Fetched(value: T, cache: Cache, requests: seq<string>)

  /** `fetchAPY`: cache first, then the protocol's endpoint; failures give the fallback record and cache nothing. */
  function FetchApy(c: Cache, protocol: string, now: int, reply: Reply): (r: Fetched<Option<ApyData>>)
    ensures Lookup(c, protocol).Some? && Fresh(Lookup(c, protocol).value, now) ==>
              r == Fetched(Some(Lookup(c, protocol).value.data), c, [])
    ensures !(Lookup(c, protocol).Some? && Fresh(Lookup(c, protocol).value, now)) ==>
              && (FindConfig(protocol).None? ==> r == Fetched(None, c, []))
              && (FindConfig(protocol).Some? ==> r.requests == [FindConfig(protocol).value.endpoint] && r.value.Some?)
    ensures FindConfig(protocol).Some? ==> r.value.Some?
    ensures r.requests != [] && reply.Response? ==>
              && r.value == Some(FromResponse(FindConfig(protocol).value, reply.response))
              && r.cache == Store(c, protocol, CacheEntry(r.value.value, now))
    ensures r.requests != [] && reply.Failure? ==>
              r.value == Some(FallbackData(FindConfig(protocol).value, now)) && r.cache == c
  {
    var cached := Lookup(c, protocol);
    if cached.Some? && Fresh(cached.value, now) then Fetched(Some(cached.value.data), c, [])
    else
      match FindConfig(protocol)
      case None => Fetched(None, c, [])
      case Some(cfg) =>
        match reply
        case Response(resp) =>
          var d := FromResponse(cfg, resp);
          Fetched(Some(d), Store(c, protocol, CacheEntry(d, now)), [cfg.endpoint])
        case Failure => Fetched(Some(FallbackData(cfg, now)), c, [cfg.endpoint])
  }

  /** A successful fetch is served from the cache, with no request, for the next five minutes. */
  lemma FetchedIsCached(c: Cache, protocol: string, now: int, reply: Reply, later: int, laterReply: Reply)
    requires reply.Response? && FetchApy(c, protocol, now, reply).requests != []
    requires later - now < CacheDuration
    ensures var first := FetchApy(c, protocol, now, reply);
            FetchApy(first.cache, protocol, later, laterReply) == Fetched(first.value, first.cache, [])
  {
  }

  /**
   * Every cached record filed under a configured protocol carries that
   * protocol's configured name.
   */
  ghost predicate NamesAgree(c: Cache) {
    forall k :: Lookup(c, k).Some? && FindConfig(k).Some? ==> Lookup(c, k).value.data.name == FindConfig(k).value.name
  }

  /** `fetchAPY` keeps the cache's names in agreement with the configuration. */
  lemma FetchApyKeepsNames(c: Cache, protocol: string, now: int, reply: Reply)
    requires NamesAgree(c)
    ensures NamesAgree(FetchApy(c, protocol, now, reply).cache)
    ensures FindConfig(protocol).Some? ==> FetchApy(c, protocol, now, reply).value.value.name == FindConfig(protocol).value.name
  {
  }

  /** No two configurations share a protocol. */
  predicate DistinctProtocols(configs: seq<ApiConfig>) {
    forall i, j :: 0 <= i < j < |configs| ==> configs[i].protocol != configs[j].protocol
  }

  /** Every configuration's protocol is configured. */
  predicate AllConfigured(configs: seq<ApiConfig>) {
    forall i :: 0 <= i < |configs| ==> FindConfig(configs[i].protocol).Some?
  }

  /** The records the fetches in `configs` return when each finds the cache `c`, in configuration order. */
  function EachRecord(c: Cache, now: int, configs: seq<ApiConfig>, replies: string -> Reply): (ds: seq<ApyData>)
    requires AllConfigured(configs)
    ensures |ds| == |configs|
    decreases |configs|
  {
    if |configs| == 0 then []
    else
      var p := configs[0].protocol;
      [FetchApy(c, p, now, replies(p)).value.value] + EachRecord(c, now, configs[1..], replies)
  }

  /** The requests the fetches in `configs` make when each finds the cache `c`, in configuration order. */
  function EachRequests(c: Cache, now: int, configs: seq<ApiConfig>, replies: string -> Reply): seq<string>
    decreases |configs|
  {
    if |configs| == 0 then []
    else FetchApy(c, configs[0].protocol, now, replies(configs[0].protocol)).requests
         + EachRequests(c, now, configs[1..], replies)
  }

  /** Record `i` is what `fetchAPY` returns for configuration `i` when it finds the cache `c`. */
  lemma {:induction false} EachRecordAt(c: Cache, now: int, configs: seq<ApiConfig>, replies: string -> Reply, i: nat)
    requires AllConfigured(configs) && i < |configs|
    ensures EachRecord(c, now, configs, replies)[i] ==
            FetchApy(c, configs[i].protocol, now, replies(configs[i].protocol)).value.value
    decreases i
  {
    if i > 0 {
      assert configs[1..][i - 1] == configs[i];
      EachRecordAt(c, now, configs[1..], replies, i - 1);
    }
  }

  /**
   * A fetch leaves every other protocol's cache entry alone, and a second fetch
   * at the same moment, for any protocol, returns what it would have returned
   * before the first.
   */
  lemma FetchLeavesOthersAlone(c: Cache, p: string, q: string, now: int, replies: string -> Reply)
    ensures var c1 := FetchApy(c, p, now, replies(p)).cache;
            && (q != p ==> Lookup(c1, q) == Lookup(c, q))
            && FetchApy(c1, q, now, replies(q)).value == FetchApy(c, q, now, replies(q)).value
            && (q != p ==> FetchApy(c1, q, now, replies(q)).requests == FetchApy(c, q, now, replies(q)).requests)
  {
    var c1 := FetchApy(c, p, now, replies(p)).cache;
    if q == p && c1 != c {
      assert Lookup(c1, p).value.timestamp == now;
    }
  }

  /**
   * Fetches after a fetch for `p`, at the same moment, return what they would
   * have returned without it, and make the same requests when none is for `p`.
   */
  lemma {:induction false} EachAfterFetch(c: Cache, p: string, now: int, configs: seq<ApiConfig>,
                                          replies: string -> Reply)
    requires AllConfigured(configs)
    ensures EachRecord(FetchApy(c, p, now, replies(p)).cache, now, configs, replies) ==
            EachRecord(c, now, configs, replies)
    ensures (forall i :: 0 <= i < |configs| ==> configs[i].protocol != p) ==>
              EachRequests(FetchApy(c, p, now, replies(p)).cache, now, configs, replies) ==
              EachRequests(c, now, configs, replies)
    decreases |configs|
  {
    if |configs| > 0 {
      FetchLeavesOthersAlone(c, p, configs[0].protocol, now, replies);
      assert forall i :: 0 <= i < |configs[1..]| ==> configs[1..][i] == configs[i + 1];
      EachAfterFetch(c, p, now, configs[1..], replies);
    }
  }

  /**
   * The fallback path of `fetchAllAPYs`: `fetchAPY` for every configuration,
   * in order. Each record is what that fetch returns when it finds the cache as
   * it was before the fallback began, as when the fetches start together; a
   * fetch for a configured protocol never comes back empty, so none is dropped.
   */
  function FetchEach(c: Cache, now: int, configs: seq<ApiConfig>, replies: string -> Reply): (r: Fetched<seq<ApyData>>)
    requires AllConfigured(configs)
    ensures r.value == EachRecord(c, now, configs, replies)
    ensures DistinctProtocols(configs) ==> r.requests == EachRequests(c, now, configs, replies)
    decreases |configs|
  {
    if |configs| == 0 then Fetched([], c, [])
    else
      var p := configs[0].protocol;
      var first := FetchApy(c, p, now, replies(p));
      var tail := configs[1..];
      var rest := FetchEach(first.cache, now, tail, replies);
      EachAfterFetch(c, p, now, tail, replies);
      assert DistinctProtocols(configs) ==> DistinctProtocols(tail) && forall i :: 0 <= i < |tail| ==> tail[i].protocol != p;
      Fetched([first.value.value] + rest.value, rest.cache, first.requests + rest.requests)
  }

  /** The fallback path keeps the cache's names in agreement with the configuration. */
  lemma {:induction false} FetchEachKeepsNames(c: Cache, now: int, configs: seq<ApiConfig>, replies: string -> Reply)
    requires NamesAgree(c) && AllConfigured(configs)
    ensures NamesAgree(FetchEach(c, now, configs, replies).cache)
    decreases |configs|
  {
    if |configs| > 0 {
      var p := configs[0].protocol;
      FetchApyKeepsNames(c, p, now, replies(p));
      FetchEachKeepsNames(FetchApy(c, p, now, replies(p)).cache, now, configs[1..], replies);
    }
  }

  /** With the cache's names in agreement, every fallback record carries its configuration's name. */
  lemma EachRecordNames(c: Cache, now: int, configs: seq<ApiConfig>, replies: string -> Reply)
    requires NamesAgree(c)
    requires forall i :: 0 <= i < |configs| ==> FindConfig(configs[i].protocol) == Some(configs[i])
    ensures AllConfigured(configs)
    ensures forall i :: 0 <= i < |configs| ==> EachRecord(c, now, configs, replies)[i].name == configs[i].name
  {
    forall i | 0 <= i < |configs| ensures EachRecord(c, now, configs, replies)[i].name == configs[i].name {
      EachRecordAt(c, now, configs, replies, i);
      FetchApyKeepsNames(c, configs[i].protocol, now, replies(configs[i].protocol));
    }
  }

  /** Some configuration in `configs` is for protocol `k`. */
  predicate Lists(configs: seq<ApiConfig>, k: string) {
    exists i :: 0 <= i < |configs| && configs[i].protocol == k
  }

  /** What a fetch files under its own protocol depends only on what the cache held there. */
  lemma FetchFilesByEntry(c: Cache, c1: Cache, k: string, now: int, reply: Reply)
    requires Lookup(c1, k) == Lookup(c, k)
    ensures Lookup(FetchApy(c1, k, now, reply).cache, k) == Lookup(FetchApy(c, k, now, reply).cache, k)
  {
  }

  /**
   * The fallback path's cache: under each listed protocol, what that protocol's
   * own fetch from the starting cache files there; under any other key, what
   * was there before.
   */
  lemma {:induction false} FetchEachCaches(c: Cache, now: int, configs: seq<ApiConfig>, replies: string -> Reply, k: string)
    requires AllConfigured(configs) && DistinctProtocols(configs)
    ensures Lookup(FetchEach(c, now, configs, replies).cache, k) ==
            if Lists(configs, k) then Lookup(FetchApy(c, k, now, replies(k)).cache, k) else Lookup(c, k)
    decreases |configs|
  {
    if |configs| > 0 {
      var p := configs[0].protocol;
      var c1 := FetchApy(c, p, now, replies(p)).cache;
      var tail := configs[1..];
      assert forall i :: 0 <= i < |tail| ==> tail[i] == configs[i + 1];
      assert DistinctProtocols(tail) && AllConfigured(tail);
      FetchEachCaches(c1, now, tail, replies, k);
      assert FetchEach(c, now, configs, replies).cache == FetchEach(c1, now, tail, replies).cache;
      FetchLeavesOthersAlone(c, p, k, now, replies);
      if k == p {
        assert Lists(configs, k) && !Lists(tail, k);
      } else {
        assert Lists(configs, k) <==> Lists(tail, k);
        FetchFilesByEntry(c, c1, k, now, replies(k));
      }
    }
  }

  /** The cache after filing each item of the bulk answer under its protocol, first to last. */
  function FileBulk(c: Cache, now: int, items: seq<ProxyResponse>): Cache
    decreases |items|
  {
    if |items| == 0 then c
    else FileBulk(Store(c, items[0].protocol, CacheEntry(FromBulkItem(items[0]), now)), now, items[1..])
  }

  /** The bulk answer's items in order, each filed in the cache under its protocol as it is mapped. */
  function StoreBulk(c: Cache, now: int, items: seq<ProxyResponse>): (r: Fetched<seq<ApyData>>)
    ensures |r.value| == |items|
    ensures forall i :: 0 <= i < |items| ==> r.value[i] == FromBulkItem(items[i])
    ensures r.cache == FileBulk(c, now, items)
    ensures r.requests == []
  {
    Fetched(seq(|items|, i requires 0 <= i < |items| => FromBulkItem(items[i])), FileBulk(c, now, items), [])
  }

  /** No later item of the bulk answer has the same protocol as item `i`. */
  predicate LastOfItsProtocol(items: seq<ProxyResponse>, i: nat)
    requires i < |items|
  {
    forall j :: i < j < |items| ==> items[j].protocol != items[i].protocol
  }

  /** No item of the bulk answer has protocol `k`. */
  predicate NotInBulk(items: seq<ProxyResponse>, k: string) {
    forall i :: 0 <= i < |items| ==> items[i].protocol != k
  }

  /** The bulk path leaves the keys of protocols it did not answer for as they were. */
  lemma {:induction false} StoreBulkUntouched(c: Cache, now: int, items: seq<ProxyResponse>, k: string)
    requires NotInBulk(items, k)
    ensures Lookup(FileBulk(c, now, items), k) == Lookup(c, k)
    decreases |items|
  {
    if |items| > 0 {
      var tail := items[1..];
      var c1 := Store(c, items[0].protocol, CacheEntry(FromBulkItem(items[0]), now));
      assert NotInBulk(tail, k) by {
        forall i | 0 <= i < |tail| ensures tail[i].protocol != k {
          assert tail[i] == items[i + 1];
        }
      }
      StoreBulkUntouched(c1, now, tail, k);
    }
  }

  /** The last item of a protocol in the bulk answer is the record cached for it. */
  lemma {:induction false} StoreBulkLastWins(c: Cache, now: int, items: seq<ProxyResponse>, i: nat)
    requires i < |items| && LastOfItsProtocol(items, i)
    ensures Lookup(FileBulk(c, now, items), items[i].protocol) == Some(CacheEntry(FromBulkItem(items[i]), now))
    decreases |items|, 1
  {
    if i == 0 {
      StoreBulkHeadWins(c, now, items);
    } else {
      StoreBulkLaterWins(c, now, items, i);
    }
  }

  /** A later item that is the last of its protocol wins over the cache the first item leaves. */
  lemma {:induction false} StoreBulkLaterWins(c: Cache, now: int, items: seq<ProxyResponse>, i: nat)
    requires 0 < i < |items| && LastOfItsProtocol(items, i)
    ensures Lookup(FileBulk(c, now, items), items[i].protocol) == Some(CacheEntry(FromBulkItem(items[i]), now))
    decreases |items|, 0
  {
    var c1 := StoreBulkHead(c, now, items);
    LastInTail(items, i);
    StoreBulkLastWins(c1, now, items[1..], i - 1);
  }

  /** A first item whose protocol does not come again is the record cached for it. */
  lemma StoreBulkHeadWins(c: Cache, now: int, items: seq<ProxyResponse>)
    requires 0 < |items| && LastOfItsProtocol(items, 0)
    ensures Lookup(FileBulk(c, now, items), items[0].protocol) == Some(CacheEntry(FromBulkItem(items[0]), now))
  {
    var c1 := StoreBulkHead(c, now, items);
    HeadIsLast(items);
    StoreBulkUntouched(c1, now, items[1..], items[0].protocol);
  }

  /** The bulk path files the first item, then the rest into the cache that leaves. */
  lemma StoreBulkHead(c: Cache, now: int, items: seq<ProxyResponse>) returns (c1: Cache)
    requires 0 < |items|
    ensures c1 == Store(c, items[0].protocol, CacheEntry(FromBulkItem(items[0]), now))
    ensures Lookup(c1, items[0].protocol) == Some(CacheEntry(FromBulkItem(items[0]), now))
    ensures FileBulk(c, now, items) == FileBulk(c1, now, items[1..])
  {
    c1 := Store(c, items[0].protocol, CacheEntry(FromBulkItem(items[0]), now));
  }

  lemma HeadIsLast(items: seq<ProxyResponse>)
    requires 0 < |items| && LastOfItsProtocol(items, 0)
    ensures NotInBulk(items[1..], items[0].protocol)
  {
    forall j | 0 <= j < |items| - 1 ensures items[1..][j].protocol != items[0].protocol {
      assert items[1..][j] == items[j + 1];
    }
  }

  lemma LastInTail(items: seq<ProxyResponse>, i: nat)
    requires 0 < i < |items| && LastOfItsProtocol(items, i)
    ensures items[1..][i - 1] == items[i] && LastOfItsProtocol(items[1..], i - 1)
  {
    var tail := items[1..];
    forall j | i - 1 < j < |tail| ensures tail[j].protocol != tail[i - 1].protocol {
      assert tail[j] == items[j + 1];
    }
  }

  /** Every protocol of the bulk answer is cached, stamped `now`. */
  lemma {:induction false} StoreBulkFiled(c: Cache, now: int, items: seq<ProxyResponse>, i: nat)
    requires i < |items|
    ensures Lookup(FileBulk(c, now, items), items[i].protocol).Some?
    ensures Lookup(FileBulk(c, now, items), items[i].protocol).value.timestamp == now
    decreases |items| - i
  {
    if LastOfItsProtocol(items, i) {
      StoreBulkLastWins(c, now, items, i);
    } else {
      var j :| i < j < |items| && items[j].protocol == items[i].protocol;
      StoreBulkFiled(c, now, items, j);
    }
  }

  lemma StoreBulkFiledAll(c: Cache, now: int, items: seq<ProxyResponse>)
    ensures forall i :: 0 <= i < |items| ==>
              Lookup(FileBulk(c, now, items), items[i].protocol).Some?
              && Lookup(FileBulk(c, now, items), items[i].protocol).value.timestamp == now
  {
    forall i | 0 <= i < |items|
      ensures Lookup(FileBulk(c, now, items), items[i].protocol).Some?
      ensures Lookup(FileBulk(c, now, items), items[i].protocol).value.timestamp == now
    {
      StoreBulkFiled(c, now, items, i);
    }
  }

  /** Filing a bulk item keeps the cache's names in agreement with the configuration. */
  lemma StoreBulkItemKeepsNames(c: Cache, item: ProxyResponse, now: int)
    requires NamesAgree(c)
    ensures NamesAgree(Store(c, item.protocol, CacheEntry(FromBulkItem(item), now)))
  {
  }

  /** The bulk path keeps the cache's names in agreement with the configuration. */
  lemma {:induction false} StoreBulkKeepsNames(c: Cache, now: int, items: seq<ProxyResponse>)
    requires NamesAgree(c)
    ensures NamesAgree(FileBulk(c, now, items))
    decreases |items|
  {
    if |items| > 0 {
      var next := Store(c, items[0].protocol, CacheEntry(FromBulkItem(items[0]), now));
      StoreBulkItemKeepsNames(c, items[0], now);
      StoreBulkKeepsNames(next, now, items[1..]);
    }
  }

  /** `fetchAllAPYs`: the bulk endpoint, and on any failure one request per configured protocol. */
  function FetchAllApys(c: Cache, now: int, bulk: BulkReply, replies: string -> Reply): (r: Fetched<seq<ApyData>>)
    requires NamesAgree(c)
    ensures |r.requests| > 0 && r.requests[0] == BulkUrl
    ensures bulk.BulkData? ==> r.requests == [BulkUrl] && |r.value| == |bulk.items|
    ensures bulk.BulkData? ==> forall i :: 0 <= i < |bulk.items| ==> r.value[i] == FromBulkItem(bulk.items[i])
    ensures bulk.BulkData? ==> forall i :: 0 <= i < |bulk.items| ==>
              Lookup(r.cache, bulk.items[i].protocol).Some? && Lookup(r.cache, bulk.items[i].protocol).value.timestamp == now
    ensures bulk.BulkFailed? ==> |r.value| == |Configs| && forall i :: 0 <= i < |Configs| ==> r.value[i].name == Configs[i].name
    ensures bulk.BulkFailed? ==> AllConfigured(Configs) && r.value == EachRecord(c, now, Configs, replies)
    ensures bulk.BulkFailed? ==> r.requests == [BulkUrl] + EachRequests(c, now, Configs, replies)
    ensures NamesAgree(r.cache)
  {
    match bulk
    case BulkData(items) =>
      var s := StoreBulk(c, now, items);
      StoreBulkKeepsNames(c, now, items);
      StoreBulkFiledAll(c, now, items);
      Fetched(s.value, s.cache, [BulkUrl])
    case BulkFailed =>
      ConfigsFindThemselves();
      EachRecordNames(c, now, Configs, replies);
      FetchEachKeepsNames(c, now, Configs, replies);
      var each := FetchEach(c, now, Configs, replies);
      Fetched(each.value, each.cache, [BulkUrl] + each.requests)
  }

  /** The bulk path files each record it returns, so for five minutes it is among the cached records. */
  lemma BulkRecordsAreCached(c: Cache, now: int, items: seq<ProxyResponse>, replies: string -> Reply, later: int, i: nat)
    requires NamesAgree(c)
    requires i < |items| && later - now < CacheDuration
    requires forall j :: i < j < |items| ==> items[j].protocol != items[i].protocol
    ensures var r := FetchAllApys(c, now, BulkData(items), replies);
            r.value[i] in GetCachedApys(r.cache, later)
  {
    var r := FetchAllApys(c, now, BulkData(items), replies);
    var k := items[i].protocol;
    StoreBulkLastWins(c, now, items, i);
    assert Lookup(r.cache, k) == Some(CacheEntry(r.value[i], now));
    LookupIsEntry(r.cache, k);
  }

  /**
   * After a bulk failure the cache holds, under each configured protocol, what
   * that protocol's own fetch files there, and under any other key what it held.
   */
  lemma FallbackCache(c: Cache, now: int, replies: string -> Reply, k: string)
    requires NamesAgree(c)
    ensures Lookup(FetchAllApys(c, now, BulkFailed, replies).cache, k) ==
            if Lists(Configs, k) then Lookup(FetchApy(c, k, now, replies(k)).cache, k) else Lookup(c, k)
  {
    ConfigsFindThemselves();
    FetchEachCaches(c, now, Configs, replies, k);
  }

  /**
   * The fallback path files what it fetched: for five minutes, a record that
   * came from a protocol's endpoint, rather than from the cache, is among the
   * cached records.
   */
  lemma FallbackRecordsAreCached(c: Cache, now: int, replies: string -> Reply, later: int, i: nat)
    requires NamesAgree(c)
    requires i < |Configs| && later - now < CacheDuration
    requires replies(Configs[i].protocol).Response?
    requires !(Lookup(c, Configs[i].protocol).Some? && Fresh(Lookup(c, Configs[i].protocol).value, now))
    ensures var r := FetchAllApys(c, now, BulkFailed, replies);
            r.value[i] in GetCachedApys(r.cache, later)
  {
    var r := FetchAllApys(c, now, BulkFailed, replies);
    var k := Configs[i].protocol;
    ConfigsFindThemselves();
    assert Lists(Configs, k);
    FallbackCache(c, now, replies, k);
    EachRecordAt(c, now, Configs, replies, i);
    assert Lookup(r.cache, k) == Some(CacheEntry(r.value[i], now));
    LookupIsEntry(r.cache, k);
  }

  lemma {:induction false} LookupIsEntry(c: Cache, key: string)
    requires Lookup(c, key).Some?
    ensures exists i :: 0 <= i < |c| && c[i].entry == Lookup(c, key).value
  {
    if c[0].key != key {
      LookupIsEntry(c[1..], key);
      var i :| 0 <= i < |c[1..]| && c[1..][i].entry == Lookup(c[1..], key).value;
      assert c[i + 1].entry == Lookup(c, key).value;
    } else {
      assert c[0].entry == Lookup(c, key).value;
    }
  }

  lemma ConfigsFindThemselves()
    ensures forall i :: 0 <= i < |Configs| ==> FindConfig(Configs[i].protocol) == Some(Configs[i])
    ensures DistinctProtocols(Configs)
  {
  }

  function ApyOf(d: ApyData): real {
    d.apy
  }

  /** `getBestAPY`: the first record with the highest APY among those `fetchAllAPYs` returns. */
  function GetBestApy(c: Cache, now: int, bulk: BulkReply, replies: string -> Reply): (r: Fetched<Option<ApyData>>)
    requires NamesAgree(c)
    ensures var all := FetchAllApys(c, now, bulk, replies).value;
            && (r.value.None? <==> |all| == 0)
            && (r.value.Some? ==> exists k :: IsFirstMaxAt(all, ApyOf, k) && all[k] == r.value.value)
    ensures bulk.BulkFailed? ==> r.value.Some?
  {
    var all := FetchAllApys(c, now, bulk, replies);
    if |all.value| == 0 then Fetched(None, all.cache, all.requests)
    else
      var k := FirstMaxIndex(all.value, ApyOf);
      Fetched(Some(all.value[k]), all.cache, all.requests)
  }
}

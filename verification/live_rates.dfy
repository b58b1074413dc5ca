/**
 * The live-rates panel's data policy: one browser-storage slot holding the
 * last bulk answer with an expiry 15 minutes after it was written, the
 * cache-first fetch, and the figures derived from the list (the highest APY,
 * the live count, the display configuration of a protocol). The storage slot
 * and the proxy are inputs; time is the input `now`, in milliseconds.
 */
module LiveRates {

  import opened Base
  import ApyService

  /** One protocol's entry in the proxy's bulk answer; `error` is "" when it carries none. */
  datatype ProtocolData = ProtocolData(
    protocol: string,
    apy: real,
    source: string,
    error: string,
    timestamp: string,
    thirtyDayApy: Option<real>)

  /** What the panel shows: the list and the time of the answer it came from. */
  datatype Snapshot = Snapshot(data: seq<ProtocolData>, timestamp: string)

  /**
   * The storage slot under the cache key: nothing, text that does not read back
   * as a cache record, or a record with its expiry time.
   */
  datatype Slot = Empty | Unreadable | Stored(snapshot: Snapshot, expiry: int)

  /** Records expire 15 minutes after they are written. */
  const CacheExpiration: int := 15 * 60 * 1000

  /** The outcome of reading the slot: the snapshot if still valid, and the slot afterwards. */
  datatype CacheRead = CacheRead(hit: Option<Snapshot>, slot: Slot)

  /**
   * `getCachedData`: a record is used while `now` is before its expiry; an
   * expired or unreadable record is removed.
   */
  function GetCachedData(slot: Slot, now: int): (r: CacheRead)
    ensures r.hit.Some? <==> slot.Stored? && now < slot.expiry
    ensures r.hit.Some? ==> r.hit.value == slot.snapshot && r.slot == slot
    ensures r.hit.None? ==> r.slot == Empty
  {
    match slot
    case Stored(snapshot, expiry) =>
      if now < expiry then CacheRead(Some(snapshot), slot) else CacheRead(None, Empty)
    case _ => CacheRead(None, Empty)
  }

  /** `setCachedData`: the record expires 15 minutes from now. */
  function SetCachedData(snapshot: Snapshot, now: int): (slot: Slot)
    ensures slot.Stored? && slot.snapshot == snapshot && slot.expiry - now == CacheExpiration
  {
    Stored(snapshot, now + CacheExpiration)
  }

  /** What was written is read back, unchanged, for exactly the next 15 minutes. */
  lemma ReadBackWithinExpiry(snapshot: Snapshot, written: int, later: int)
    ensures GetCachedData(SetCachedData(snapshot, written), later).hit.Some? <==> later < written + CacheExpiration
    ensures later < written + CacheExpiration ==>
              GetCachedData(SetCachedData(snapshot, written), later).hit == Some(snapshot)
  {
  }

  /** Reading the slot again at the same moment gives the same answer and leaves it as it is. */
  lemma ReadIsIdempotent(slot: Slot, now: int)
    ensures var once := GetCachedData(slot, now);
            GetCachedData(once.slot, now) == once
  {
  }

  // ---------------------------------------------------------------------
  // The fetch policy

  /** The panel's state. `error` is None when there is nothing to report. */
  datatype View = View(protocols: seq<ProtocolData>, loading: bool, error: Option<string>, lastUpdated: string)

  /** The bulk request's outcome: the parsed body, or any failure (network, body that is not JSON). */
  datatype ApiReply = Payload(snapshot: Snapshot) | FetchFailed

  const FetchFailedMessage := "Failed to fetch APY data"

  /** The panel state, the slot afterwards, and whether the bulk endpoint was requested. */
  datatype Refresh = Refresh(view: View, slot: Slot, requested: bool)

  /**
   * `fetchAPYData`: with `useCache`, a valid record is shown without a request;
   * otherwise the bulk endpoint is requested and a successful answer is shown
   * and written to the slot; a failure shows the error and writes nothing.
   */
  function FetchApyData(v: View, slot: Slot, useCache: bool, now: int, reply: ApiReply): (r: Refresh)
    ensures !r.view.loading
    ensures useCache && GetCachedData(slot, now).hit.Some? ==>
              && !r.requested && r.slot == slot && r.view.error.None?
              && r.view.protocols == slot.snapshot.data && r.view.lastUpdated == slot.snapshot.timestamp
    ensures r.requested <==> !(useCache && GetCachedData(slot, now).hit.Some?)
    ensures r.requested && reply.Payload? ==>
              && r.slot == SetCachedData(reply.snapshot, now) && r.view.error.None?
              && r.view.protocols == reply.snapshot.data && r.view.lastUpdated == reply.snapshot.timestamp
    ensures r.requested && reply.FetchFailed? ==>
              && r.view.error == Some(FetchFailedMessage)
              && r.view.protocols == v.protocols && r.view.lastUpdated == v.lastUpdated
              && r.slot == (if useCache then Empty else slot)
  {
    var busy := v.(loading := true, error := None);
    var read := if useCache then GetCachedData(slot, now) else CacheRead(None, slot);
    if read.hit.Some? then
      Refresh(busy.(protocols := read.hit.value.data, lastUpdated := read.hit.value.timestamp, loading := false),
              read.slot, false)
    else
      match reply
      case Payload(snapshot) =>
        Refresh(busy.(protocols := snapshot.data, lastUpdated := snapshot.timestamp, loading := false),
                SetCachedData(snapshot, now), true)
      case FetchFailed =>
        Refresh(busy.(error := Some(FetchFailedMessage), loading := false), read.slot, true)
  }

  /**
   * After a successful forced refresh, the cache-first load within the next 15
   * minutes shows the same list without a request.
   */
  lemma ForcedRefreshServesLaterLoads(v: View, slot: Slot, now: int, snapshot: Snapshot,
                                      later: int, laterReply: ApiReply)
    requires later < now + CacheExpiration
    ensures var first := FetchApyData(v, slot, false, now, Payload(snapshot));
            var second := FetchApyData(first.view, first.slot, true, later, laterReply);
            !second.requested && second.view.protocols == snapshot.data && second.slot == first.slot
  {
  }

  // ---------------------------------------------------------------------
  // Derived figures

  /** The highest APY of the list, 0 for an empty list. */
  function HighestApy(ps: seq<ProtocolData>): (m: real)
    ensures forall i :: 0 <= i < |ps| ==> ps[i].apy <= m
    ensures |ps| > 0 ==> exists i :: 0 <= i < |ps| && ps[i].apy == m
    ensures |ps| == 0 ==> m == 0.0
    decreases |ps|
  {
    if |ps| == 0 then 0.0
    else if |ps| == 1 then ps[0].apy
    else
      var rest := HighestApy(ps[1..]);
      assert forall i :: 1 <= i < |ps| ==> ps[i] == ps[1..][i - 1];
      if ps[0].apy >= rest then ps[0].apy else rest
  }

  predicate IsLive(p: ProtocolData) {
    p.error == ""
  }

  /**
   * The entries that report no error, each as often as it occurs; their number
   * is the live count the panel shows next to the list's length.
   */
  function LiveProtocols(ps: seq<ProtocolData>): (live: seq<ProtocolData>)
    ensures forall i :: 0 <= i < |live| ==> IsLive(live[i]) && live[i] in ps
    ensures forall p :: p in ps && IsLive(p) ==> p in live
    ensures forall p :: multiset(live)[p] == if IsLive(p) then multiset(ps)[p] else 0
    ensures |live| == |IndicesWhere(ps, IsLive)|
  {
    FilterMembers(ps, IsLive);
    FilterMultiset(ps, IsLive);
    FilterCount(ps, IsLive);
    Filter(ps, IsLive)
  }

  /** The live entries keep the list's order: those of a joined list are those of each part, in turn. */
  lemma LiveProtocolsKeepOrder(front: seq<ProtocolData>, back: seq<ProtocolData>)
    ensures LiveProtocols(front + back) == LiveProtocols(front) + LiveProtocols(back)
  {
    FilterAppend(front, back, IsLive);
    assert LiveProtocols(front + back) == Filter(front + back, IsLive);
    assert LiveProtocols(front) == Filter(front, IsLive) && LiveProtocols(back) == Filter(back, IsLive);
  }

  /** The live count equals the list's length exactly when no entry reports an error. */
  lemma AllLiveIff(ps: seq<ProtocolData>)
    ensures |LiveProtocols(ps)| == |ps| <==> forall i :: 0 <= i < |ps| ==> IsLive(ps[i])
  {
    FilterKeepsAllIff(ps, IsLive);
  }

  /** How the panel shows a protocol. */
  datatype Display = Display(name: string, icon: string, color: string)

  const FallbackIcon := "\U{1F537}"
  const FallbackColor := "from-gray-500 to-gray-600"

  /** The five protocols the panel has a look for. */
  function KnownDisplay(protocol: string): Option<Display> {
    if protocol == "tulip" then Some(Display("Tulip Garden", "\U{1F337}", "from-pink-500 to-rose-600"))
    else if protocol == "francium" then Some(Display("Francium", "\U{26A1}", "from-yellow-500 to-orange-600"))
    else if protocol == "kamino" then Some(Display("Kamino Finance", "\U{1F30A}", "from-blue-500 to-cyan-600"))
    else if protocol == "solend" then Some(Display("Solend", "\U{1F48E}", "from-purple-500 to-indigo-600"))
    else if protocol == "marginfi" then Some(Display("MarginFi", "\U{1F4CA}", "from-green-500 to-emerald-600"))
    else None
  }

  /** `getProtocolConfig`: the known look, or a neutral one named after the raw protocol key. */
  function GetProtocolConfig(protocol: string): (d: Display)
    ensures KnownDisplay(protocol).Some? ==> d == KnownDisplay(protocol).value
    ensures KnownDisplay(protocol).None? ==> d == Display(protocol, FallbackIcon, FallbackColor)
    ensures d.icon != FallbackIcon <==> KnownDisplay(protocol).Some?
  {
    KnownDisplay(protocol).GetOr(Display(protocol, FallbackIcon, FallbackColor))
  }

  /** The panel shows each protocol the APY service is configured for under the service's own name. */
  lemma PanelNamesMatchService()
    ensures forall cfg :: cfg in ApyService.Configs ==>
              KnownDisplay(cfg.protocol).Some? && GetProtocolConfig(cfg.protocol).name == cfg.name
  {
  }
}

/** StockServiceImpl: the shared price tracker and the registry of active
    clients, a map from a client's address to the time it was last seen.
    Times are integers in milliseconds. */
module Service {
  import opened Common
  import opened Utils

  /** A client stays active while fewer than 30 seconds have passed since it was last seen. */
  const LivenessWindow: int := 30_000

  /** The retain test of get_active_client_count: the elapsed time is defined
      (the timestamp is not in the future) and under the window. */
  predicate IsLive(lastSeen: int, now: int)
  {
    0 <= now - lastSeen < LivenessWindow
  }

  type Registry = map<Addr, int>

  /** register_client: `a` enters with time `now` only if it is absent; an entry
      already there keeps its timestamp. */
  function Registered(m: Registry, a: Addr, now: int): (r: Registry)
    ensures r.Keys == m.Keys + {a}
    ensures r[a] == if a in m then m[a] else now
    ensures forall b :: b in m ==> r[b] == m[b]
  {
    if a in m then m else m[a := now]
  }

  /** update_last_activity: the address, when there is one, is set to `now`
      (inserted if absent); no other entry changes. */
  function Touched(m: Registry, addr: Option<Addr>, now: int): (r: Registry)
    ensures addr.None? ==> r == m
    ensures addr.Some? ==> r.Keys == m.Keys + {addr.value} && r[addr.value] == now
    ensures forall b :: b in m && addr != Some(b) ==> r[b] == m[b]
  {
    match addr
    case None => m
    case Some(a) => m[a := now]
  }

  /** unregister_client: `a` is removed if present; no other entry changes. */
  function Unregistered(m: Registry, a: Addr): (r: Registry)
    ensures r.Keys == m.Keys - {a}
    ensures forall b :: b in r ==> r[b] == m[b]
  {
    m - {a}
  }

  /** The retain of get_active_client_count: exactly the live entries stay, with
      their timestamps; nothing is added or re-timed. */
  function Pruned(m: Registry, now: int): (r: Registry)
    ensures forall b :: b in r <==> b in m && IsLive(m[b], now)
    ensures forall b :: b in r ==> r[b] == m[b]
  {
    map b | b in m && IsLive(m[b], now) :: m[b]
  }

  /** A second register_client of the same address changes nothing. */
  lemma RegisterIdempotent(m: Registry, a: Addr, t1: int, t2: int)
    ensures Registered(Registered(m, a, t1), a, t2) == Registered(m, a, t1)
  {
  }

  /** Pruning twice at the same instant is pruning once: same map, same count. */
  lemma PruneIdempotent(m: Registry, now: int)
    ensures Pruned(Pruned(m, now), now) == Pruned(m, now)
    ensures |Pruned(m, now)| <= |m|
  {
    var p := Pruned(m, now);
    assert Pruned(p, now).Keys == p.Keys;
    assert m.Keys == p.Keys + (m.Keys - p.Keys);
    assert |m.Keys| == |p.Keys| + |m.Keys - p.Keys|;
    assert |p| == |p.Keys| && |m| == |m.Keys|;
  }

  /** A client seen at `now` survives a prune at `now`. */
  lemma TouchedSurvivesPrune(m: Registry, a: Addr, now: int)
    ensures a in Pruned(Touched(m, Some(a), now), now)
  {
  }

  /** A client that is not seen again is dropped by every prune 30 seconds or
      more after it was last seen, and by every prune before it was seen. */
  lemma SilentClientIsPruned(m: Registry, a: Addr, now: int)
    requires a in m && (now >= m[a] + LivenessWindow || now < m[a])
    ensures a !in Pruned(m, now)
  {
  }

  class StockService {
    const tracker: PriceTracker
    var activeClients: Registry

    /** The tracker's own invariant, plus: every recorded symbol is supported and
        every recorded price came from the oracle's range. */
    ghost predicate Valid()
      reads this, tracker
    {
      tracker.Valid() && OnlyOraclePrices(tracker.prices)
    }

    /** StockServiceImpl::new: an empty tracker and no active clients. */
    constructor ()
      ensures Valid() && fresh(tracker)
      ensures tracker.prices == map[] && activeClients == map[]
    {
      tracker := new PriceTracker();
      activeClients := map[];
    }

    method RegisterClient(addr: Addr, now: int)
      requires Valid()
      modifies this
      ensures Valid()
      ensures activeClients == Registered(old(activeClients), addr, now)
    {
      if addr !in activeClients {
        activeClients := activeClients[addr := now];
      }
    }

    method UpdateLastActivity(addr: Option<Addr>, now: int)
      requires Valid()
      modifies this
      ensures Valid()
      ensures activeClients == Touched(old(activeClients), addr, now)
    {
      if addr.Some? {
        activeClients := activeClients[addr.value := now];
      }
    }

    /** get_active_client_count: drops the entries that are no longer live and
        returns how many remain. */
    method GetActiveClientCount(now: int) returns (count: nat)
      requires Valid()
      modifies this
      ensures Valid()
      ensures activeClients == Pruned(old(activeClients), now)
      ensures count == |activeClients|
    {
      activeClients := map b | b in activeClients && IsLive(activeClients[b], now) :: activeClients[b];
      count := |activeClients|;
    }

    /** unregister_client (used by the stream producer): removes the entry if present. */
    method UnregisterClient(addr: Addr)
      requires Valid()
      modifies this
      ensures Valid()
      ensures activeClients == Unregistered(old(activeClients), addr)
    {
      activeClients := activeClients - {addr};
    }
  }

  /** Every symbol in the history is supported and every price lies in [10, 1000). */
  predicate OnlyOraclePrices(m: PriceMap)
  {
    forall t :: t in m ==> IsTicker(t) && forall i :: 0 <= i < |m[t]| ==> IsPriceInRange(m[t][i])
  }

  /** Recording oracle prices under a supported symbol keeps OnlyOraclePrices. */
  lemma AddedAllKeepsOraclePrices(m: PriceMap, t: string, ds: seq<Draw>)
    requires OnlyOraclePrices(m) && IsTicker(t)
    ensures OnlyOraclePrices(AddedAll(m, t, PricesOf(ds)))
  {
    var r := AddedAll(m, t, PricesOf(ds));
    forall u | u in r
      ensures IsTicker(u) && forall i :: 0 <= i < |r[u]| ==> IsPriceInRange(r[u][i])
    {
      if u == t && ds != [] {
        assert r[u] == History(m, t) + PricesOf(ds);
      }
    }
  }

  /** The average of any recorded history lies in the oracle's range [10, 1000). */
  lemma AverageInOracleRange(svc: StockService, t: string)
    requires svc.Valid() && t in svc.tracker.prices
    ensures svc.tracker.Average(t).Some?
    ensures IsPriceInRange(svc.tracker.Average(t).value)
  {
    MeanWithin(svc.tracker.prices[t], 10.0, 1000.0);
  }
}

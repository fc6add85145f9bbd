/** The server's bookkeeping around the handlers: the interceptor that registers
    each caller, the monitor that shuts the server down once no client has been
    active for two samples in a row, and the StockService methods, each of which
    records the caller's activity before delegating to its handler. */
module Server {
  import opened Common
  import opened Text
  import opened Utils
  import opened Finance
  import opened Service
  import opened Handlers
  import opened Stream

  // ---------------------------------------------------------------------------
  // The interceptor

  /** ConnectionInterceptor::call: registers the caller when its address is
      known (the spawned registration is taken to run at once), and passes the
      request through unchanged. */
  method Intercept(svc: StockService, request: Request<()>, now: int) returns (r: Reply<Request<()>>)
    requires svc.Valid()
    modifies svc
    ensures svc.Valid()
    ensures r == Ok(request)
    ensures request.remoteAddr.None? ==> svc.activeClients == old(svc.activeClients)
    ensures request.remoteAddr.Some? ==>
      svc.activeClients == Registered(old(svc.activeClients), request.remoteAddr.value, now)
  {
    if request.remoteAddr.Some? {
      svc.RegisterClient(request.remoteAddr.value, now);
    }
    r := Ok(request);
  }

  // ---------------------------------------------------------------------------
  // The inactivity monitor

  /** The samples at i - 1 and i, five seconds apart, both counted no active client. */
  predicate IdlePair(samples: seq<nat>, i: int)
  {
    1 <= i < |samples| && samples[i - 1] == 0 && samples[i] == 0
  }

  /** The first idle pair ending at or after `from`. */
  function FirstIdleFrom(samples: seq<nat>, from: nat): (r: Option<nat>)
    ensures r.Some? ==> from <= r.value && IdlePair(samples, r.value)
    ensures r.Some? ==> forall j :: from <= j < r.value ==> !IdlePair(samples, j)
    ensures r.None? ==> forall j :: from <= j ==> !IdlePair(samples, j)
    decreases |samples| - from
  {
    if from >= |samples| then None
    else if IdlePair(samples, from) then Some(from)
    else FirstIdleFrom(samples, from + 1)
  }

  /** The sample at which the monitor signals shutdown: the second zero of the
      first two consecutive zero samples. */
  function ShutdownSample(samples: seq<nat>): Option<nat>
  {
    FirstIdleFrom(samples, 0)
  }

  lemma {:induction false} FirstIdleFromAt(samples: seq<nat>, from: nat, i: nat)
    requires from <= i && IdlePair(samples, i)
    requires forall j :: from <= j < i ==> !IdlePair(samples, j)
    ensures FirstIdleFrom(samples, from) == Some(i)
    decreases i - from
  {
    if from < i {
      FirstIdleFromAt(samples, from + 1, i);
    }
  }

  /** The monitor task over the active counts it reads, one per five-second
      sleep: a zero count increments `inactivity_count`, any other resets it,
      and when it reaches 2 the shutdown signal is sent once and the task ends.
      The u32 counter never goes beyond 2. */
  method InactivityMonitor(samples: seq<nat>) returns (shutdownAt: Option<nat>)
    ensures shutdownAt == ShutdownSample(samples)
  {
    var inactivityCount: u32 := 0;
    var i := 0;
    while i < |samples|
      invariant 0 <= i <= |samples|
      invariant inactivityCount == if i > 0 && samples[i - 1] == 0 then 1 else 0
      invariant forall j :: 0 <= j < i ==> !IdlePair(samples, j)
    {
      if samples[i] == 0 {
        inactivityCount := inactivityCount + 1;
        if inactivityCount >= 2 {
          FirstIdleFromAt(samples, 0, i);
          return Some(i);
        }
      } else {
        inactivityCount := 0;
      }
      i := i + 1;
    }
    return None;
  }

  /** The signal, once sent, is final: later samples are never read. Before it,
      later samples can only cause a shutdown at a later sample. */
  lemma ShutdownIsFinal(samples: seq<nat>, more: seq<nat>)
    ensures ShutdownSample(samples).Some? ==> ShutdownSample(samples + more) == ShutdownSample(samples)
    ensures ShutdownSample(samples).None? && ShutdownSample(samples + more).Some? ==>
      ShutdownSample(samples + more).value >= |samples|
  {
    var all := samples + more;
    assert forall j :: 1 <= j < |samples| ==> (IdlePair(all, j) <==> IdlePair(samples, j));
    match ShutdownSample(samples)
    case Some(i) =>
      FirstIdleFromAt(all, 0, i);
    case None =>
  }

  /** A non-zero sample resets the count: it cannot be the first of a pair
      that shuts the server down, so zero, non-zero, zero does not stop it at
      the second zero. */
  lemma NonZeroSampleResets(samples: seq<nat>, i: nat)
    requires 1 <= i < |samples| && samples[i - 1] != 0
    ensures ShutdownSample(samples) != Some(i)
  {
  }

  /** Shutdown needs two zero samples in a row: a run whose zero samples are
      all isolated never signals. */
  lemma IsolatedZerosNeverShutDown(samples: seq<nat>)
    requires forall i :: 1 <= i < |samples| && samples[i] == 0 ==> samples[i - 1] != 0
    ensures ShutdownSample(samples).None?
  {
  }

  /** A client seen within the last 30 seconds keeps the monitor's sample
      above zero. */
  lemma LiveClientCountsAsActive(m: Registry, a: Addr, now: int)
    requires a in m && IsLive(m[a], now)
    ensures |Pruned(m, now)| > 0
  {
    assert a in Pruned(m, now).Keys;
  }

  // ---------------------------------------------------------------------------
  // The StockService methods: touch the caller, then run the handler

  method GetTickerList(svc: StockService, request: Request<TickerListRequest>, now: int)
    returns (r: Reply<TickerListResponse>)
    requires svc.Valid()
    modifies svc
    ensures svc.Valid()
    ensures svc.activeClients == Touched(old(svc.activeClients), request.remoteAddr, now)
    ensures r == HandleGetTickerList(request)
  {
    svc.UpdateLastActivity(request.remoteAddr, now);
    r := HandleGetTickerList(request);
  }

  method GetPrice(svc: StockService, request: Request<PriceRequest>, now: int, draw: Draw)
    returns (r: Reply<PriceResponse>)
    requires svc.Valid()
    modifies svc, svc.tracker
    ensures svc.Valid()
    ensures svc.activeClients == Touched(old(svc.activeClients), request.remoteAddr, now)
    ensures (r, svc.tracker.prices) == GetPriceSpec(old(svc.tracker.prices), request, draw)
  {
    svc.UpdateLastActivity(request.remoteAddr, now);
    r := HandleGetPrice(svc, request, draw);
  }

  method GetMultiplePrices(svc: StockService, request: Request<MultiplePricesRequest>, now: int, draws: seq<Draw>)
    returns (r: Reply<MultiplePricesResponse>)
    requires svc.Valid()
    requires |draws| >= request.message.count as int
    modifies svc, svc.tracker
    ensures svc.Valid()
    ensures svc.activeClients == Touched(old(svc.activeClients), request.remoteAddr, now)
    ensures (r, svc.tracker.prices) == GetMultiplePricesSpec(old(svc.tracker.prices), request, draws)
  {
    svc.UpdateLastActivity(request.remoteAddr, now);
    r := HandleGetMultiplePrices(svc, request, draws);
  }

  method GetStats(svc: StockService, request: Request<StatsRequest>, now: int)
    returns (r: Reply<StatsResponse>)
    requires svc.Valid()
    modifies svc
    ensures svc.Valid()
    ensures svc.activeClients == Touched(old(svc.activeClients), request.remoteAddr, now)
    ensures r == GetStatsSpec(svc.tracker.prices, request)
  {
    svc.UpdateLastActivity(request.remoteAddr, now);
    r := HandleGetStats(svc, request);
  }

  /** The stream's producer runs to the end of the supplied ticks within the call. */
  method StreamPrices(svc: StockService, request: Request<PriceRequest>, now: int,
                      draws: seq<Draw>, sendOk: seq<bool>)
    returns (r: Reply<Session>)
    requires svc.Valid()
    requires |draws| == |sendOk|
    modifies svc, svc.tracker
    ensures svc.Valid()
    ensures (r, svc.tracker.prices, svc.activeClients)
         == StreamSpec(old(svc.tracker.prices), Touched(old(svc.activeClients), request.remoteAddr, now),
                       request, draws, sendOk)
  {
    svc.UpdateLastActivity(request.remoteAddr, now);
    r := HandleStreamPrices(svc, request, draws, sendOk);
  }

  /** A caller of any method counts as live at a sample taken at the time of
      its call. A streaming caller is gone from the registry once a send to it
      failed; while its stream is open it keeps the timestamp of its call, as
      the producer never refreshes it, and is dropped 30 seconds later. */
  lemma CallerIsLiveAfterCall(prices: PriceMap, m: Registry, a: Addr, now: int, req: Request<PriceRequest>,
                              draws: seq<Draw>, sendOk: seq<bool>)
    requires |draws| == |sendOk|
    requires req.remoteAddr == Some(a) && IsTicker(ToUpper(req.message.ticker))
    ensures a in Pruned(Touched(m, Some(a), now), now)
    ensures var out := StreamSpec(prices, Touched(m, Some(a), now), req, draws, sendOk);
      && out.0.Ok?
      && (out.0.value.disconnected ==> a !in out.2)
      && (!out.0.value.disconnected ==> out.2[a] == now && a !in Pruned(out.2, now + LivenessWindow))
  {
    TouchedSurvivesPrune(m, a, now);
    StreamDisconnects(prices, Touched(m, Some(a), now), req, draws, sendOk);
  }
}

/** handle_stream_prices: after validation a producer task draws one price per
    tick, records it, then sends it to the client; on the first failed send it
    unregisters the client and stops. The ticks are modelled as a finite run of
    draws, and the channel as the outcome of each send. */
module Stream {
  import opened Common
  import opened Text
  import opened Utils
  import opened Finance
  import opened Service
  import opened Handlers

  /** Capacity of the bounded channel between the producer and the response
      stream; it only decides when a send waits, not whether it fails. */
  const ChannelCapacity: nat := 32

  /** What the producer did over the modelled ticks: the items the channel
      accepted, in order, and whether it stopped on a failed send. An accepted
      item is only queued; items still queued when the client goes away are
      dropped with the receiver. */
  datatype Session = Session(delivered: seq<PriceResponse>, disconnected: bool)

  /** The index of the first failed send, if any. */
  function FirstFailure(sendOk: seq<bool>): (r: Option<nat>)
    ensures r.None? <==> forall i :: 0 <= i < |sendOk| ==> sendOk[i]
    ensures r.Some? ==> r.value < |sendOk| && !sendOk[r.value]
    ensures r.Some? ==> forall i :: 0 <= i < r.value ==> sendOk[i]
  {
    if sendOk == [] then None
    else if !sendOk[0] then Some(0)
    else match FirstFailure(sendOk[1..])
      case None => None
      case Some(k) => Some(k + 1)
  }

  /** A failed send after only successful ones is the first failure. */
  lemma {:induction false} FirstFailureAt(sendOk: seq<bool>, i: nat)
    requires i < |sendOk| && !sendOk[i]
    requires forall k :: 0 <= k < i ==> sendOk[k]
    ensures FirstFailure(sendOk) == Some(i)
  {
    if i > 0 {
      FirstFailureAt(sendOk[1..], i - 1);
    }
  }

  /** How many ticks the producer runs: through the first failed send, or all. */
  function Ticks(sendOk: seq<bool>): (n: nat)
    ensures n <= |sendOk|
    ensures FirstFailure(sendOk).Some? ==> n == FirstFailure(sendOk).value + 1
    ensures FirstFailure(sendOk).None? ==> n == |sendOk|
  {
    match FirstFailure(sendOk)
    case None => |sendOk|
    case Some(k) => k + 1
  }

  /** How many items the channel accepts: those sent before the first failure, or all. */
  function Delivered(sendOk: seq<bool>): (n: nat)
    ensures n <= Ticks(sendOk)
    ensures FirstFailure(sendOk).Some? ==> n == FirstFailure(sendOk).value
    ensures FirstFailure(sendOk).None? ==> n == |sendOk|
  {
    match FirstFailure(sendOk)
    case None => |sendOk|
    case Some(k) => k
  }

  /** The item built from one draw: the symbol, the price and its quote line. */
  function Item(t: string, d: Draw): PriceResponse
  {
    PriceResponse(t, d.price, FormatPrice(t, d.price))
  }

  function Items(t: string, ds: seq<Draw>): (items: seq<PriceResponse>)
    ensures |items| == |ds|
    ensures forall k :: 0 <= k < |ds| ==> items[k] == Item(t, ds[k])
  {
    seq(|ds|, k requires 0 <= k < |ds| => Item(t, ds[k]))
  }

  lemma ItemsSnoc(t: string, ds: seq<Draw>, d: Draw)
    ensures Items(t, ds + [d]) == Items(t, ds) + [Item(t, d)]
  {
    assert forall k :: 0 <= k < |ds| ==> (ds + [d])[k] == ds[k];
  }

  /** The producer's ticks for symbol `t`: the session (the items the channel
      accepted) and the prices recorded, one more than accepted when a send failed. */
  function Run(t: string, draws: seq<Draw>, sendOk: seq<bool>): (r: (Session, seq<real>))
    requires |draws| == |sendOk|
    ensures |r.1| == |r.0.delivered| + (if r.0.disconnected then 1 else 0)
  {
    (Session(Items(t, draws[..Delivered(sendOk)]), FirstFailure(sendOk).Some?), PricesOf(draws[..Ticks(sendOk)]))
  }

  /** The reply, the tracker's history and the client registry after a stream
      request whose producer meets the send outcomes `sendOk`, one per draw. */
  function StreamSpec(prices: PriceMap, clients: Registry, req: Request<PriceRequest>,
                      draws: seq<Draw>, sendOk: seq<bool>)
    : (out: (Reply<Session>, PriceMap, Registry))
    requires |draws| == |sendOk|
    ensures req.remoteAddr.None? ==> out == (Panic(UnknownAddressPanic), prices, clients)
    ensures req.remoteAddr.Some? ==> var t := ToUpper(req.message.ticker);
      && (out.0.Ok? || out.0.Err?)
      && (out.0.Ok? <==> IsTicker(t))
      && (out.0.Err? ==> Some(out.0.status) == CheckTicker(req.message.ticker)
                         && out.1 == prices && out.2 == clients)
  {
    if req.remoteAddr.None? then (Panic(UnknownAddressPanic), prices, clients)
    else
      var t := ToUpper(req.message.ticker);
      if !IsTicker(t) then (Err(InvalidTicker(t)), prices, clients)
      else
        var (session, recorded) := Run(t, draws, sendOk);
        (Ok(session),
         AddedAll(prices, t, recorded),
         if session.disconnected then Unregistered(clients, req.remoteAddr.value) else clients)
  }

  /** The tracker's history of the symbol after a successful stream request:
      the earlier history, then the prices of the ticks that ran. */
  lemma StreamHistory(prices: PriceMap, clients: Registry, req: Request<PriceRequest>,
                      draws: seq<Draw>, sendOk: seq<bool>)
    requires |draws| == |sendOk|
    requires req.remoteAddr.Some? && IsTicker(ToUpper(req.message.ticker))
    ensures var out := StreamSpec(prices, clients, req, draws, sendOk); var t := ToUpper(req.message.ticker);
      && out.0 == Ok(Session(Items(t, draws[..Delivered(sendOk)]), FirstFailure(sendOk).Some?))
      && History(out.1, t) == History(prices, t) + PricesOf(draws[..Ticks(sendOk)])
  {
  }

  /** The prices of a run of items, in order. */
  function ItemPrices(items: seq<PriceResponse>): (ps: seq<real>)
    ensures |ps| == |items| && forall k :: 0 <= k < |items| ==> ps[k] == items[k].price
  {
    seq(|items|, k requires 0 <= k < |items| => items[k].price)
  }

  /** Each tick records its price before sending it: the history grows by the
      prices the channel accepted, in the order sent, followed by the price
      whose send failed when the session ended that way. Every item carries the
      upper-cased symbol. */
  lemma StreamRecordsThenSends(prices: PriceMap, clients: Registry, req: Request<PriceRequest>,
                               draws: seq<Draw>, sendOk: seq<bool>)
    requires |draws| == |sendOk|
    requires req.remoteAddr.Some? && IsTicker(ToUpper(req.message.ticker))
    ensures var out := StreamSpec(prices, clients, req, draws, sendOk);
      var t := ToUpper(req.message.ticker); var s := out.0.value;
      && out.0.Ok?
      && (forall k :: 0 <= k < |s.delivered| ==> s.delivered[k].ticker == t)
      && (!s.disconnected ==> History(out.1, t) == History(prices, t) + ItemPrices(s.delivered))
      && (s.disconnected ==>
            |s.delivered| < |draws|
            && History(out.1, t) == History(prices, t) + ItemPrices(s.delivered) + [draws[|s.delivered|].price])
  {
    StreamHistory(prices, clients, req, draws, sendOk);
    var t := ToUpper(req.message.ticker);
    var d := Delivered(sendOk);
    var items := Items(t, draws[..d]);
    if FirstFailure(sendOk).Some? {
      assert PricesOf(draws[..d + 1]) == ItemPrices(items) + [draws[d].price];
    } else {
      assert PricesOf(draws[..d]) == ItemPrices(items);
    }
  }

  /** The session ends on the first failed send, with the client unregistered;
      a session that did not end delivered every tick and left the registry alone. */
  lemma StreamDisconnects(prices: PriceMap, clients: Registry, req: Request<PriceRequest>,
                          draws: seq<Draw>, sendOk: seq<bool>)
    requires |draws| == |sendOk|
    requires req.remoteAddr.Some? && IsTicker(ToUpper(req.message.ticker))
    ensures var out := StreamSpec(prices, clients, req, draws, sendOk); var s := out.0.value;
      && out.0.Ok?
      && (forall k :: 0 <= k < |s.delivered| ==> sendOk[k])
      && (s.disconnected ==> |s.delivered| < |sendOk| && !sendOk[|s.delivered|]
                             && out.2 == Unregistered(clients, req.remoteAddr.value)
                             && req.remoteAddr.value !in out.2)
      && (!s.disconnected ==> |s.delivered| == |sendOk| && out.2 == clients)
  {
    StreamHistory(prices, clients, req, draws, sendOk);
  }

  /** After the first failed send the producer has stopped: whatever later
      ticks would have drawn or sent changes nothing. */
  lemma StreamStopsAtFirstFailure(prices: PriceMap, clients: Registry, req: Request<PriceRequest>,
                                  draws: seq<Draw>, sendOk: seq<bool>, moreDraws: seq<Draw>, moreOk: seq<bool>)
    requires |draws| == |sendOk| && |moreDraws| == |moreOk|
    requires FirstFailure(sendOk).Some?
    ensures StreamSpec(prices, clients, req, draws + moreDraws, sendOk + moreOk)
         == StreamSpec(prices, clients, req, draws, sendOk)
  {
    if req.remoteAddr.Some? {
      RunStopsAtFirstFailure(ToUpper(req.message.ticker), draws, sendOk, moreDraws, moreOk);
    }
  }

  lemma RunStopsAtFirstFailure(t: string, draws: seq<Draw>, sendOk: seq<bool>, moreDraws: seq<Draw>, moreOk: seq<bool>)
    requires |draws| == |sendOk| && |moreDraws| == |moreOk|
    requires FirstFailure(sendOk).Some?
    ensures Run(t, draws + moreDraws, sendOk + moreOk) == Run(t, draws, sendOk)
  {
    var k := FirstFailure(sendOk).value;
    FirstFailureExtends(sendOk, moreOk);
    assert (draws + moreDraws)[..k + 1] == draws[..k + 1];
    assert (draws + moreDraws)[..k] == draws[..k];
  }

  lemma FirstFailureExtends(sendOk: seq<bool>, moreOk: seq<bool>)
    requires FirstFailure(sendOk).Some?
    ensures FirstFailure(sendOk + moreOk) == FirstFailure(sendOk)
  {
    var k := FirstFailure(sendOk).value;
    assert (sendOk + moreOk)[k] == sendOk[k];
    assert forall i :: 0 <= i < k ==> (sendOk + moreOk)[i] == sendOk[i];
    FirstFailureAt(sendOk + moreOk, k);
  }

  /** The producer loop runs inside the call, over the supplied ticks. */
  method HandleStreamPrices(svc: StockService, req: Request<PriceRequest>, draws: seq<Draw>, sendOk: seq<bool>)
    returns (r: Reply<Session>)
    requires svc.Valid()
    requires |draws| == |sendOk|
    modifies svc, svc.tracker
    ensures svc.Valid()
    ensures (r, svc.tracker.prices, svc.activeClients)
         == StreamSpec(old(svc.tracker.prices), old(svc.activeClients), req, draws, sendOk)
  {
    if req.remoteAddr.None? {
      return Panic(UnknownAddressPanic);
    }
    var ticker := ToUpper(req.message.ticker);
    if !IsTicker(ticker) {
      return Err(InvalidTicker(ticker));
    }
    var session := Produce(svc, req.remoteAddr.value, ticker, draws, sendOk);
    AddedAllKeepsOraclePrices(old(svc.tracker.prices), ticker, draws[..Ticks(sendOk)]);
    r := Ok(session);
  }

  /** The spawned producer: per tick, record the drawn price, then send it; on a
      failed send unregister the client and stop. */
  method Produce(svc: StockService, remoteAddr: Addr, ticker: string, draws: seq<Draw>, sendOk: seq<bool>)
    returns (session: Session)
    requires svc.Valid() && IsTicker(ticker)
    requires |draws| == |sendOk|
    modifies svc, svc.tracker
    ensures svc.tracker.Valid()
    ensures session.disconnected == FirstFailure(sendOk).Some?
    ensures session.delivered == Items(ticker, draws[..Delivered(sendOk)])
    ensures svc.tracker.prices == AddedAll(old(svc.tracker.prices), ticker, PricesOf(draws[..Ticks(sendOk)]))
    ensures svc.activeClients
         == if session.disconnected then Unregistered(old(svc.activeClients), remoteAddr) else old(svc.activeClients)
  {
    var delivered: seq<PriceResponse> := [];
    var recorded: seq<real> := [];
    var i := 0;
    while i < |draws|
      invariant 0 <= i <= |draws|
      invariant forall k :: 0 <= k < i ==> sendOk[k]
      invariant delivered == Items(ticker, draws[..i])
      invariant recorded == PricesOf(draws[..i])
      invariant svc.tracker.prices == AddedAll(old(svc.tracker.prices), ticker, recorded)
      invariant svc.tracker.Valid()
      invariant svc.activeClients == old(svc.activeClients)
    {
      var price := draws[i].price;
      var formattedMessage := FormatPrice(ticker, price);
      assert draws[..i + 1] == draws[..i] + [draws[i]];
      PricesOfSnoc(draws[..i], draws[i]);
      ItemsSnoc(ticker, draws[..i], draws[i]);
      RecordTick(svc.tracker, ticker, price, old(svc.tracker.prices), recorded);
      recorded := recorded + [price];
      if !sendOk[i] {
        AddedAllKeepsOraclePrices(old(svc.tracker.prices), ticker, draws[..i + 1]);
        svc.UnregisterClient(remoteAddr);
        FirstFailureAt(sendOk, i);
        return Session(delivered, true);
      }
      delivered := delivered + [PriceResponse(ticker, price, formattedMessage)];
      i := i + 1;
    }
    assert draws[..i] == draws;
    session := Session(delivered, false);
  }

  /** One tick's add_price, seen as extending the batch recorded so far. */
  method RecordTick(tracker: PriceTracker, ticker: string, price: real, ghost base: PriceMap, ghost recorded: seq<real>)
    requires tracker.Valid()
    requires tracker.prices == AddedAll(base, ticker, recorded)
    modifies tracker
    ensures tracker.Valid()
    ensures tracker.prices == AddedAll(base, ticker, recorded + [price])
  {
    AddedAllSnoc(base, ticker, recorded, price);
    tracker.AddPrice(ticker, price);
  }
}

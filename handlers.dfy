/** The unary request handlers of StockServiceImpl: ticker list, one price,
    several prices (the version without a count check) and statistics. Every
    handler upper-cases the requested symbol and rejects an unsupported one
    before touching the tracker. */
module Handlers {
  import opened Common
  import opened Text
  import opened Utils
  import opened Finance
  import opened Service

  /** Status::invalid_argument("Invalid ticker: T"). */
  function InvalidTicker(t: string): Status
  {
    Status(InvalidArgument, "Invalid ticker: " + t)
  }

  /** The validation every handler performs: the request's symbol is
      upper-cased, and rejected with the upper-cased symbol in the message
      unless it is one of the ten supported ones. */
  function CheckTicker(raw: string): (r: Option<Status>)
    ensures r.None? <==> IsTicker(ToUpper(raw))
    ensures r.Some? ==> r.value.code == InvalidArgument && r.value.message == "Invalid ticker: " + ToUpper(raw)
  {
    var t := ToUpper(raw);
    if IsTicker(t) then None else Some(InvalidTicker(t))
  }

  /** Validation sees only the upper case of a symbol: a symbol and its upper
      case are accepted or rejected alike, with the same message, and every
      supported symbol is accepted in lower case too. */
  lemma CheckTickerIgnoresCase(raw: string)
    ensures CheckTicker(ToUpper(raw)) == CheckTicker(raw)
    ensures IsTicker(raw) ==> CheckTicker(AsciiLower(raw)).None?
  {
    ToUpperIdempotent(raw);
    if IsTicker(raw) {
      KnownTickerUpperOrLower(raw);
    }
  }

  /** The panic of `"unknown".parse::<SocketAddr>().unwrap()`: the fallback every
      handler evaluates, to log it, when the transport gives no remote address. */
  const UnknownAddressPanic: string := "called `Result::unwrap()` on an `Err` value: AddrParseError(Socket)"

  /** handle_get_ticker_list: with a remote address it never fails and lists the
      ten supported symbols in declaration order. */
  function HandleGetTickerList(req: Request<TickerListRequest>): (r: Reply<TickerListResponse>)
    ensures req.remoteAddr.None? ==> r == Panic(UnknownAddressPanic)
    ensures req.remoteAddr.Some? ==> r.Ok? && |r.value.tickers| == 10
    ensures req.remoteAddr.Some? ==>
      forall i :: 0 <= i < |r.value.tickers| ==> r.value.tickers[i] == Tickers[i] && IsTicker(r.value.tickers[i])
  {
    if req.remoteAddr.None? then Panic(UnknownAddressPanic) else Ok(TickerListResponse(Tickers))
  }

  /** handle_get_price, as a reply and the tracker's history afterwards. */
  function GetPriceSpec(prices: PriceMap, req: Request<PriceRequest>, draw: Draw)
    : (out: (Reply<PriceResponse>, PriceMap))
    ensures req.remoteAddr.None? ==> out == (Panic(UnknownAddressPanic), prices)
    ensures req.remoteAddr.Some? ==> var t := ToUpper(req.message.ticker);
      && (out.0.Ok? || out.0.Err?)
      && (out.0.Ok? <==> IsTicker(t))
      && (out.0.Err? ==> Some(out.0.status) == CheckTicker(req.message.ticker) && out.1 == prices)
      && (out.0.Ok? ==>
            && out.0.value.ticker == t
            && out.0.value.price == draw.price
            && IsPriceInRange(out.0.value.price)
            && out.0.value.formattedMessage == FormatPrice(t, out.0.value.price)
            && out.1.Keys == prices.Keys + {t}
            && out.1[t] == History(prices, t) + [out.0.value.price]
            && forall u :: u in prices && u != t ==> out.1[u] == prices[u])
  {
    if req.remoteAddr.None? then (Panic(UnknownAddressPanic), prices)
    else
      var t := ToUpper(req.message.ticker);
      if !IsTicker(t) then (Err(InvalidTicker(t)), prices)
      else (Ok(PriceResponse(t, draw.price, FormatPrice(t, draw.price))), Added(prices, t, draw.price))
  }

  /** A supported symbol asked for in lower case is served under its upper-case
      name, and the price is recorded under that name. */
  lemma LowerCaseSymbolServed(prices: PriceMap, a: Addr, t: string, draw: Draw)
    requires IsTicker(t)
    ensures var out := GetPriceSpec(prices, Request(Some(a), PriceRequest(AsciiLower(t))), draw);
      && out.0 == Ok(PriceResponse(t, draw.price, FormatPrice(t, draw.price)))
      && History(out.1, t) == History(prices, t) + [draw.price]
  {
    KnownTickerUpperOrLower(t);
  }

  method HandleGetPrice(svc: StockService, req: Request<PriceRequest>, draw: Draw) returns (r: Reply<PriceResponse>)
    requires svc.Valid()
    modifies svc.tracker
    ensures svc.Valid()
    ensures (r, svc.tracker.prices) == GetPriceSpec(old(svc.tracker.prices), req, draw)
  {
    if req.remoteAddr.None? {
      return Panic(UnknownAddressPanic);
    }
    var ticker := ToUpper(req.message.ticker);
    if !IsTicker(ticker) {
      return Err(InvalidTicker(ticker));
    }
    var price := draw.price;
    var formattedMessage := FormatPrice(ticker, price);
    RecordPrice(svc, ticker, draw);
    r := Ok(PriceResponse(ticker, price, formattedMessage));
  }

  /** tracker.add_price(ticker, price) for a supported symbol and an oracle price. */
  method RecordPrice(svc: StockService, ticker: string, draw: Draw)
    requires svc.Valid() && IsTicker(ticker)
    modifies svc.tracker
    ensures svc.Valid()
    ensures svc.tracker.prices == Added(old(svc.tracker.prices), ticker, draw.price)
  {
    AddedAllKeepsOraclePrices(svc.tracker.prices, ticker, [draw]);
    svc.tracker.AddPrice(ticker, draw.price);
  }

  /** The reason Vec::with_capacity panics with when the negative count, cast
      to usize, asks for more than the address space. */
  const CapacityOverflow: string := "capacity overflow"

  /** handle_get_multiple_prices, as a reply and the tracker's history
      afterwards. There is no count check: zero gives an empty list and records
      nothing, a negative count panics before anything is recorded. */
  function GetMultiplePricesSpec(prices: PriceMap, req: Request<MultiplePricesRequest>, draws: seq<Draw>)
    : (out: (Reply<MultiplePricesResponse>, PriceMap))
    requires |draws| >= req.message.count as int
    ensures req.remoteAddr.None? ==> out == (Panic(UnknownAddressPanic), prices)
    ensures req.remoteAddr.Some? ==> var t := ToUpper(req.message.ticker); var n := req.message.count as int;
      && (out.0.Err? <==> !IsTicker(t))
      && (out.0.Err? ==> Some(out.0.status) == CheckTicker(req.message.ticker))
      && (out.0.Panic? <==> IsTicker(t) && n < 0)
      && (out.0.Panic? ==> out.0.reason == CapacityOverflow)
      && (!out.0.Ok? ==> out.1 == prices)
      && (out.0.Ok? ==>
            && out.0.value.ticker == t
            && |out.0.value.prices| == n
            && (forall k :: 0 <= k < n ==> out.0.value.prices[k] == draws[k].price)
            && out.1 == AddedAll(prices, t, out.0.value.prices)
            && out.0.value.formattedMessage == "Generated " + IntToString(n) + " prices for " + t)
  {
    if req.remoteAddr.None? then (Panic(UnknownAddressPanic), prices)
    else
      var t := ToUpper(req.message.ticker);
      if !IsTicker(t) then (Err(InvalidTicker(t)), prices)
      else if req.message.count < 0 then (Panic(CapacityOverflow), prices)
      else
        var ps := PricesOf(draws[..req.message.count]);
        var message := "Generated " + IntToString(req.message.count as int) + " prices for " + t;
        (Ok(MultiplePricesResponse(t, ps, message)), AddedAll(prices, t, ps))
  }

  /** The loop records each draw in turn and collects it into the reply. */
  method HandleGetMultiplePrices(svc: StockService, req: Request<MultiplePricesRequest>, draws: seq<Draw>)
    returns (r: Reply<MultiplePricesResponse>)
    requires svc.Valid()
    requires |draws| >= req.message.count as int
    modifies svc.tracker
    ensures svc.Valid()
    ensures (r, svc.tracker.prices) == GetMultiplePricesSpec(old(svc.tracker.prices), req, draws)
  {
    if req.remoteAddr.None? {
      return Panic(UnknownAddressPanic);
    }
    var ticker := ToUpper(req.message.ticker);
    var count := req.message.count as int;
    if !IsTicker(ticker) {
      return Err(InvalidTicker(ticker));
    }
    if count < 0 {
      return Panic(CapacityOverflow);
    }
    var prices: seq<real> := [];
    for i := 0 to count
      invariant prices == PricesOf(draws[..i])
      invariant svc.tracker.prices == AddedAll(old(svc.tracker.prices), ticker, prices)
      invariant svc.tracker.Valid()
    {
      assert draws[..i + 1] == draws[..i] + [draws[i]];
      PricesOfSnoc(draws[..i], draws[i]);
      AddedAllSnoc(old(svc.tracker.prices), ticker, prices, draws[i].price);
      svc.tracker.AddPrice(ticker, draws[i].price);
      prices := prices + [draws[i].price];
    }
    AddedAllKeepsOraclePrices(old(svc.tracker.prices), ticker, draws[..count]);
    var formattedMessage := "Generated " + IntToString(count) + " prices for " + ticker;
    r := Ok(MultiplePricesResponse(ticker, prices, formattedMessage));
  }

  /** handle_get_stats: validation, then the tracker's history of the symbol with
      its average and variance; the tracker is only read. */
  function GetStatsSpec(prices: PriceMap, req: Request<StatsRequest>): (r: Reply<StatsResponse>)
    ensures req.remoteAddr.None? ==> r == Panic(UnknownAddressPanic)
    ensures req.remoteAddr.Some? ==> var t := ToUpper(req.message.ticker);
      && (r.Ok? || r.Err?)
      && (r.Ok? <==> IsTicker(t))
      && (r.Err? ==> Some(r.status) == CheckTicker(req.message.ticker))
      && (r.Ok? ==>
            && r.value.ticker == t
            && r.value.prices == History(prices, t)
            && r.value.average == Mean(History(prices, t))
            && r.value.variance == PopulationVariance(History(prices, t))
            && r.value.variance >= 0.0)
  {
    if req.remoteAddr.None? then Panic(UnknownAddressPanic)
    else
      var t := ToUpper(req.message.ticker);
      if !IsTicker(t) then Err(InvalidTicker(t))
      else
        VarianceNonNegative(History(prices, t));
        Ok(StatsResponse(t, History(prices, t), Mean(History(prices, t)), PopulationVariance(History(prices, t))))
  }

  method HandleGetStats(svc: StockService, req: Request<StatsRequest>) returns (r: Reply<StatsResponse>)
    ensures r == GetStatsSpec(svc.tracker.prices, req)
  {
    if req.remoteAddr.None? {
      return Panic(UnknownAddressPanic);
    }
    var ticker := ToUpper(req.message.ticker);
    if !IsTicker(ticker) {
      return Err(InvalidTicker(ticker));
    }
    var (prices, average, variance) := svc.tracker.GetStats(ticker);
    r := Ok(StatsResponse(ticker, prices, average, variance));
  }
}

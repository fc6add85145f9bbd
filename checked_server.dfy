/** The second get_multiple_prices of the service, the one with a count check:
    the symbol is validated before the count, the prices are drawn into a list
    together with one "$"-line each, and only then recorded in one batch. */
module CheckedServer {
  import opened Common
  import opened Text
  import opened Utils
  import opened Finance
  import opened Service
  import opened Handlers

  const CountMustBePositive: string := "Count must be positive"

  /** One line per price, "$" and the price with two decimals, in order. */
  function PriceLines(ps: seq<real>): (lines: seq<string>)
    ensures |lines| == |ps|
    ensures forall i :: 0 <= i < |ps| ==> lines[i] == "$" + Fixed2(ps[i])
  {
    seq(|ps|, i requires 0 <= i < |ps| => "$" + Fixed2(ps[i]))
  }

  /** The reply text: a header naming the symbol, then the price lines joined by newlines. */
  function PricesMessage(t: string, ps: seq<real>): (message: string)
    ensures StartsWith(message, "Prices for " + t + ":\n")
    ensures ps == [] ==> message == "Prices for " + t + ":\n"
    ensures |ps| == 1 ==> message == "Prices for " + t + ":\n$" + Fixed2(ps[0])
  {
    "Prices for " + t + ":\n" + Join(PriceLines(ps), "\n")
  }

  lemma {:induction false} JoinSnoc(ws: seq<string>, w: string, sep: string)
    requires ws != []
    ensures Join(ws + [w], sep) == Join(ws, sep) + sep + w
  {
    if |ws| == 1 {
      assert ws + [w] == [ws[0], w];
      assert [ws[0], w][1..] == [w];
    } else {
      assert (ws + [w])[1..] == ws[1..] + [w];
      JoinSnoc(ws[1..], w, sep);
    }
  }

  lemma PriceLinesSnoc(ps: seq<real>, p: real)
    ensures PriceLines(ps + [p]) == PriceLines(ps) + ["$" + Fixed2(p)]
  {
    var l := PriceLines(ps + [p]);
    var r := PriceLines(ps) + ["$" + Fixed2(p)];
    assert |l| == |r|;
    forall i | 0 <= i < |l|
      ensures l[i] == r[i]
    {
      if i < |ps| {
        assert (ps + [p])[i] == ps[i];
      }
    }
  }

  /** The message gets one more line per price, each price on its own line after
      the earlier ones: the first price follows the header, every later one a newline. */
  lemma PricesMessageSnoc(t: string, ps: seq<real>, p: real)
    ensures PricesMessage(t, [p]) == "Prices for " + t + ":\n$" + Fixed2(p)
    ensures ps != [] ==> PricesMessage(t, ps + [p]) == PricesMessage(t, ps) + "\n$" + Fixed2(p)
  {
    assert PriceLines([p]) == ["$" + Fixed2(p)];
    if ps != [] {
      PriceLinesSnoc(ps, p);
      JoinSnoc(PriceLines(ps), "$" + Fixed2(p), "\n");
      var header := "Prices for " + t + ":\n";
      var joined := Join(PriceLines(ps), "\n");
      assert header + (joined + "\n" + ("$" + Fixed2(p))) == header + joined + "\n$" + Fixed2(p);
    }
  }

  /** The checked get_multiple_prices, as a reply and the tracker's history afterwards. */
  function CheckedMultiplePricesSpec(prices: PriceMap, req: Request<MultiplePricesRequest>, draws: seq<Draw>)
    : (out: (Reply<MultiplePricesResponse>, PriceMap))
    requires |draws| >= req.message.count as int
    ensures var t := ToUpper(req.message.ticker); var n := req.message.count as int;
      && (out.0.Ok? || out.0.Err?)
      && (!IsTicker(t) ==> out.0 == Err(InvalidTicker(t)))
      && (IsTicker(t) && n <= 0 ==> out.0 == Err(Status(InvalidArgument, CountMustBePositive)))
      && (out.0.Err? ==> out.1 == prices)
      && (out.0.Ok? <==> IsTicker(t) && n > 0)
      && (out.0.Ok? ==>
            && out.0.value.ticker == t
            && |out.0.value.prices| == n
            && (forall k :: 0 <= k < n ==> out.0.value.prices[k] == draws[k].price)
            && out.1.Keys == prices.Keys + {t}
            && out.1[t] == History(prices, t) + out.0.value.prices
            && (forall u :: u in prices && u != t ==> out.1[u] == prices[u])
            && out.0.value.formattedMessage == PricesMessage(t, out.0.value.prices))
  {
    var t := ToUpper(req.message.ticker);
    if !IsTicker(t) then (Err(InvalidTicker(t)), prices)
    else if req.message.count <= 0 then (Err(Status(InvalidArgument, CountMustBePositive)), prices)
    else
      var ps := PricesOf(draws[..req.message.count]);
      (Ok(MultiplePricesResponse(t, ps, PricesMessage(t, ps))), AddedAll(prices, t, ps))
  }

  /** The first loop collects the prices and their lines; the second records them. */
  method CheckedGetMultiplePrices(svc: StockService, req: Request<MultiplePricesRequest>, draws: seq<Draw>)
    returns (r: Reply<MultiplePricesResponse>)
    requires svc.Valid()
    requires |draws| >= req.message.count as int
    modifies svc.tracker
    ensures svc.Valid()
    ensures (r, svc.tracker.prices) == CheckedMultiplePricesSpec(old(svc.tracker.prices), req, draws)
  {
    var ticker := ToUpper(req.message.ticker);
    var count := req.message.count as int;
    if !IsTicker(ticker) {
      return Err(InvalidTicker(ticker));
    }
    if count <= 0 {
      return Err(Status(InvalidArgument, CountMustBePositive));
    }
    var prices: seq<real> := [];
    var formattedMessages: seq<string> := [];
    for i := 0 to count
      invariant prices == PricesOf(draws[..i])
      invariant formattedMessages == PriceLines(prices)
      invariant unchanged(svc.tracker)
    {
      assert draws[..i + 1] == draws[..i] + [draws[i]];
      PricesOfSnoc(draws[..i], draws[i]);
      var price := draws[i].price;
      prices := prices + [price];
      formattedMessages := formattedMessages + ["$" + Fixed2(price)];
    }
    var formattedMessage := "Prices for " + ticker + ":\n" + Join(formattedMessages, "\n");
    RecordBatch(svc.tracker, ticker, prices);
    AddedAllKeepsOraclePrices(old(svc.tracker.prices), ticker, draws[..count]);
    r := Ok(MultiplePricesResponse(ticker, prices, formattedMessage));
  }

  /** The locked block that adds each collected price to the tracker, in order. */
  method RecordBatch(tracker: PriceTracker, ticker: string, ps: seq<real>)
    requires tracker.Valid()
    modifies tracker
    ensures tracker.Valid()
    ensures tracker.prices == AddedAll(old(tracker.prices), ticker, ps)
  {
    for j := 0 to |ps|
      invariant tracker.prices == AddedAll(old(tracker.prices), ticker, ps[..j])
      invariant tracker.Valid()
    {
      assert ps[..j + 1] == ps[..j] + [ps[j]];
      AddedAllSnoc(old(tracker.prices), ticker, ps[..j], ps[j]);
      tracker.AddPrice(ticker, ps[j]);
    }
    assert ps[..|ps|] == ps;
  }

  /** The two versions agree wherever both succeed: the same prices, recorded in
      the same way. They differ on a count of zero (an empty success against an
      error) and on a negative count (a panic against an error), and neither
      records anything then. */
  lemma CheckedAgreesWithUnchecked(prices: PriceMap, req: Request<MultiplePricesRequest>, draws: seq<Draw>)
    requires req.remoteAddr.Some?
    requires |draws| >= req.message.count as int
    ensures var checked := CheckedMultiplePricesSpec(prices, req, draws);
      var unchecked := GetMultiplePricesSpec(prices, req, draws);
      && (checked.0.Ok? ==> unchecked.0.Ok? && unchecked.0.value.prices == checked.0.value.prices
                            && unchecked.1 == checked.1)
      && (unchecked.0.Err? <==> checked.0 == Err(InvalidTicker(ToUpper(req.message.ticker))))
      && (req.message.count == 0 && IsTicker(ToUpper(req.message.ticker)) ==>
            checked.0.Err? && unchecked.0.Ok? && unchecked.0.value.prices == [] && unchecked.1 == prices)
      && (req.message.count < 0 && IsTicker(ToUpper(req.message.ticker)) ==>
            checked.0.Err? && unchecked.0.Panic? && checked.1 == unchecked.1 == prices)
  {
    var t := ToUpper(req.message.ticker);
    var checked := CheckedMultiplePricesSpec(prices, req, draws);
    if checked.0.Ok? {
      var n := req.message.count as int;
      assert checked.0.value.prices == PricesOf(draws[..n]);
    }
  }
}

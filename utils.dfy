/** The ticker universe, the random-price oracle, price formatting and the
    per-ticker price history (`PriceTracker`). */
module Utils {
  import opened Common
  import opened Text

  /** The ten supported symbols, in declaration order. */
  const Tickers: seq<string> := ["AAPL", "MSFT", "GOOG", "AMZN", "META", "NFLX", "TSLA", "NVDA", "AMD", "INTC"]

  predicate IsTicker(t: string) { t in Tickers }

  lemma TickersAreTenDistinctUpperWords()
    ensures |Tickers| == 10
    ensures forall i, j :: 0 <= i < j < |Tickers| ==> Tickers[i] != Tickers[j]
    ensures forall i :: 0 <= i < |Tickers| ==> IsUpperWord(Tickers[i])
  {
  }

  /** A known symbol is accepted in upper and in lower case: upper-casing gives
      the symbol back, from itself and from its lower-case spelling. */
  lemma KnownTickerUpperOrLower(t: string)
    requires IsTicker(t)
    ensures ToUpper(t) == t && ToUpper(AsciiLower(t)) == t
  {
    TickersAreTenDistinctUpperWords();
    UpperWordCaseInsensitive(t);
  }

  // ---------------------------------------------------------------------------
  // The random oracle

  predicate IsPriceInRange(p: real) { 10.0 <= p < 1000.0 }

  /** The two random choices of generate_random_ticker_and_price: an index into
      the ticker list and a price. */
  datatype RawDraw = RawDraw(tickerIndex: nat, price: real)
  {
    /** The symbol the draw names. */
    function Ticker(): string
      requires tickerIndex < |Tickers|
    {
      Tickers[tickerIndex]
    }
  }

  /** One answer of generate_random_ticker_and_price: an index in
      0..TICKERS.len() and a price in [10, 1000). The oracle's contract is this type. */
  type Draw = d: RawDraw | d.tickerIndex < 10 && IsPriceInRange(d.price)
    witness RawDraw(0, 10.0)

  /** Every draw names a supported symbol. */
  lemma DrawNamesTicker(d: Draw)
    ensures IsTicker(d.Ticker())
  {
  }

  /** The prices of a run of draws, in order. */
  function PricesOf(ds: seq<Draw>): (ps: seq<real>)
    ensures |ps| == |ds|
    ensures forall i :: 0 <= i < |ds| ==> ps[i] == ds[i].price && IsPriceInRange(ps[i])
  {
    seq(|ds|, i requires 0 <= i < |ds| => ds[i].price)
  }

  lemma PricesOfSnoc(ds: seq<Draw>, d: Draw)
    ensures PricesOf(ds + [d]) == PricesOf(ds) + [d.price]
  {
    assert forall i :: 0 <= i < |ds| ==> (ds + [d])[i] == ds[i];
  }

  /** format_price: the one-line quote sent with every single price. */
  function FormatPrice(ticker: string, price: real): (line: string)
    ensures StartsWith(line, "Current price for " + ticker + ": $")
    ensures line[|line| - 1] == '\n'
    ensures IsTicker(ticker) ==> forall i :: 0 <= i < |line| - 1 ==> line[i] != '\n'
  {
    TickersAreTenDistinctUpperWords();
    var prefix := "Current price for " + ticker + ": $";
    var line := prefix + Fixed2(price) + "\n";
    assert line[..|prefix|] == prefix;
    line
  }

  lemma FormatPriceExample()
    ensures FormatPrice("AAPL", 150.5) == "Current price for AAPL: $150.50\n"
  {
    assert (150.5 * 100.0 + 0.5).Floor == 15050;
    assert NatToString(150) == "150";
  }

  // ---------------------------------------------------------------------------
  // Price history

  type PriceMap = map<string, seq<real>>

  /** The recorded prices of `t`, empty for a symbol never recorded. */
  function History(m: PriceMap, t: string): seq<real>
  {
    if t in m then m[t] else []
  }

  /** The history after add_price(t, p): `p` appended to `t`'s prices, a new
      one-element history when `t` had none, every other symbol untouched. */
  function Added(m: PriceMap, t: string, p: real): (r: PriceMap)
    ensures r.Keys == m.Keys + {t}
    ensures r[t] == History(m, t) + [p]
    ensures forall u :: u in m && u != t ==> r[u] == m[u]
  {
    m[t := History(m, t) + [p]]
  }

  /** The history after add_price(t, p) for each `p` of `ps` in turn; no call
      leaves the history as it was (no empty entry is created). */
  function AddedAll(m: PriceMap, t: string, ps: seq<real>): (r: PriceMap)
    ensures ps == [] ==> r == m
    ensures ps != [] ==> r.Keys == m.Keys + {t} && r[t] == History(m, t) + ps
    ensures forall u :: u in m && u != t ==> r[u] == m[u]
  {
    if ps == [] then m else m[t := History(m, t) + ps]
  }

  /** Appending a batch one price at a time is appending the batch. */
  lemma AddedAllSnoc(m: PriceMap, t: string, ps: seq<real>, p: real)
    ensures AddedAll(m, t, ps + [p]) == Added(AddedAll(m, t, ps), t, p)
  {
    assert History(AddedAll(m, t, ps), t) == History(m, t) + ps;
    assert History(m, t) + (ps + [p]) == History(m, t) + ps + [p];
  }

  /** add_price never shrinks or rewrites a history: each is a prefix of the new one. */
  lemma AddedAllOnlyGrows(m: PriceMap, t: string, ps: seq<real>)
    ensures forall u :: u in m ==> u in AddedAll(m, t, ps) && m[u] <= AddedAll(m, t, ps)[u]
  {
  }

  /** The only mutator keeps every recorded history non-empty. */
  predicate NonEmptyHistories(m: PriceMap)
  {
    forall t :: t in m ==> m[t] != []
  }

  /** One add_price call, as a log entry. */
  datatype Addition = Addition(ticker: string, price: real)

  /** A tracker built by `new` and then the additions `log` in order. */
  function Replay(log: seq<Addition>): (m: PriceMap)
    ensures NonEmptyHistories(m)
  {
    if log == [] then map[]
    else
      var last := log[|log| - 1];
      Added(Replay(log[..|log| - 1]), last.ticker, last.price)
  }

  /** The prices the log adds for `t`, in the order they were added. */
  function PricesFor(log: seq<Addition>, t: string): seq<real>
  {
    if log == [] then []
    else
      var last := log[|log| - 1];
      PricesFor(log[..|log| - 1], t) + (if last.ticker == t then [last.price] else [])
  }

  /** get_prices after any sequence of add_price calls: nothing for a symbol
      never added, otherwise exactly the prices added for it, in insertion order. */
  lemma {:induction false} ReplayHistory(log: seq<Addition>, t: string)
    ensures t in Replay(log) <==> PricesFor(log, t) != []
    ensures History(Replay(log), t) == PricesFor(log, t)
  {
    if log != [] {
      ReplayHistory(log[..|log| - 1], t);
    }
  }

  // ---------------------------------------------------------------------------
  // Statistics over a history (real arithmetic; the square root is not modelled)

  function Sum(ps: seq<real>): real
  {
    if ps == [] then 0.0 else ps[0] + Sum(ps[1..])
  }

  /** The arithmetic mean, 0 for an empty history as `average` writes it. */
  function Mean(ps: seq<real>): real
  {
    if |ps| == 0 then 0.0 else Sum(ps) / |ps| as real
  }

  function SquaredDeviations(ps: seq<real>, avg: real): real
  {
    if ps == [] then 0.0 else (ps[0] - avg) * (ps[0] - avg) + SquaredDeviations(ps[1..], avg)
  }

  /** The population variance (divisor N) whose square root std_deviation returns. */
  function PopulationVariance(ps: seq<real>): real
  {
    if |ps| == 0 then 0.0 else SquaredDeviations(ps, Mean(ps)) / |ps| as real
  }

  lemma {:induction false} SumBounds(ps: seq<real>, lo: real, hi: real)
    requires forall i :: 0 <= i < |ps| ==> lo <= ps[i] < hi
    ensures |ps| as real * lo <= Sum(ps)
    ensures ps != [] ==> Sum(ps) < |ps| as real * hi
  {
    if ps != [] {
      SumBounds(ps[1..], lo, hi);
    }
  }

  /** The mean of prices drawn from [lo, hi) lies in [lo, hi). */
  lemma MeanWithin(ps: seq<real>, lo: real, hi: real)
    requires ps != []
    requires forall i :: 0 <= i < |ps| ==> lo <= ps[i] < hi
    ensures lo <= Mean(ps) < hi
  {
    SumBounds(ps, lo, hi);
    var n := |ps| as real;
    assert Sum(ps) / n >= lo by {
      assert Sum(ps) >= n * lo;
    }
    assert Sum(ps) / n < hi by {
      assert Sum(ps) < n * hi;
    }
  }

  lemma {:induction false} SquaredDeviationsNonNegative(ps: seq<real>, avg: real)
    ensures SquaredDeviations(ps, avg) >= 0.0
  {
    if ps != [] {
      SquaredDeviationsNonNegative(ps[1..], avg);
      var d := ps[0] - avg;
      if d < 0.0 {
        assert d * d == (-d) * (-d);
      }
      assert d * d >= 0.0;
    }
  }

  lemma VarianceNonNegative(ps: seq<real>)
    ensures PopulationVariance(ps) >= 0.0
  {
    if ps != [] {
      SquaredDeviationsNonNegative(ps, Mean(ps));
    }
  }

  /** The history of the unit test: prices 150, 160, 170 have mean 160 and
      population variance 200/3, whose square root is 8.16496580927726. */
  lemma StatsExample()
    ensures Mean([150.0, 160.0, 170.0]) == 160.0
    ensures PopulationVariance([150.0, 160.0, 170.0]) == 200.0 / 3.0
    ensures (8.16496580927726 - 0.000001) * (8.16496580927726 - 0.000001)
          < PopulationVariance([150.0, 160.0, 170.0])
          < (8.16496580927726 + 0.000001) * (8.16496580927726 + 0.000001)
  {
    var ps := [150.0, 160.0, 170.0];
    assert Sum(ps) == 480.0 by {
      assert ps[1..] == [160.0, 170.0];
      assert ps[1..][1..] == [170.0];
    }
    assert SquaredDeviations(ps, 160.0) == 200.0 by {
      assert ps[1..] == [160.0, 170.0];
      assert ps[1..][1..] == [170.0];
    }
  }

  // ---------------------------------------------------------------------------
  // The tracker object

  class PriceTracker {
    var prices: PriceMap

    ghost predicate Valid()
      reads this
    {
      NonEmptyHistories(prices)
    }

    /** PriceTracker::new: no history for any symbol. */
    constructor ()
      ensures Valid() && prices == map[]
    {
      prices := map[];
    }

    /** add_price: appends `price` to `ticker`'s history. */
    method AddPrice(ticker: string, price: real)
      requires Valid()
      modifies this
      ensures Valid()
      ensures prices == Added(old(prices), ticker, price)
    {
      var history := if ticker in prices then prices[ticker] else [];
      prices := prices[ticker := history + [price]];
    }

    /** get_prices: the history of `ticker`, absent when nothing was recorded. */
    function GetPrices(ticker: string): (r: Option<seq<real>>)
      reads this
      ensures r.Some? <==> ticker in prices
      ensures r.Some? ==> r.value == History(prices, ticker)
      ensures Valid() && r.Some? ==> r.value != []
    {
      if ticker in prices then Some(prices[ticker]) else None
    }

    /** average: present exactly when a history is, and then its mean. */
    function Average(ticker: string): (r: Option<real>)
      reads this
      ensures r.Some? <==> GetPrices(ticker).Some?
      ensures r.Some? ==> r.value == Mean(History(prices, ticker))
    {
      match GetPrices(ticker)
      case None => None
      case Some(ps) => Some(Mean(ps))
    }

    /** std_deviation before its square root: present exactly when a history is,
        and then the population variance of it, never negative. */
    function Variance(ticker: string): (r: Option<real>)
      reads this
      ensures r.Some? <==> GetPrices(ticker).Some?
      ensures r.Some? ==> r.value == PopulationVariance(History(prices, ticker)) && r.value >= 0.0
    {
      match GetPrices(ticker)
      case None => None
      case Some(ps) =>
        VarianceNonNegative(ps);
        Some(PopulationVariance(ps))
    }

    /** get_stats, which the stats handler calls but the crate defines nowhere:
        the history, its average and its variance, built from get_prices,
        average and std_deviation, with an empty history and zeros for a symbol
        never recorded. */
    function GetStats(ticker: string): (r: (seq<real>, real, real))
      reads this
      ensures r.0 == History(prices, ticker)
      ensures r.1 == Mean(r.0) && r.2 == PopulationVariance(r.0) && r.2 >= 0.0
    {
      var ps := match GetPrices(ticker) case Some(v) => v case None => [];
      var avg := match Average(ticker) case Some(v) => v case None => 0.0;
      var variance := match Variance(ticker) case Some(v) => v case None => 0.0;
      (ps, avg, variance)
    }
  }
}

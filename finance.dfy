/** The protobuf messages of package `finance` and the request envelope in which
    the transport delivers them. */
module Finance {
  import opened Common

  /** An inbound call: the caller's address when the transport knows it, and the message. */
  datatype Request<T> = Request(remoteAddr: Option<Addr>, message: T)

  datatype TickerListRequest = TickerListRequest
  datatype TickerListResponse = TickerListResponse(tickers: seq<string>)

  datatype PriceRequest = PriceRequest(ticker: string)
  datatype PriceResponse = PriceResponse(ticker: string, price: real, formattedMessage: string)

  datatype MultiplePricesRequest = MultiplePricesRequest(ticker: string, count: i32)
  datatype MultiplePricesResponse =
    MultiplePricesResponse(ticker: string, prices: seq<real>, formattedMessage: string)

  datatype StatsRequest = StatsRequest(ticker: string)

  /** `variance` stands for the response's std_deviation before its square root is taken. */
  datatype StatsResponse = StatsResponse(ticker: string, prices: seq<real>, average: real, variance: real)
}

# A verified model of rust_grpc_finance_server

The system is a small gRPC stock-quote service written in Rust, with an
interactive client. The server knows ten ticker symbols. For a symbol it can
return one random price, several random prices, a stream of one random price
per second, or statistics over every price it has handed out so far. Each
price it hands out is first recorded in a shared `PriceTracker`, which maps a
symbol to its price history. The server also keeps a registry of active
clients, from each client's address to the time it was last seen. An
interceptor registers every caller, and every RPC refreshes the caller's
timestamp. A monitor task samples how many clients are still live (seen in
the last 30 seconds) every five seconds. It shuts the server down after two
samples in a row that count none.

This project models that core in Dafny:

- `Common`: the shared vocabulary. It holds optional values, gRPC statuses,
  the handler reply, Rust's `i32` and `u32`, and opaque socket addresses.
  The handler reply is a response, an error status, or the panic of the task
  that runs the handler.
- `Finance`: the protobuf messages, and the request envelope that carries the
  caller's address.
- `Text`: the Rust string operations the code relies on. These are
  `to_uppercase`, integer `Display`, `parse::<i32>`, the `{:.2}` price format,
  `split_whitespace` and `join`.
- `Utils` (`src/utils.rs`): the ticker list and the random oracle. The oracle
  is the subset type `Draw`, a symbol index below 10 and a price in
  [10, 1000). The module also holds `format_price` and the `PriceTracker`
  class with its history, average and deviation.
- `Service` (`src/server/service.rs`): the client registry as pure map
  functions, and the `StockService` class. The class's methods update its
  `activeClients` field in place.
- `Handlers` (`src/server/handlers.rs`): the four unary handlers. Each one is
  a specification function that gives the reply and the new history, and the
  stateful handlers are also methods proved against it.
- `CheckedServer` (`src/server.rs`): the second `get_multiple_prices`. It
  rejects a count of zero or less, and builds a multi-line message.
- `Stream` (`src/server/stream.rs`): the streaming handler and its producer
  loop. The loop runs over a finite run of ticks, given as the draws and the
  outcome of each send.
- `Server` (`src/server/mod.rs`): the connection interceptor, the inactivity
  monitor (over the sequence of counts it samples), and the `StockService`
  trait methods. Each trait method touches the caller and then delegates to
  its handler.
- `Client` (`src/client.rs`): how the client loop classifies one input line.

Randomness, time and the network are parameters. A handler receives its draws
from the oracle. Time is an integer number of milliseconds. The stream
producer receives the outcome of each send as a sequence of booleans.

Behaviour of the code worth knowing before reading the contracts:

- `handle_get_stats` has no not-found path: it destructures the tuple that
  `get_stats` returns. What that tuple is for a symbol with no history is a
  modelling choice, described under `Utils.PriceTracker.GetStats` below.
- The registry keeps no count of past connections, and the monitor needs no
  minimum number of past clients before it shuts the server down.
- Only `src/server.rs` rejects a count of zero or less. The handler the service
  dispatches to (`src/server/handlers.rs`) returns an empty list for zero and
  panics in `Vec::with_capacity` for a negative count.
- An open price stream never refreshes its caller's timestamp. A client that
  only streams is dropped from the registry 30 seconds after its call, while
  its stream is still open.

## Model

| member | source | states |
|---|---|---|
| `Text.ToUpperIdempotent` | src/server/handlers.rs:38 | Upper-casing twice is upper-casing once, so validation gives the same answer for a symbol and its upper case. |
| `Text.UpperWordCaseInsensitive` | src/server/handlers.rs:38 | A word of upper-case ASCII letters is its own upper case, and the upper case of its lower-case spelling. |
| `Text.NatToStringValue` | src/server/handlers.rs:98 | The decimal digits that `Display` prints for a number read back as that number. |
| `Text.ParseI32RoundTrip` | src/client.rs:33 | `parse::<i32>` of a printed i32 gives back that i32, negative values and both extremes included. |
| `Text.ParseI32RejectsNonNumeral` | src/client.rs:33-45 | A token without a digit does not parse as a count, even one that is just a sign. |
| `Text.SplitJoinRoundTrip` | src/client.rs:29 | `split_whitespace` of words joined by single spaces gives the words back, in order. |
| `Utils.TickersAreTenDistinctUpperWords` | src/utils.rs:4-15 | There are exactly ten symbols. They are pairwise distinct, and each is a non-empty word of upper-case ASCII letters. |
| `Utils.KnownTickerUpperOrLower` | src/server/handlers.rs:38-44 | Every supported symbol passes validation in upper or lower case, and upper-casing yields the symbol itself. |
| `Utils.DrawNamesTicker` | src/utils.rs:113-117 | Every draw of the random oracle names one of the ten symbols. |
| `Utils.PricesOf` | src/utils.rs:17-22 | The prices of a run of draws are the draws' prices in order, and each lies in [10, 1000). |
| `Utils.FormatPrice` | src/utils.rs:24-26 | The quote line starts with "Current price for ", the symbol and ": $", and ends in a newline. For a supported symbol that final newline is its only one (the price is digits, a point and at most a sign), which is why the handlers `trim()` it for logging. |
| `Utils.FormatPriceExample` | src/utils.rs:104-110 | `format_price("AAPL", 150.50)` is "Current price for AAPL: $150.50\n". |
| `Utils.Added` | src/utils.rs:38-43 | After `add_price(t, p)`, `t` is recorded and its history is the old one (or none) followed by `p`. Every other symbol keeps its history. |
| `Utils.AddedAll` | src/utils.rs:38-43 | Adding a batch of prices one at a time appends the batch to the symbol's history. An empty batch changes nothing, and other symbols keep their histories. |
| `Utils.AddedAllOnlyGrows` | src/utils.rs:38-43 | Adding prices never removes a symbol, and never shortens or rewrites a history: each old history is a prefix of the new one. |
| `Utils.Replay` | src/utils.rs:33-43 | A tracker built by `new` followed by any sequence of `add_price` calls has no symbol with an empty history. |
| `Utils.ReplayHistory` | src/utils.rs:83-94 | After any sequence of `add_price` calls, `get_prices(t)` is absent exactly when no price was added for `t`. Otherwise it is the prices added for `t`, in insertion order. |
| `Utils.MeanWithin` | src/utils.rs:49-57 | The average of a non-empty history whose prices lie in [lo, hi) also lies in [lo, hi). |
| `Utils.VarianceNonNegative` | src/utils.rs:59-76 | The population variance that `std_deviation` takes the root of is never negative. |
| `Utils.StatsExample` | src/utils.rs:83-102 | For the history 150, 160, 170 the average is 160 and the population variance is 200/3. That variance lies strictly between the squares of 8.16496580927726 - 0.000001 and 8.16496580927726 + 0.000001, so its root meets the test's expected deviation within the test's tolerance. |
| `Utils.PriceTracker.constructor` | src/utils.rs:34-36 | A new tracker has no history. |
| `Utils.PriceTracker.AddPrice` | src/utils.rs:38-43 | `add_price` changes the history exactly as `Added` describes, and keeps every history non-empty. |
| `Utils.PriceTracker.GetPrices` | src/utils.rs:45-47 | `get_prices` is present exactly for a recorded symbol. It is then that symbol's history, which is never empty. |
| `Utils.PriceTracker.Average` | src/utils.rs:49-57 | `average` is present exactly when `get_prices` is, and is then the mean of the history. |
| `Utils.PriceTracker.Variance` | src/utils.rs:59-76 | `std_deviation` (before its root) is present exactly when `get_prices` is. It is then the population variance of the history, which is never negative. |
| `Utils.PriceTracker.GetStats` | src/server/handlers.rs:128-129 | The stats triple is the history (empty if none), its mean and its non-negative population variance. |
| `Service.Registered` | src/server/service.rs:22-32 | `register_client` adds an absent address with the current time. An address already present keeps its timestamp, and so does every other entry. |
| `Service.Touched` | src/server/service.rs:34-39 | `update_last_activity` sets a known caller's timestamp to now, inserting the caller if absent. Without an address nothing changes. |
| `Service.Unregistered` | src/server/stream.rs:67-69 | Unregistering removes exactly that address and leaves the other entries as they were. |
| `Service.Pruned` | src/server/service.rs:41-51 | Exactly the entries seen less than 30 seconds ago stay, with their timestamps. A timestamp in the future does not count as live. |
| `Service.RegisterIdempotent` | src/server/service.rs:22-32 | Registering an address a second time changes nothing. |
| `Service.PruneIdempotent` | src/server/service.rs:41-51 | Pruning twice at the same instant is pruning once, and pruning never raises the count. |
| `Service.TouchedSurvivesPrune` | src/server/service.rs:34-51 | A caller touched at time t is counted by a prune at time t. |
| `Service.SilentClientIsPruned` | src/server/service.rs:44-49 | A client not seen for 30 seconds or more is dropped. |
| `Service.StockService.constructor` | src/server/service.rs:15-20 | A new service has an empty fresh tracker and no active clients. |
| `Service.StockService.RegisterClient` | src/server/service.rs:22-32 | The registry becomes `Registered(old, addr, now)`, and the service invariant is kept. |
| `Service.StockService.UpdateLastActivity` | src/server/service.rs:34-39 | The registry becomes `Touched(old, addr, now)`, and the service invariant is kept. |
| `Service.StockService.GetActiveClientCount` | src/server/service.rs:41-51 | The registry becomes `Pruned(old, now)`, and the count is its size. The service invariant is kept. |
| `Service.StockService.UnregisterClient` | src/server/stream.rs:67-69 | The registry becomes `Unregistered(old, addr)`, and the service invariant is kept. |
| `Service.AddedAllKeepsOraclePrices` | src/utils.rs:17-22 | Recording oracle prices under a supported symbol keeps the history limited to supported symbols and prices in [10, 1000). |
| `Service.AverageInOracleRange` | src/utils.rs:49-57 | The average of any recorded history of the service lies in [10, 1000). |
| `Handlers.CheckTicker` | src/server/handlers.rs:38-50 | A symbol passes exactly when its upper case is one of the ten. It is otherwise rejected with InvalidArgument and "Invalid ticker: " plus the upper-cased symbol. |
| `Handlers.CheckTickerIgnoresCase` | src/server/handlers.rs:38-50 | Validation of a symbol and of its upper case agree, and every supported symbol passes in lower case. |
| `Handlers.HandleGetTickerList` | src/server/handlers.rs:11-29 | With a caller address the reply is the ten symbols in declaration order. Without one the handler panics on the "unknown" address fallback. |
| `Handlers.GetPriceSpec` | src/server/handlers.rs:31-64 | Without an address: panic, nothing recorded. An unsupported symbol: InvalidArgument, nothing recorded. Otherwise the drawn price is replied under the upper-cased symbol with its quote line, and appended to that symbol's history only. |
| `Handlers.LowerCaseSymbolServed` | src/server/handlers.rs:38-56 | A supported symbol asked for in lower case is served and recorded under its upper-case name. |
| `Handlers.HandleGetPrice` | src/server/handlers.rs:31-64 | The reply and the new history are those of `GetPriceSpec`, and the service invariant (supported symbols, oracle prices) is kept. |
| `Handlers.RecordPrice` | src/server/handlers.rs:55-56 | The tracker gains the drawn price under the symbol, and the service invariant is kept. |
| `Handlers.GetMultiplePricesSpec` | src/server/handlers.rs:66-106 | Without an address: panic. Error exactly for an unsupported symbol. Panic ("capacity overflow") exactly for a supported symbol with a negative count. Otherwise exactly `count` prices, the draws in order, appended to the history, with "Generated N prices for T". Nothing is recorded unless the reply is a success. |
| `Handlers.HandleGetMultiplePrices` | src/server/handlers.rs:66-106 | The loop records each draw as it collects it. The reply and the new history are those of `GetMultiplePricesSpec`, and the service invariant is kept. |
| `Handlers.GetStatsSpec` | src/server/handlers.rs:108-147 | Without an address: panic. Error exactly for an unsupported symbol. Otherwise the symbol's history (empty if none), its mean and its non-negative population variance. |
| `Handlers.HandleGetStats` | src/server/handlers.rs:108-147 | The reply is that of `GetStatsSpec` on the tracker's history. |
| `CheckedServer.PriceLines` | src/server.rs:27-31 | One "$" line per price, with two decimals, in order. |
| `CheckedServer.PricesMessage` | src/server.rs:33-37 | The reply starts with the header "Prices for T:" and a newline. With no prices it is just the header. With one price it is the header followed by that price's "$" line. |
| `CheckedServer.JoinSnoc` | src/server.rs:36 | Joining one more line adds the separator and that line at the end. |
| `CheckedServer.PricesMessageSnoc` | src/server.rs:33-37 | The first price follows the "Prices for T:" header, and every later price comes on its own line after the earlier ones. |
| `CheckedServer.CheckedMultiplePricesSpec` | src/server.rs:3-52 | The symbol is checked before the count. A count of zero or less gives "Count must be positive". Neither error records anything. Otherwise exactly `count` drawn prices, appended to the history, with the multi-line message. |
| `CheckedServer.CheckedGetMultiplePrices` | src/server.rs:3-52 | The first loop collects prices and lines with the tracker unchanged, and then the batch is recorded. The reply and the new history are those of `CheckedMultiplePricesSpec`. |
| `CheckedServer.RecordBatch` | src/server.rs:39-44 | The locked block appends the collected prices to the symbol's history, in order. |
| `CheckedServer.CheckedAgreesWithUnchecked` | src/server.rs:15-31 | The two `get_multiple_prices` agree whenever the checked one succeeds, and fail alike on an unsupported symbol. On a zero count only the unchecked one succeeds (with an empty list). On a negative count one errs and the other panics, and neither records anything. |
| `Stream.FirstFailure` | src/server/stream.rs:54-71 | The index of the first failed send: every earlier send succeeded. It is absent exactly when all sends succeed. |
| `Stream.Ticks` | src/server/stream.rs:42-71 | The producer runs up to and including the first failed send, or through every tick. |
| `Stream.Delivered` | src/server/stream.rs:54-71 | The channel accepts the items sent before the first failure, or all of them. |
| `Stream.Items` | src/server/stream.rs:44-59 | Each item carries the symbol, the drawn price and its quote line, in tick order. |
| `Stream.Run` | src/server/stream.rs:42-71 | One price is recorded per item the channel accepted, plus one for the failed send when there is one. |
| `Stream.StreamSpec` | src/server/stream.rs:11-80 | Without an address: panic. Error, with history and registry unchanged, exactly for an unsupported symbol. Otherwise the session is opened. |
| `Stream.StreamHistory` | src/server/stream.rs:42-71 | The session holds the items sent before the first failure. The history gains the price of every tick that ran, in order. |
| `Stream.StreamRecordsThenSends` | src/server/stream.rs:47-61 | Each tick records before sending. The history grows by the prices the channel accepted, in order, followed by the price whose send failed, when one did. Every item carries the upper-cased symbol. |
| `Stream.StreamDisconnects` | src/server/stream.rs:54-71 | The session ends on the first failed send and the caller is then removed from the registry. Otherwise every tick's send succeeded and the registry is unchanged. |
| `Stream.StreamStopsAtFirstFailure` | src/server/stream.rs:62-71 | After the first failed send, later ticks change nothing: not the reply, the history or the registry. |
| `Stream.HandleStreamPrices` | src/server/stream.rs:11-80 | The reply, the new history and the new registry are those of `StreamSpec`, and the service invariant is kept. |
| `Stream.Produce` | src/server/stream.rs:38-73 | The producer loop sends the items before the first failure into the channel, records the prices of the ticks that ran, and unregisters the client exactly when a send failed. |
| `Stream.RecordTick` | src/server/stream.rs:47-50 | One tick's `add_price` extends the batch recorded so far by its price. |
| `Server.Intercept` | src/server/mod.rs:19-30 | The request passes through unchanged. A caller with an address is registered; without one the registry is unchanged. |
| `Server.FirstIdleFrom` | src/server/mod.rs:42-60 | The first pair of consecutive zero samples from a given point, or none if there is none. |
| `Server.InactivityMonitor` | src/server/mod.rs:42-60 | The monitor loop signals shutdown at the second of the first two consecutive zero samples, and never otherwise. Its u32 counter stays below 2 until then. |
| `Server.ShutdownIsFinal` | src/server/mod.rs:50-55 | Once signalled, later samples do not change the shutdown point. Before that, later samples can only cause a later shutdown. |
| `Server.NonZeroSampleResets` | src/server/mod.rs:56-58 | A non-zero sample resets the count: the zero after it cannot be the shutdown point. |
| `Server.IsolatedZerosNeverShutDown` | src/server/mod.rs:48-58 | When no two zero samples are adjacent, shutdown is never signalled. |
| `Server.LiveClientCountsAsActive` | src/server/mod.rs:46-48 | A client seen within the last 30 seconds keeps the monitor's sample above zero. |
| `Server.GetTickerList` | src/server/mod.rs:86-92 | The caller is touched, then the ticker-list handler's reply is returned. |
| `Server.GetPrice` | src/server/mod.rs:94-100 | The caller is touched, then the reply and history are those of `GetPriceSpec`. |
| `Server.GetMultiplePrices` | src/server/mod.rs:102-108 | The caller is touched, then the reply and history are those of the unchecked `GetMultiplePricesSpec`. |
| `Server.GetStats` | src/server/mod.rs:110-116 | The caller is touched, then the reply is that of `GetStatsSpec`. |
| `Server.StreamPrices` | src/server/mod.rs:121-127 | The caller is touched, then the stream runs on the touched registry as `StreamSpec` describes. |
| `Server.CallerIsLiveAfterCall` | src/server/mod.rs:121-127 | A caller counts as live at a sample taken at the time of its call. A streaming caller whose send failed is no longer registered. A caller whose stream is still open keeps the timestamp of its call, since the producer never refreshes it, so a sample 30 seconds later no longer counts it. |
| `Client.ClassifyKeywords` | src/client.rs:3-16 | "list" lists the symbols. "quit" and "exit" end the session, and "list" does not. |
| `Client.ClassifyStats` | src/client.rs:17-26 | Everything after "stats " is sent verbatim as the stats symbol. |
| `Client.ClassifyMultiple` | src/client.rs:27-44 | A symbol other than "stats", a space and a printed i32 request that many prices of that symbol. ("stats" followed by a space makes the line a stats request.) |
| `Client.ClassifyBadCount` | src/client.rs:31-46 | Two tokens, the first other than "stats", whose second is not an i32 report "Invalid number format for count". |
| `Client.ClassifySingle` | src/client.rs:48-59 | A single word that is not a keyword requests one price, including "stats" on its own. |
| `Client.ClassifyInvalidFormat` | src/client.rs:60 | Three or more words whose first is not "stats" are an invalid command. (A line starting with "stats " is a stats request.) So are the empty line and a single space. |
| `Client.ClassifyBlank` | src/client.rs:60 | Every line made only of whitespace, the empty line included, is an invalid command. |
| `Client.Classify` | src/client.rs:3-60 | The arms are tried in order. The line lists symbols exactly when it is "list", and ends the session exactly when it is "quit" or "exit". A stats request starts with "stats " and sends the rest verbatim. A prices request or a bad count comes from exactly two tokens, the first being the symbol and the second parsed as an i32. A single price comes from exactly one token. An invalid command has neither one token nor two. |
| `Client.ClassifyTwoTokens` | src/client.rs:29-47 | Any line whose `split_whitespace` tokens are a symbol other than "stats" and a second token asks for that many prices when the second token parses as an i32 (a sign, leading zeros and any whitespace between are accepted), and reports a bad count otherwise. |
| `Client.ClassifyOneToken` | src/client.rs:48-59 | Any line with exactly one token asks for one price of that token, unless it is exactly "list", "quit" or "exit" or starts with "stats ". A keyword with whitespace around it (" list") is therefore a price request for "list". |
| `Client.ClassifyManyTokens` | src/client.rs:60 | Any line with three or more tokens, the first not "stats", is an invalid command. |

## Left out

- `Utils.PriceTracker.Variance`: returns the population variance. The square root that `std_deviation` applies is not modelled, because Dafny's reals have no square root.
- `Handlers.GetStatsSpec`: the reply carries the variance rather than its root, and it has no `formatted_message`. That message's text is not modelled, for the same reason.
- `Handlers.HandleGetStats`: the same as `Handlers.GetStatsSpec`.
- `Server.GetStats`: the same as `Handlers.GetStatsSpec`.
- `Utils.PriceTracker.GetStats`: `get_stats` is called in `src/server/handlers.rs` but defined nowhere in the crate. It is modelled from `get_prices`, `average` and `std_deviation`, with an empty history and zeros for a symbol never recorded.
- Prices are exact reals, not `f64`. Sums, means and variances therefore have no rounding error. The `{:.2}` format is modelled as rounding half up, which can differ from Rust's exact-decimal rounding of an `f64`.
- `to_uppercase` is modelled for the ASCII letters and for the ten non-ASCII characters whose upper case is pure ASCII. Any other character is kept as it is. This decides validation exactly: no other character upper-cases into a supported symbol. Only the symbol echoed in an error message can differ.
- Concurrency is not modelled: tokio tasks, the `Mutex` locks, the `watch` channel and `serve_with_shutdown`. Each handler runs atomically.
- The registration the interceptor spawns is taken to complete before the handler runs.
- Timers are not modelled: the one-second stream interval and the five-second monitor sleep. They become sequences of ticks and samples.
- `Stream.StreamSpec`: the producer runs over a finite run of ticks within the call. A session whose sends all succeeded is still open. The channel capacity of 32 decides only when a send waits, so it appears only as a constant. A successful send only queues an item in the channel; the model does not say whether a queued item reaches the client, since items still queued when the client goes away are dropped with the receiver.
- `Stream.StreamSpec`: an address is taken to survive the `to_string().parse()` round trip at `src/server/stream.rs:67`, so the unregister always happens.
- `Handlers.GetMultiplePricesSpec`: a huge positive count exhausts memory in the source. The model assumes enough draws and memory.
- The `println!`/`eprintln!` logging is not modelled, and neither are the client's network calls and printing of replies.
- `src/config.rs`, `src/main.rs` and `src/lib.rs` are not part of this model. Nor is the code generated from the protobuf file, beyond its message shapes.

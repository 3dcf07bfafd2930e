# OKX trading engine: verified models

A Dafny project that models the stateful core of a C++ trading engine for OKX and
proves what its parts promise on every run. There are six groups.

- **WebSocket byte pipeline** (`WebSocketFrame`, `WsReceive`, `WsSend`, `RingBuffer`, `WsClient`).
  The frame codec is compared with the wire format of RFC 6455. The receive pipeline
  is proved independent of how the stream is cut into reads, and the send pipeline to
  deliver whole frames in order. `WsClient` is the client object, field by field.
- **Order book** (`PriceLevels`, `BookDepth`, `OrderBook`). The capped sorted array is
  compared with an unbounded price map, and message sequencing with the true history.
- **Order management** (`OrderIds`, `OrderLifecycle`, `OrderStore`, `Reconciliation`,
  `Trading`, `TradingSafety`, `TradingLimits`, `TradingPosition`, `TradingQuotes`,
  `TradingTrip`, `TradingWire`, `Engine`, `RateLimiter`). `Trading` is one transition system
  for the whole engine. The other `Trading` modules prove what every run keeps and what its
  messages ask for, from the inputs. `Engine` is the object that takes those steps in place.
- **Log ring** (`LogRing`). Single loads and stores of two threads, in any interleaving.
- **Histogram and position** (`LatencyHistogram`, `Position`).
- **JSON scanner** (`Json`). The in-place scanner on a grammar of JSON text.

`dafny verify dfyconfig.toml` checks everything.

How to read it:

- State that the source updates in place is a class here, and each method is tied to a
  function of its old state. The theorems are about those functions.
- Where the source throws, a function gives no value and a method returns false or an
  error outcome. A thrown exception ends a run. A step of the engine that throws still
  says which calls it had made.
- A run is a sequence of states and a sequence of steps; theorems hold at every index.
  A run of the engine starts from any value of the id counter, which the start-up of the
  process has already moved.
- Prices, quantities and profit are exact reals, and bytes are integers from 0 to 255.
- Clocks, random keys, connection flags, REST results, whether a message fits the transmit
  ring and whether a REST request is answered at all are inputs.

Some claims one might expect of the code are false. Each has a lemma at a concrete input
and one that says exactly when the claim holds:

- No zero-size book level: `BookDepth.ZeroLevelReached`, `PriceLevels.NoZeroKeptIff`.
- Every field of an object is reported: `JsonExactness.QuoteKeyLost`, `JsonExactness.ObjectExact`.
- Visiting an array ends: `JsonScanner.EndlessText`, `JsonScanner.EndlessIff`.
- Rejected means never live: `OrderLifecycle.LiveYetRejected`, `OrderLifecycle.LiveThenRejected`.
- A decoded frame consumes bytes: `WebSocketFrame.WrappedFrameConsumesNothing`,
  `WebSocketFrame.FrameConsumesItsBytes`.
- Every message is delivered as sent: `WsReceive.PongNotDelivered`, `WsReceive.DeliveredAsSentIff`.
- The average price is the mean of the opening fills: `Position.MeanLost`, `Position.MeanKeptIff`.
- The kill switch cancels everything: `TradingLimits.UnansweredCancel`, `TradingLimits.TriggerCancels`.

The comment in `okx/orders/order_lifecycle.cpp` says that stale pushes do not throw; the
code does throw on any event for an order in a terminal state, and the model follows the
code. In the engine this cannot happen, as `TradingSafety.ApplyKeepsInv` shows.

## Model

| member | source | states |
|---|---|---|
| `WebSocketFrame.FrameConsumesItsBytes` | net/websocket_frame.cpp:109-126 | A decoded frame takes exactly its header and payload off the buffer if and only if the 64-bit sum of their sizes does not wrap; with a legal length it takes at least two bytes, no more than there are, and its whole payload. |
| `WebSocketFrame.WrappedFrameConsumesNothing` | net/websocket_frame.cpp:115-119 | The concrete frame whose length wraps the sum to zero: it is decoded and consumes nothing. |
| `WebSocketFrame.DecodeIsStable` | net/websocket_frame.cpp:63-126 | Later bytes never change a rejection or a decoded header. They leave the frame as it was if and only if its payload was all there, which it is whenever the size sum does not wrap. |
| `WebSocketFrame.AccumulateBigEndian64` | net/websocket_frame.cpp:35-41 | The shifting loop gives the number that the eight bytes stand for. |
| `WebSocketFrame.BigEndian64RoundTrip` | net/websocket_frame.cpp:35-52 | Reading the eight bytes of any 64-bit number gives the number back, wherever they stand. |
| `WebSocketFrame.DecodesWireFrame` | net/websocket_frame.cpp:63-126 | The client decodes every unmasked frame laid out as in section 5.2 of RFC 6455 to exactly what was sent, whatever bytes follow it. |
| `WebSocketFrame.AppendBigEndian16` | net/websocket_frame.cpp:43-46 | Appends the two-byte wire form of the number. |
| `WebSocketFrame.AppendBigEndian64` | net/websocket_frame.cpp:48-52 | Appends the eight-byte wire form of the number, most significant first. |
| `WebSocketFrame.AppendLength` | net/websocket_frame.cpp:133-142 | Appends the mask bit and the shortest of the three length forms of section 5.2. |
| `WebSocketFrame.AppendMasked` | net/websocket_frame.cpp:149-152 | Appends the payload masked as in section 5.3. |
| `WebSocketFrame.EncodeFrame` | net/websocket_frame.cpp:128-155 | The built string is the wire form of one final, masked frame with the given payload, for any key and any payload length below 2^63. |
| `WebSocketFrame.MaskedTwice` | net/websocket_frame.cpp:149-152 | Masking twice with one key gives the payload back. |
| `WebSocketFrame.XorIsBitwise` | net/websocket_frame.cpp:149-152 | The masking operation is exclusive or: each bit is set exactly where the two differ. |
| `WebSocketFrame.ServerRecoversFrame` | net/websocket_frame.cpp:128-155 | A decoder written from sections 5.2 and 5.3 recovers every masked frame exactly, whatever follows it. |
| `WebSocketFrame.ServerRecoversAll` | net/websocket_frame.cpp:128-155 | The same for any sequence of client frames on one byte stream. |
| `WebSocketFrame.ParsePrefix` | okx/connectivity/okx_ws_client.cpp:204-217 | The bytes that have arrived so far give a prefix of the frames, in order and whole. |
| `WsReceive.PeelStep` | okx/connectivity/okx_ws_client.cpp:132-135 | Every turn of the peel loop takes between two bytes and the whole buffer off its front, and only adds to what was dispatched. |
| `WsReceive.ChunkingIndependent` | okx/connectivity/okx_ws_client.cpp:130-138 | For every byte stream, conforming or not, and every way of cutting it into reads, the messages, replies, remaining state and fault are those of the whole stream. |
| `WsReceive.ConformingStreamDelivered` | okx/connectivity/okx_ws_client.cpp:130-164 | For every stream that keeps sections 5.2, 5.4 and 5.5 of RFC 6455 with fragmented messages up to 1 MiB, however it is cut into reads, exactly its messages are dispatched and exactly its control frames answered, in order, and nothing is left behind. |
| `WsReceive.PartialStreamDelivered` | okx/connectivity/okx_ws_client.cpp:130-164 | Cut off anywhere, the connection has done a prefix of that and met no error. |
| `WsReceive.DeliveredAsSentIff` | okx/connectivity/okx_ws_client.cpp:130-164 | However a conforming stream is cut into reads, every message reaches the handler as it was sent if and only if none starts with a frame that reads `pong`. |
| `WsReceive.PongNotDelivered` | okx/connectivity/okx_ws_client.cpp:146-148 | Such a stream: one text message `pong`, however it is cut into reads, is conforming and is not dispatched. |
| `WsReceive.RejectedIffTooLong` | net/websocket_reassembler.hpp:11-18 | A fragmented message ends the connection with an error if and only if it does not fit the reassembly buffer. |
| `WsReceive.FragmentsHandled` | okx/connectivity/okx_ws_client.cpp:150-163 | Any run of continuations with control frames between them is joined and dispatched once, after the replies. |
| `Reassembler.Reassembler.Append` | net/websocket_reassembler.hpp:11-18 | The fragment is added behind the message so far, or refused whole when it does not fit. |
| `Reassembler.Reassembler.Reset` | net/websocket_reassembler.hpp:28-31 | Leaves an empty, incomplete message. |
| `RingBuffer.RingBuffer.Write` | net/ring_buffer.hpp:16-29 | Queues all the bytes behind those queued, in at most two copy passes, or refuses them whole when they do not fit. |
| `RingBuffer.RingBuffer.WriteRegion` | net/ring_buffer.hpp:59-63 | One copy pass: it is short only when it ends at the wrap point, and a pass from the start of the array is never short. |
| `RingBuffer.RingBuffer.CommitRead` | net/ring_buffer.hpp:36-39 | Drops exactly the first bytes of the queue. |
| `RingBuffer.RingBuffer.Reset` | net/ring_buffer.hpp:41-44 | Empties the queue. |
| `RingBuffer.RingBuffer.ReadableIsFront` | net/ring_buffer.hpp:31-34 | The readable region, byte for byte as it lies in the array, is the front of the queue. |
| `Ring.WrapIsRemainder` | net/ring_buffer.hpp:37-37 | The wrap used by the model is the remainder the source computes. |
| `WsSend.StepKeepsInv` | okx/connectivity/okx_ws_client.cpp:166-218 | Every send, batch call and write completion keeps: bytes out plus bytes queued are the frames asked for; a write in flight lies before the wrap point; connected, not batching and no write in flight mean an empty ring. |
| `WsSend.BytesConserved` | okx/connectivity/okx_ws_client.cpp:166-218 | At every point of every run, bytes that left plus bytes queued are all frames in call order; with nothing held back or in flight all have left. |
| `WsSend.FifoDelivery` | okx/connectivity/okx_ws_client.cpp:166-218 | At every point of every run a server decoding what left gets a prefix of the client frames, whole, unmasked and in order, for any masking keys; with nothing held back or in flight, all of them. |
| `WsSend.OutstandingWriteUntouched` | okx/connectivity/okx_ws_client.cpp:203-217 | While a write is outstanding no second one starts, and its bytes stay the unmodified front of the queue. |
| `WsSend.DrainsInThreeWrites` | okx/connectivity/okx_ws_client.cpp:204-216 | In every reachable connected state three completed writes empty the ring, wrap included, if and only if a write is out, nothing is held back, or there is nothing to send. |
| `WsSend.EndBatchDrains` | okx/connectivity/okx_ws_client.cpp:181-186 | Ending a batch always lets the ring drain in three completed writes. |
| `WsClient.Client.StartWrite` | okx/connectivity/okx_ws_client.cpp:188-218 | Hands the contiguous front of the ring to the transport, if there is one. |
| `WsClient.Client.WriteRaw` | okx/connectivity/okx_ws_client.cpp:166-175 | The object takes the step of the send pipeline for the encoding of a client frame, or refuses one that does not fit. |
| `WsClient.Client.BeginBatch` | okx/connectivity/okx_ws_client.cpp:177-179 | The object takes the step of the send pipeline and receives nothing. |
| `WsClient.Client.EndBatch` | okx/connectivity/okx_ws_client.cpp:181-186 | The object takes the step of the send pipeline and receives nothing. |
| `WsClient.Client.OnWritten` | okx/connectivity/okx_ws_client.cpp:204-216 | A completed write is the completion step of the send pipeline. |
| `WsClient.Client.SendReply` | net/websocket_control.cpp:27-37 | A control reply is queued as the wire form of one frame under a newly drawn key, and recorded as sent back. |
| `WsClient.Client.HandleFrame` | okx/connectivity/okx_ws_client.cpp:140-164 | One frame changes the receiver as the receive pipeline says; a ping or close queues one frame that carries its payload back, anything else queues nothing. |
| `WsClient.Client.HandleData` | okx/connectivity/okx_ws_client.cpp:150-163 | The in-place reassembler and dispatcher agree with the receive pipeline on data frames. |
| `WsClient.Client.PeelOne` | okx/connectivity/okx_ws_client.cpp:132-135 | One turn of the loop shortens the buffer and keeps what peeling will give; the frames asked for grow only by replies, one for each reply recorded. |
| `WsClient.Client.OnRead` | okx/connectivity/okx_ws_client.cpp:130-136 | A read leaves the object as feeding the chunk to the receive pipeline does, faults included, unless a reply overflows the transmit ring; the frames asked for grow only by replies, one for each reply recorded. |
| `WsClient.Client.SendText` | okx/connectivity/okx_ws_client.cpp:166-175 | Sending queues the wire form of one text frame under a newly drawn key. |
| `WsClient.Client.InFlightIsFront` | okx/connectivity/okx_ws_client.cpp:217-217 | The memory handed to the outstanding write holds the front of the queue. |
| `WsClient.Client.ServerHears` | okx/connectivity/okx_ws_client.cpp:130-218 | After any interleaving of reads, sends, batches and completed writes, a server decoding what left hears a prefix of the frames asked for; with nothing held back or in flight it has heard exactly every pong and close owed to it, in order, with its payload. |
| `PriceLevels.PriceLevels.LowerBound` | okx/marketdata/order_book.hpp:68-81 | Binary search finds how many levels come before the price. |
| `PriceLevels.PriceLevels.InsertAt` | okx/marketdata/order_book.hpp:83-96 | The level is put in its place, and a full side loses its last level. |
| `PriceLevels.PriceLevels.RemoveAt` | okx/marketdata/order_book.hpp:98-103 | The level is taken out and the rest keep their order. |
| `PriceLevels.PriceLevels.Set` | okx/marketdata/order_book.hpp:45-58 | The array changes as one update of a sorted, capped list. |
| `PriceLevels.PriceLevels.Best` | okx/marketdata/order_book.hpp:60-65 | The price held that comes before every other, or none exactly when the side is empty. |
| `PriceLevels.PriceLevels.Clear` | okx/marketdata/order_book.hpp:41-43 | The side is empty. |
| `PriceLevels.SetKeepsSorted` | okx/marketdata/order_book.hpp:45-103 | Every update keeps the side strictly sorted and within 32 levels. |
| `PriceLevels.NoZeroKeptIff` | okx/marketdata/order_book.hpp:49-57 | A side free of zero-size levels stays so if and only if the update is not the deletion of a price the side does not hold and that ranks within its capacity. |
| `BookDepth.ZeroLevelReached` | okx/marketdata/order_book.hpp:49-57 | The failure is real: a concrete feed that deletes only prices of the book leaves a zero-size level. |
| `BookDepth.NoZeroWhileWhole` | okx/marketdata/order_book.hpp:49-57 | While the size of the book and the deletions together have not passed 32, no zero-size level is held. |
| `BookDepth.SetListingLists` | okx/marketdata/order_book.hpp:45-58 | The reference: updating a sorted listing lists the updated price map. |
| `BookDepth.ListingUnique` | okx/marketdata/order_book.hpp:45-58 | A price map has one sorted listing, so the reference is well defined. |
| `BookDepth.DepthBound` | okx/marketdata/order_book.hpp:45-103 | With d deletions of present prices, the first 32 - d levels of the array, price and size, are those of the unbounded book, and the array is the whole book while its size plus d is at most 32. |
| `BookDepth.BoundIsTight` | okx/marketdata/order_book.hpp:83-103 | For every d up to 32 there is a feed with d deletions where the array holds exactly 32 - d levels of a longer book: the bound cannot be improved. |
| `BookDepth.BestIsRight` | okx/marketdata/order_book.hpp:60-65 | The best price is the true one, and present when there is one, while fewer than 32 prices were deleted. |
| `BookDepth.SnapshotExact` | okx/marketdata/order_book.hpp:45-96 | A freshly loaded snapshot is the exact top 32. |
| `BookDepth.SnapshotOrderIrrelevant` | okx/marketdata/order_book.hpp:45-96 | Two arrival orders of the same levels give the same array. |
| `OrderBook.OrderBook.BeginSnapshot` | okx/marketdata/order_book.cpp:3-7 | Both sides are emptied and the book counts as loaded. |
| `OrderBook.OrderBook.ApplyBids` | okx/marketdata/market_data.cpp:84-86 | The bid updates are applied in order and nothing else changes. |
| `OrderBook.OrderBook.ApplyAsks` | okx/marketdata/market_data.cpp:87-89 | The ask updates are applied in order and nothing else changes. |
| `OrderBook.OrderBook.ApplyBookMessage` | okx/marketdata/market_data.cpp:40-93 | The object is left as the message says. An ignored message, missing or unreadable leading ids and a detected gap leave it untouched; a malformed level or an unreadable new id throws with exactly the levels before it applied. |
| `BookSequencing.OnlyNextApplies` | okx/marketdata/market_data.cpp:71-79 | Once loaded, the only update that is applied is the one after the version the book names. |
| `BookSequencing.RunExplained` | okx/marketdata/market_data.cpp:71-92 | If the exchange updates form a chain with unique ids, then under any loss, repetition and reordering of deliveries the book is, from its first snapshot on, a replay of the true history up to the version it names. |
| `BookSequencing.BookIsTrueTop` | okx/marketdata/market_data.cpp:71-92 | Sequencing and depth together: in every such run the first 32 - d levels of each side are those of the true book at that version, d counting the deletions on that side since it was last loaded. |
| `BookSequencing.BestIsTrueBest` | okx/marketdata/order_book.hpp:22-28 | In every such run, while fewer than 32 levels of a side were deleted since the snapshot, the best bid is the highest and the best ask the lowest price of the true book, and a side is empty exactly when the true one is. |
| `BookDepth.ListingExists` | okx/marketdata/market_data.cpp:21-37 | Every book a feed leads to has a sorted listing, so the depth theorems always speak of one. |
| `JsonScanner.SkipWhitespace` | util/json.cpp:15-20 | Stops at the first character from the start that is not whitespace. |
| `JsonScanner.SkipValue` | util/json.cpp:23-66 | The loops, with their recursion for strings, stop where the position functions say; JsonExactness says where that is. |
| `JsonExactness.ValueCrossed` | util/json.cpp:40-58 | Scanning across a whole well-formed value leaves the bracket depth as it was, whichever of the two bracket kinds is counted. |
| `JsonExactness.SkipValueExact` | util/json.cpp:23-66 | On the print of any JSON value followed by any suffix that ends a scalar, SkipValue stops exactly at the end of the print. |
| `JsonScanner.ForEachElement` | util/json.cpp:183-200 | Total on every text: the elements reported in order, and whether the loop of the source would never end. |
| `JsonScanner.StuckOnlyAtBrace` | util/json.cpp:185-199 | A round of that loop fails to move on if and only if it stands on a closing brace, for every text and position. |
| `JsonScanner.EndlessIff` | util/json.cpp:183-200 | For every text ForEachElement never ends if and only if FindElement still finds an element at the index of the length of the text. |
| `JsonScanner.EndlessText` | util/json.cpp:183-200 | Such a text: an opening bracket and a closing brace. |
| `JsonExactness.ArrayExact` | util/json.cpp:183-200 | On the print of any array, whatever follows it, ForEachElement ends and reports exactly the printed elements in order. |
| `JsonScanner.FindElementAt` | util/json.cpp:88-111 | The loop finds what the rounds of the walk find at that index. |
| `JsonScanner.FindElement` | util/json.cpp:164-170 | On every text, well formed or not, FindElement gives what ForEachElement reports at that index; past its end it gives nothing, or an empty element exactly when ForEachElement never ends. |
| `JsonExactness.FindExact` | util/json.cpp:88-111 | On the print of any array it gives exactly the element at the index, and nothing past the last. |
| `JsonScanner.ForEachField` | util/json.cpp:202-237 | Ends on every text and reports the entries of the walk; nothing when the text does not start with a brace. |
| `JsonExactness.ObjectExact` | util/json.cpp:202-237 | On the print of any object, whatever follows it, ForEachField reports exactly its keys and printed values in order if and only if no key holds an escaped quote. |
| `JsonExactness.FieldTruncated` | util/json.cpp:215-225 | Why: a key with an escaped quote is cut short at that quote, or the walk stops there. |
| `JsonExactness.QuoteKeyLost` | util/json.cpp:215-225 | Such an object: one field whose key is an escaped quote, which is not reported as it stands. |
| `LogRing.StepKeepsInv` | log/async_logger.cpp:20-82 | Every load and store of an index, every counter access and every access to a slot, field by field and the message character by character, with stale index loads, keeps the published records intact and the accounts balanced. |
| `LogRing.RunKeepsInv` | log/async_logger.cpp:20-82 | The same for every state of every interleaving. |
| `LogRing.RingSafety` | log/async_logger.cpp:20-82 | In every interleaving: no slot is written while it may be read; what is printed is a prefix of what was accepted; every call is exactly one of printed, waiting, reported dropped, dropped and unreported, or under way. |
| `LogRing.OutputIsCalls` | log/async_logger.cpp:20-40 | In every interleaving, read off the steps alone: the records published, plus the one being written, are exactly the calls that were not dropped, in order, each with its own arguments and its message cut to 256 characters, and line k of the output is the k-th of those calls. |
| `LogRing.DropOnlyWhenFull` | log/async_logger.cpp:21-28 | A message is dropped if and only if the ring was full as the producer last saw it, and nothing else counts a drop. |
| `LatencyHistogram.BucketInRange` | perf/latency_histogram.cpp:34-49 | Every 64-bit value has a bucket, and values from 2^34 on share the last. |
| `LatencyHistogram.BucketMonotone` | perf/latency_histogram.cpp:34-49 | Larger values are never in earlier buckets, over all 64-bit values. |
| `LatencyHistogram.UpperBoundInBucket` | perf/latency_histogram.cpp:51-65 | The upper bound of every bucket lies in that bucket. |
| `LatencyHistogram.UpperBoundMonotone` | perf/latency_histogram.cpp:51-65 | Upper bounds strictly ascend. |
| `LatencyHistogram.BucketsPartition` | perf/latency_histogram.cpp:34-65 | Below 2^34 a value is in a bucket exactly when it lies between the bucket bounds: no gap, no overlap. |
| `LatencyHistogram.BucketError` | perf/latency_histogram.cpp:34-65 | The upper bound of its bucket is at least the value and exceeds it by at most one part in 64. |
| `LatencyHistogram.RankOfSorted` | perf/latency_histogram.cpp:16-32 | The notion of rank used below is the position in the sorted samples. |
| `LatencyHistogram.RankBucket` | perf/latency_histogram.cpp:24-30 | The bucket where the running count reaches r holds the r-th smallest sample. |
| `LatencyHistogram.Histogram.RecordNanos` | perf/latency_histogram.cpp:9-14 | The counts stay those of all samples recorded. |
| `LatencyHistogram.PercentileIsRank` | perf/latency_histogram.cpp:21-22 | The sample that at least the share p of the samples is at most, and less than that share is below, is the one whose rank is the ceiling of p times n, and the smallest for p zero. |
| `LatencyHistogram.PercentileExists` | perf/latency_histogram.cpp:16-32 | For every p up to one there is such a sample. |
| `LatencyHistogram.Histogram.Percentile` | perf/latency_histogram.cpp:16-32 | For every p up to one the answer is the upper bound of the bucket of the sample with at least the share p of all samples at most it and less than that share below it, so within one part in 64 above it below 2^34 ns; for p zero that is the smallest sample, beyond one the answer is the maximum, and without samples zero. |
| `Position.FillConserves` | okx/risk/position.cpp:5-31 | Every fill moves realised profit minus cost basis by exactly the cash it moved, on every branch. |
| `Position.PnlConservation` | okx/risk/position.cpp:5-31 | At every point of every run of fills, realised plus unrealised profit at any mark equals cash flow plus net quantity times the mark. |
| `Position.FillDivides` | okx/risk/position.cpp:8-30 | Adding realises nothing and weighs the price in by size; closing realises the closed size times its distance from the average, and moves the average only on a flip, to the price, or on going flat, to zero. |
| `Position.WeightedAverageCost` | okx/risk/position.cpp:5-31 | At every point of every run the average is the mean price of the lots still held, where a close takes the same share of every lot; so realised profit is the cash moved plus the cost of those lots, taken off for a short position. |
| `Position.MeanKeptIff` | okx/risk/position.cpp:10-30 | A fill keeps the average the plain mean of the opening fills if and only if it does not add, away from the average, to a position of which some has been closed. |
| `Position.MeanOfOpenings` | okx/risk/position.cpp:5-31 | While nothing is added after a close, the average is the plain size-weighted mean of the opening fills since the position was last flat or flipped. |
| `Position.MeanLost` | okx/risk/position.cpp:10-30 | The concrete fills that break the plain mean: buy 10 at 100, sell 4, buy 6 at 110 leave the average 105 and not 103.75. |
| `Position.FillSplits` | okx/risk/position.cpp:5-31 | One fill and two fills of the same side, price and total size leave the same position, through closes and flips. |
| `Position.AnySplit` | okx/risk/position.cpp:5-31 | The same for any number of parts. |
| `Position.Tracker.ApplyFill` | okx/risk/position.cpp:5-31 | The three fields updated in place take exactly the step that the laws above are about. |
| `RateLimiter.QueueDecides` | okx/connectivity/rate_limiter.cpp:11-27 | The queue, which forgets, decides every call as the policy over the whole history of grants does. |
| `RateLimiter.LimiterSound` | okx/connectivity/rate_limiter.cpp:11-27 | For every run with a clock that does not go back: a call is granted exactly when fewer than `capacity` grants lie in the closed window ending at it, and no closed interval as long as the window ever holds more. |
| `RateLimiter.SlidingWindowLimiter.Evict` | okx/connectivity/rate_limiter.cpp:15-18 | The circular buffer drops exactly the times before the cutoff. |
| `RateLimiter.SlidingWindowLimiter.TryAcquire` | okx/connectivity/rate_limiter.cpp:11-27 | The circular buffer answers and moves as the queue does, capacity zero included. |
| `RateLimiter.EndpointRateLimiter.TryAcquire` | okx/connectivity/rate_limiter.cpp:35-46 | An operation asks its own limiter and leaves the other two alone; an unknown operation throws. |
| `OrderIds.ToStringInjective` | okx/orders/order_types.cpp:14-14 | Different counter values give different ids. |
| `OrderIds.ToStringIsDecimal` | okx/orders/order_types.cpp:14-14 | The id is the counter in decimal, without leading zeros. |
| `OrderIds.NextId` | okx/orders/order_types.cpp:13-13 | The next value is past the last one and not before the clock, and it is one of the two. |
| `OrderIds.GeneratedIsFresh` | okx/orders/order_types.cpp:6-15 | A generated id differs from every id seen before it, whatever the wall clock does, and is not generated again. |
| `OrderLifecycle.ApplyEvent` | okx/orders/order_lifecycle.cpp:51-113 | An event throws exactly on an order in a terminal state. |
| `OrderLifecycle.OnCancelRequested` | okx/orders/order_lifecycle.cpp:115-127 | A cancel request throws exactly from a terminal state or while one is pending. |
| `OrderLifecycle.OnAmendRequested` | okx/orders/order_lifecycle.cpp:129-141 | An amend request throws exactly from a terminal state or while one is pending. |
| `OrderLifecycle.OnRequestRejected` | okx/orders/order_lifecycle.cpp:143-149 | A rejection throws exactly when no request is pending. |
| `OrderLifecycle.ChangeKeepsIdentity` | okx/orders/order_lifecycle.cpp:51-149 | No change touches who the order is; its exchange id is set once; its price moves only to that of a live event. |
| `OrderLifecycle.AlwaysSound` | okx/orders/order_lifecycle.cpp:115-149 | Over every sequence of events and requests the saved state is PendingNew, New or PartiallyFilled. |
| `OrderLifecycle.TerminalEndsPath` | okx/orders/order_lifecycle.cpp:51-149 | Terminal states are absorbing: a run goes on only from a state that is not terminal. |
| `OrderLifecycle.PartialFillIsForEver` | okx/orders/order_lifecycle.cpp:51-149 | An order once partially filled never goes back to New or PendingNew and never ends Rejected. |
| `OrderLifecycle.RejectedReachable` | okx/orders/order_lifecycle.cpp:51-149 | From any sound order some continuation ends Rejected if and only if the order is not known to be live. |
| `OrderLifecycle.LiveThenRejected` | okx/orders/order_lifecycle.cpp:60-78 | An order reported live can still end Rejected if and only if the report came while a cancel was pending on an order not yet known to be live: the exact limit of "rejected means never live". |
| `OrderLifecycle.LiveYetRejected` | okx/orders/order_lifecycle.cpp:60-149 | Such a life, from placement through a live report to Rejected. |
| `OrderLifecycle.FieldsTellHistory` | okx/orders/order_lifecycle.cpp:52-56 | At every point of every run the exchange id is the first one reported and the fill fields are those of the last event. |
| `OrderLifecycle.PartialTellsHistory` | okx/orders/order_lifecycle.cpp:48-137 | In every life the order is, or goes back to, PartiallyFilled exactly when a partial fill was reported. |
| `OrderLifecycle.LiveReport` | okx/orders/order_lifecycle.cpp:60-79 | A live report confirms a new order, and gives any other order its price; it ends a pending amend in PartiallyFilled if a partial fill was ever reported and in New if not, and leaves every other state alone. |
| `OrderLifecycle.RejectionUndoes` | okx/orders/order_lifecycle.cpp:115-149 | A request leaves the order waiting for its own answer, and one rejection undoes any number of requests made since. |
| `OrderLifecycle.EndOfLife` | okx/orders/order_lifecycle.cpp:80-112 | Which change ends a life, and how: Filled exactly by a fill, Rejected or Canceled exactly by a cancel from PendingNew or not. |
| `OrderLifecycle.OrderObject.ApplyEvent` | okx/orders/order_lifecycle.cpp:51-113 | The fields updated in place take exactly the lifecycle step; where it throws the states are unchanged. |
| `OrderLifecycle.OrderObject.OnCancelRequested` | okx/orders/order_lifecycle.cpp:115-127 | The object takes exactly the lifecycle step or is left as it was. |
| `OrderLifecycle.OrderObject.OnAmendRequested` | okx/orders/order_lifecycle.cpp:129-141 | The object takes exactly the lifecycle step or is left as it was. |
| `OrderLifecycle.OrderObject.OnRequestRejected` | okx/orders/order_lifecycle.cpp:143-149 | The object takes exactly the lifecycle step or is left as it was. |
| `OrderStore.LookupInsert` | okx/orders/order_store.cpp:7-20 | Adding makes the slab a map with one more entry: the new id finds the new order, every other id what it found before. |
| `OrderStore.LookupWithout` | okx/orders/order_store.cpp:22-37 | Removing makes it a map without that id and changes no other. |
| `OrderStore.LookupPut` | okx/orders/order_store.cpp:49-55 | Updating through a found order changes that entry only. |
| `OrderStore.LookupFinds` | okx/orders/order_store.cpp:49-55 | A lookup finds an order exactly when one with that id is stored. |
| `OrderStore.OrderStore.LowerBound` | okx/orders/order_store.cpp:66-78 | Binary search finds how many stored ids come before this one. |
| `OrderStore.OrderStore.Add` | okx/orders/order_store.cpp:7-20 | The order goes in at its place; full means refused and unchanged. A new id keeps the slab sorted with its ids apart. |
| `OrderStore.OrderStore.Remove` | okx/orders/order_store.cpp:22-37 | The order goes out, the slab stays sorted, and the listener is called exactly when an order was there. |
| `OrderStore.OrderStore.FindByClOrdId` | okx/orders/order_store.cpp:49-55 | Finds the stored order with the id, or nothing exactly when there is none. |
| `OrderStore.OrderStore.FindByOrdId` | okx/orders/order_store.cpp:57-64 | Finds the first stored order with that exchange id, or nothing exactly when there is none. |
| `OrderStore.OrderStore.Update` | okx/orders/order_store.cpp:80-86 | An update through a reference changes the one slot and keeps the slab sorted. |
| `Reconciliation.ReconcileSucceeds` | okx/orders/reconciliation.cpp:26-81 | Reconciliation goes through if and only if no entry is malformed, no unknown first entry is in another state, and the union of both sides fits the capacity. |
| `Reconciliation.ReconcileAgrees` | okx/orders/reconciliation.cpp:26-81 | Afterwards the stored ids are exactly the listed ones, an order both sides knew is unchanged, and an adopted one is what its first entry reports. |
| `Reconciliation.Adopted` | okx/orders/reconciliation.cpp:42-64 | An adopted order carries the reported ids, side, instrument, price, size, filled size and average price, and is New or PartiallyFilled as reported. |
| `Reconciliation.ReconcileTwice` | okx/orders/reconciliation.cpp:26-81 | A second run with the same response changes nothing. |
| `Reconciliation.SameLookupsSameSlab` | okx/orders/order_store.cpp:66-78 | Two sorted slabs that answer every lookup alike are the same slab. |
| `Reconciliation.DropsLeaveKept` | okx/orders/reconciliation.cpp:67-80 | Removing the collected ids one by one keeps exactly the listed orders. |
| `Reconciliation.DropStillThere` | okx/orders/reconciliation.cpp:74-80 | Each collected order is still stored when its turn comes, so the listener hears of every drop. |
| `Reconciliation.AdoptOne` | okx/orders/reconciliation.cpp:31-64 | One entry on the store in place: known means unchanged, otherwise add and apply, or throw. |
| `Reconciliation.AdoptListed` | okx/orders/reconciliation.cpp:29-65 | The whole list on the store in place, with the set of ids seen. |
| `Reconciliation.CollectDrops` | okx/orders/reconciliation.cpp:67-72 | Collects the ids of exactly the stored orders that are not listed, in order. |
| `Reconciliation.ReconcileOrders` | okx/orders/reconciliation.cpp:26-81 | The store in place ends as the reconciled slab, and the listener hears of exactly the drops. |
| `TradingSafety.PlaceKeepsInv` | okx/strategy/naive_quoter.cpp:155-182 | A placement keeps the invariant and throws exactly when it is granted and the store is full or the message does not fit the transmit ring. |
| `TradingSafety.AmendKeepsInv` | okx/strategy/naive_quoter.cpp:138-152 | The amend request of the quoter never throws for the state of the order: an amend throws exactly when it is granted and its message does not fit the ring. |
| `TradingSafety.ReplaceKeepsInv` | okx/strategy/naive_quoter.cpp:117-153 | Replacing a side keeps the invariant and throws exactly when the placement or the amend it comes to does. |
| `TradingSafety.RequoteKeepsInv` | okx/strategy/naive_quoter.cpp:103-111 | Requoting keeps the invariant and throws exactly when the bid side does, or the ask side does: its own slot, the store with the bid added if one was placed, and the limiter after the bid decide. |
| `TradingSafety.OnTimerKeepsInv` | okx/strategy/naive_quoter.cpp:87-101 | The timer keeps the invariant and throws exactly when filling the bid does, or filling the ask does with the places and grants the bid has left. |
| `TradingSafety.RoomEnough` | okx/strategy/naive_quoter.cpp:87-182 | With two places free in the store and both messages fitting the ring, neither requoting nor the timer throws. |
| `TradingSafety.RemovedAllClears` | okx/strategy/naive_quoter.cpp:77-85 | Hearing of removals clears exactly the slots whose order was removed. |
| `TradingSafety.ApplyKeepsInv` | okx/orders/ws_order_round_trip.cpp:49-60 | Applying an event to a stored order never throws, and a terminal order leaves the store and its slot in the same step. |
| `TradingSafety.EventKeepsInv` | okx/engine/engine.cpp:194-213 | An order event throws exactly when its fill breaches the loss limit with the switch off and one of the cancels is not answered; after it a realised loss beyond 50 has triggered the switch. |
| `TradingSafety.ReconcileKeepsInv` | okx/orders/reconciliation.cpp:26-81 | Reconciliation inside a run keeps the invariant, slots included, and throws exactly when the REST query is not answered or its list cannot be reconciled. |
| `TradingSafety.StartKeepsInv` | okx/orders/ws_order_round_trip.cpp:27-47 | Starting the round trip keeps the invariant, moves the id counter on both ways of placing, and throws exactly on a full store or ring, or on a REST call that is not answered. |
| `TradingSafety.LoginKeepsInv` | okx/engine/engine.cpp:160-188 | A login keeps the invariant and throws exactly when the subscribe does not fit, reconciling throws, or fewer than ten ids are listed, nothing else forbids the smoke-test order, and its message does not fit or its REST call is not answered. A full store never makes it throw. |
| `TradingSafety.DispatchKeepsInv` | okx/orders/ws_order_round_trip.cpp:70-122 | Every response keeps the invariant and throws exactly when the round trip has moved on, its message does not fit, or its REST cancel is not answered. |
| `TradingSafety.StepKeepsInv` | okx/engine/engine.cpp:76-213 | Every step of the engine keeps the invariant and throws exactly when its guard, read off the state and the input, says so. |
| `TradingSafety.RunKeepsInv` | okx/engine/engine.cpp:76-213 | In every state reachable from any value of the id counter the store holds no terminal order, each set quoter slot names a stored order on its own side, and a realised loss beyond 50 has triggered the switch. |
| `TradingSafety.SlotsDiffer` | okx/strategy/naive_quoter.cpp:77-85 | In every reachable state the two slots never name one order. |
| `TradingSafety.RunThrowsExactly` | okx/engine/engine.cpp:76-213 | In every reachable state a step throws exactly when its guard says so: only a full store, a full ring, an unanswered REST call, a list that cannot be reconciled or a response for a round trip that has moved on. The state of a stored order never makes an event or an amend of the quoter throw. |
| `TradingLimits.CancelsExact` | okx/risk/kill_switch.cpp:20-33 | The cancels to ask for are exactly one per stored order with an exchange id, in store order, and no other. |
| `TradingLimits.NoOrderAfterTrigger` | okx/engine/engine.cpp:82-86 | Once the switch is triggered, in every run and up to and including a step that throws, no call places an order again by socket or by REST. |
| `TradingLimits.TriggerCancels` | okx/risk/kill_switch.cpp:13-34 | In every reachable state with the switch off, a shutdown or a fill beyond the limit asks for the cancels and nothing else. It returns with all of them answered if and only if no REST call throws; otherwise exactly those before the first that throws were answered and none after it is asked for. |
| `TradingLimits.UnansweredCancel` | okx/risk/kill_switch.cpp:29-33 | Such a run from every counter: the login adopts the order the process has placed before, and a shutdown whose REST call throws leaves it uncancelled. |
| `TradingLimits.TriggerStops` | okx/engine/engine.cpp:194-213 | The switch goes on only by a shutdown or a realised loss beyond 50, and from that step on no order is placed. |
| `TradingLimits.QuoterWithinLimits` | okx/strategy/naive_quoter.cpp:138-182 | In every run with a clock that does not go back, and up to and including a step that throws, no closed two-second interval holds more than 60 placements called for by the quoter, nor more than 60 amends. |
| `TradingLimits.NoBatchLeftOpen` | okx/strategy/naive_quoter.cpp:93-110 | Between two handlers of any run the socket is never batching. |
| `TradingLimits.PassedIdsAllowed` | okx/orders/order_types.cpp:6-15 | Whatever the exchange lists, as long as the id counter has passed every listed id that it could make, the step places no order under a listed id, so the input is one the run theorems cover. |
| `TradingWire.ReplayHasRoom` | okx/connectivity/okx_ws_client.cpp:166-186 | From an empty ring, batch calls and up to two quotes of at most half the ring each are all taken, in any order. |
| `TradingWire.QuoterAsWithRoom` | okx/strategy/naive_quoter.cpp:87-182 | A quoter handler makes only batch calls and at most two quotes, and if they all go through it ends as with a ring without bound. |
| `TradingWire.QuoterFindsRoom` | okx/strategy/naive_quoter.cpp:87-111 | Over every run of the engine beside every run of its connection: when no write is in flight as a quoter handler begins, the ring is empty, so with messages of at most half the ring every call goes through, the handler cannot throw for want of room, and with two places free in the store it cannot throw at all. |
| `TradingPosition.PositionIsTold` | okx/engine/engine.cpp:194-213 | In every run, read off the order messages alone: what is held is the size bought minus the size sold by the fills told of; realised plus unrealised profit at any mark is their cash plus what is held at the mark; the average and the realised profit are those of the lots still held. |
| `TradingPosition.TriggeredIff` | okx/engine/engine.cpp:194-213 | In every run the switch is on if and only if there was a shutdown or the fills told of had at some point realised a loss beyond 50. |
| `TradingQuotes.MidIsLast` | okx/strategy/naive_quoter.cpp:42-60 | In every run the mid remembered is that of the last book quoted around, by the inputs alone. |
| `TradingQuotes.MovedIsDeviates` | okx/strategy/naive_quoter.cpp:50-58 | The threshold of a hundredth of a basis point is a move by more than a millionth of the last mid. |
| `TradingQuotes.QuoterAsksFor` | okx/strategy/naive_quoter.cpp:42-182 | In every run the quoter acts exactly when a book or the timer makes it, by the inputs alone: one batch with at most one message for the bid and then one for the ask. A placement names the order then stored in the slot of its side, PendingNew, with the side, price, instrument and size asked for, where there was none to amend; an amend names the exchange id of the order in the slot, with the price of that side, and that order is then PendingAmend. With a clock that does not go back a side asks for nothing exactly when it waits for an amend, the timer finds it taken, or 60 such calls lie in the last two seconds. |
| `TradingQuotes.OnlyQuoterQuotes` | okx/engine/engine.cpp:82-213 | No other handler of any run places or amends a quote. |
| `TradingTrip.LoginAsksFor` | okx/engine/engine.cpp:160-188 | In every run an accepted login subscribes, asks for the list, and starts the round trip exactly when the switch is off, the size is within the limits and fewer than ten ids are listed: an order stored as configured whose response is awaited, or without a socket one by REST, canceled by REST under the id given to it. |
| `TradingTrip.TripOrdIsGiven` | okx/orders/ws_order_round_trip.cpp:70-83 | In every run the exchange id the round trip works on is the one given last, by an accepted response to its placement or by an accepted REST placement. |
| `TradingTrip.ResponseAsksFor` | okx/orders/ws_order_round_trip.cpp:70-122 | In every run a response is taken once, by the handler awaited under its id. An accepted placement asks for the amend, or without a socket for the REST cancel, of the exchange id in that response; the answer to the amend asks for the cancel of the id given last; the order then waits for the answer; and nothing else is asked for. |
| `TradingTrip.MessageChangesOne` | okx/orders/ws_order_round_trip.cpp:49-60 | In every run an order message changes exactly the order it names, as the life of an order says; an order whose life has ended leaves the store, and a slot empties exactly when its order leaves. |
| `TradingTrip.TimeoutAsksIff` | okx/orders/order_timeout_monitor.cpp:34-52 | In every run the timeout check asks the exchange and reconciles if and only if a stored order that is PendingNew, PendingCancel or PendingAmend is overdue. |
| `Engine.Engine.constructor` | okx/engine/engine.cpp:53-95 | A new engine is the initial state with the id counter of its process, whatever it is. |
| `Engine.Engine.GenerateId` | okx/orders/order_types.cpp:6-15 | The counter moves past both its last value and the wall clock. |
| `Engine.Engine.PlaceSide` | okx/strategy/naive_quoter.cpp:155-182 | The store, limiter, counter, slot and log in place take exactly the placement step that `TradingQuotes.QuoterAsksFor` is about, throws included. |
| `Engine.Engine.ReplaceSide` | okx/strategy/naive_quoter.cpp:117-153 | In place, exactly the replacement step: place, skip, be refused, amend or throw. |
| `Engine.Engine.Amend` | okx/strategy/naive_quoter.cpp:138-152 | In place, exactly the amend step; it throws only when the message does not fit. |
| `Engine.Engine.Requote` | okx/strategy/naive_quoter.cpp:103-111 | In place, exactly the requote step: the batch opened, both sides in order, the batch closed, then the new mid; a throw leaves the batch open. |
| `Engine.Engine.OnBookUpdate` | okx/strategy/naive_quoter.cpp:42-60 | Requotes exactly on the first full book and when the mid has moved by more than the threshold. |
| `Engine.Engine.OnTimer` | okx/strategy/naive_quoter.cpp:87-101 | In place, exactly the timer step: the empty slots filled inside one batch. |
| `Engine.Engine.OnOrderRemoved` | okx/strategy/naive_quoter.cpp:77-85 | Clears the slot that names the order. |
| `Engine.Engine.ApplyOrderEvent` | okx/orders/ws_order_round_trip.cpp:49-60 | In place, exactly the event step; it does not throw. |
| `Engine.Engine.Trigger` | okx/risk/kill_switch.cpp:13-34 | The latch and the loops call exactly the cancels of the specification, once, up to the first that throws. |
| `Engine.Engine.CollectCancels` | okx/risk/kill_switch.cpp:20-27 | Collects instrument and exchange id of exactly the orders that can be cancelled. |
| `Engine.Engine.HandleOrderEvent` | okx/engine/engine.cpp:194-213 | Fill, loss limit and event in place, in that order, as the step that `TradingPosition.PositionIsTold` and `TradingTrip.MessageChangesOne` are about; a cancel that throws ends it before the event is applied. |
| `Engine.Engine.Reconcile` | okx/orders/reconciliation.cpp:26-81 | The REST query and then the store and slots end as the reconciliation step says, throws included. |
| `Engine.Engine.CheckTimeouts` | okx/orders/order_timeout_monitor.cpp:34-52 | The loop asks the exchange and reconciles exactly when some stored order is pending and overdue; otherwise nothing changes. |
| `Engine.Engine.Start` | okx/orders/ws_order_round_trip.cpp:27-47 | Places over the socket and tracks the response, or by REST under a new id with a REST cancel when accepted; throws included. |
| `Engine.Engine.HandleLoginEvent` | okx/engine/engine.cpp:160-188 | Subscribe, query, reconcile, then start unless triggered or over a risk limit; each may throw. |
| `Engine.Engine.OnOrderResponse` | okx/orders/ws_order_round_trip.cpp:70-95 | In place, exactly the step of the first response, throws included. |
| `Engine.Engine.OnAmendResponse` | okx/orders/ws_order_round_trip.cpp:97-114 | In place, exactly the step of the second response, throws included. |
| `Engine.Engine.OnCancelResponse` | okx/orders/ws_order_round_trip.cpp:116-122 | In place, exactly the step of the third response, throws included. |
| `Engine.Engine.Dispatch` | okx/connectivity/ws_response_demux.cpp:12-27 | A response is taken once, by the handler tracked under its id. |
| `Engine.Engine.Handle` | okx/engine/engine.cpp:82-213 | Every turn of the event loop takes exactly the step of the transition system, and where it throws the calls made are those of the step, so all run theorems hold of the object. |

## Left out

- TLS, sockets, HTTP, the WebSocket handshake, login signing, bootstrap, configuration and the chart generator: input and output, or foreign code.
- Floating-point rounding: prices, quantities and percentile ranks are exact, and negative percentiles are outside the model.
- Price formatting and parsing (`FormatPrice`, `ParseDouble`, `ParseLL`): formatted prices and parsed numbers are inputs.
- `TicksToNanos`: samples are recorded in nanoseconds.
- Overflow of 64-bit counters (histogram counts, order ids, log drops): they are unbounded here.
- Lengths with the top bit set, which section 5.2 of RFC 6455 forbids: the run of the receive pipeline ends there with a fault of its own; only `WebSocketFrame.FrameConsumesItsBytes` follows the code past that point.
- State carried across reconnects, heartbeats, and the latency traces of sent messages: every pipeline theorem is about one connection.
- `EncodeClose` of the control codec: it would only add an easy member.
- WsClient.Client.OnRead: when a reply overflows the transmit ring it only says that what was dispatched is a prefix of what the chunk would give, because the source throws in the middle of the loop.
- WsClient.Client.SendReply: payloads of 2^63 bytes or more cannot exist in memory and are excluded, and replies are control frames.
- Finding `data`, `bids` and the ids inside a book message: `OrderBook` starts from the fields found, and `FindValueStart` is a textual first match at any depth, so no structural law holds of it.
- JsonScanner.ForEachElement: where the loop of the source reports an empty element for ever, the model stops and says that it diverges.
- RFC 8259 restricts numbers, escapes and control characters more than the grammar in `Json` does, so the results hold for more texts.
- Every accepted log record is printed at shutdown: the writer reads `tail_` before `running_`, so the code does not decide this.
- At most one live order per side: `ReplaceSide` places again while the first order has no exchange id.
- OrderStore.OrderStore.Add: an id that is already stored goes in too, as in the source, but the order of the slab is then not promised; every caller is proved to give an id that is not stored.
- Ids used by both sides: it is assumed that an id the exchange has listed is not generated for an order later (the only assumption on lists). `TradingLimits.PassedIdsAllowed` shows that this holds whenever the counter has passed the listed ids; `OrderStore.OrderStore.Add` says what happens otherwise.
- Pending timestamps: which orders are overdue is an input to the time-out check, and only stored pending ones make it ask the exchange.
- The size and notional limits of the pre-trade risk check: one input; the limit on open orders is modelled.
- The occupancy of the transmit ring inside the engine: whether a message fits is an input there. `TradingWire.QuoterFindsRoom` derives it for the quoter while no write is in flight; with a write in flight, and for the round trip, only `WsClient.Client.WriteRaw` says when a message fits.
- Malformed JSON in exchange messages outside the pending-order list: parsed events are inputs.
- Objects of the engine: the fields of quoter, round trip, demultiplexer and kill switch are fields of one object, and the removal listener is called after each removal, or after the last one in reconciliation; it only touches the slots, so the order does not show.
- Orders held by the engine are values in the slots of the store, as in the source; `OrderLifecycle.OrderObject` is the same code as an object.
- SBE field loads, account balances and the batch-order message: they would only add easy members.

# CatTag in Dafny

A model of the state machines and codecs behind the CatTag Bluetooth library, with proofs of what they keep.
Each component has one module: step functions on values, classes whose methods do what the Go methods do and are
proved to make those steps, and lemmas about single steps and about every run.

- `MessageEngine`: bounded priority queues, the weighted scheduler with its counter reset, and the output channel.
- `RateLimiter`: the token bucket, over real time.
- `FileTransfer`: the chunking sender and the reassembling receiver, over a network that reorders, repeats and loses.
- `Bytes`, `Crc32`, `JsonText`, `FrameCodec`: RFCOMM and L2CAP frames with their CRC-32, modelled from clause 3.2.9 of
  IEEE Std 802.3, and as much of JSON (RFC 8259) as tells where a text ends.
- `ReflectedCrc`, `WireFormat`: the checksum as RFC 1952 computes it, its check value, and the frame byte by byte.
- `ShortChecksums`, `LongFrames`: the message lengths at which a frame is safe from bursts, and damaged messages of all
  others.
- `LoadBalancer`, `ConnectionPool`: connection choice, and the pool that evicts the least important member.
- `ReliableDelivery`, `Deduplicator`, `Reconnect`: retransmission, duplicate suppression, exponential backoff.
- `SessionManager`, `TimeoutManager`, `ResourceManager`, `ServerConnection`: the server's three tables and the handler
  that changes them together.
- `DeviceCache`: three tables that share device objects on the heap.
- `AlertThrottle`: the sliding-window alert filter.
- `Arith`, `Collections`, `Wrappers`: shared facts and types.

A method that holds a mutex is one atomic step, and goroutines, tickers and timers are arbitrary orders of steps. Time is
an integer count of nanoseconds that each step is given, a real number in the token bucket. What comes from outside (the
answer of a send, of the security manager or of a user's callback, a random draw, a generated ID, a checksum function)
is a parameter.

`dafny verify dfyconfig.toml` checks everything.

Some statements one would expect are false of the code. They are proved as exact conditions instead:

- The receiver's buffer can equal the file before all chunks have arrived: exactly when the missing chunks are all zero
  (`FileTransfer.BufferIsFile`, `FileTransfer.EqualExactlyWhenComplete`).
- From 4 GiB on, where the 32-bit length field is cut, a message does not come back: decoding it is an error
  (`FrameCodec.MessageRoundTrip`).
- From 4 GiB on a burst of errors can go unnoticed although checksums are on: exactly at the lengths that are not
  multiples of 2^32 (`LongFrames.BurstsRejectedIffLength`, with the messages and bursts of `LongFrames.UnsafeLength`).
- The memory limit can be passed, because its sum wraps at 64 bits (`ResourceManager.BudgetIffNoOverflow`, with the
  witness `ResourceManager.FullBudgetAdmitsMore`).
- OnTimeout can run after OnAck: for some run exactly when maxRetries is 2 or more, from a given state exactly when a
  resend is due (`ReliableDelivery.TimeoutAfterAckIffRetries`, `ReliableDelivery.TimeoutAfterAckIffResendDue`).
- A connection whose end the session notices first leaves its resource and timeouts behind
  (`ServerConnection.LateDisconnectLeavesResource`), and the timeout left behind closes the device's next session
  (`ServerConnection.StaleTimeoutClosesNextSession`, in one run `ServerConnection.FirstSetUpClosesSecond`). So does the
  late end of a closed session's connection (`ServerConnection.ClosedSessionEndsNext`).
- The connect timeout set up with a session is never removed by a log-in, and closes the session at its deadline unless
  something else intervenes (`ServerConnection.ConnectTimeoutOutlivesLogIn`).
- Being idle ends no session: the sweep goes by age alone (`SessionManager.OnlyAgeEndsSession`).
- Alerts of different rules or components can be throttled together: exactly when underscores make their keys equal
  (`AlertThrottle.SharedKeyIff`, with the witness `AlertThrottle.KeysCollide`).
- The branch of CreateSession that replaces a closed or expired session is never taken (`ServerConnection.StageFacts`).
- A device with the empty ID is never evicted, and a full cache grows past it: exactly when it is the least recently
  seen of the unprotected devices (`DeviceCache.FullCacheGrowsIff`, `DeviceCache.EmptyIDOutlivesAll`, with the witness
  `DeviceCache.EmptyIDMakesCacheGrow`).
- The paired view can show old data: exactly for a device that left the cache while paired and had news since
  (`DeviceCache.PairedShowsLatestIffNotMissed`, with the witness `DeviceCache.SeenAgainShowsOld`), and from then on until
  it is unpaired (`DeviceCache.StaleUntilUnpaired`).

## Model

| member | source | states |
|---|---|---|
| MessageEngine.Conservation | pkg/bluetooth/concurrent_message_handler.go:426-503 | after every run, for each priority, what was dispatched followed by what is queued is exactly what was accepted, in order; consumed, in the channel and held is exactly what was dispatched; refused offers equal the drop counts; no queue exceeds its capacity |
| MessageEngine.RunKeepsValid | pkg/bluetooth/concurrent_message_handler.go:426-503 | every step of every run keeps the queue, FIFO and output-order laws |
| MessageEngine.NoStarvation | pkg/bluetooth/concurrent_message_handler.go:468-503 | a priority that keeps a message waiting while the scheduler is not held up by a full output is served within `Wait` ticks of any counter state, hence within 30, whatever is offered or consumed meanwhile |
| MessageEngine.NoStarvationFromStart | pkg/bluetooth/concurrent_message_handler.go:468-503 | the 30-tick bound holds after any run from the initial state |
| MessageEngine.ServedNoSooner | pkg/bluetooth/concurrent_message_handler.go:468-503 | with all four queues backlogged nothing of a priority goes out before tick `Wait`, so the bound is exact |
| MessageEngine.LowWaitsThirtyTicks | pkg/bluetooth/concurrent_message_handler.go:468-503 | a Low message behind a spent credit does wait 29 ticks of full backlog |
| MessageEngine.LowCreditSpentIsReachable | pkg/bluetooth/concurrent_message_handler.go:468-503 | the spent-credit state of the previous row is reached from the initial state |
| MessageEngine.SharesBetweenResets | pkg/bluetooth/concurrent_message_handler.go:468-503 | between two resets a priority dispatches one message per credit, never more than its weight |
| MessageEngine.CycleShares | pkg/bluetooth/concurrent_message_handler.go:170-176 | while all queues stay backlogged a 16-tick cycle after a reset dispatches exactly 8, 4, 2 and 1 and resets again |
| MessageEngine.OfferGoesByCode | pkg/bluetooth/concurrent_message_handler.go:426-436 | a message of code 3, 2, 1 or 0 goes to the back of the critical, high, normal or low queue unless that is full, then it is counted there as dropped; any other code is an error; no other queue or counter changes |
| MessageEngine.QueuesHoldTheirCodes | pkg/bluetooth/concurrent_message_handler.go:156-161 | in every reachable state the four queues hold messages of code 3, 2, 1 and 0 only |
| MessageEngine.TickSendsGreatestCode | pkg/bluetooth/concurrent_message_handler.go:468-503 | a tick that sends a message of code k leaves no message of a greater code in a queue with credit left (8, 4, 2 and 1 for codes 3 to 0), takes the head of its queue and charges its counter; a tick that sends nothing found no such queue and resets the counters |
| MessageEngine.CriticalOvertakesHigh | pkg/bluetooth/constants.go:40-44 | witness: of a message of code 2 and one of code 3 offered after it the tick sends the second |
| MessageEngine.MessageQueue.Enqueue | pkg/bluetooth/message_handler.go:73-100 | accepts at the back unless full; a refusal is counted in the drop counter and changes nothing else |
| MessageEngine.MessageQueue.TryReceive | pkg/bluetooth/message_handler.go:102-105 | takes the front message, or nothing from an empty queue |
| MessageEngine.PriorityEngine.constructor | pkg/bluetooth/concurrent_message_handler.go:156-184 | queue capacities a quarter, a quarter, a half and a quarter of the size; weights 8, 4, 2, 1; zero counters |
| MessageEngine.PriorityEngine.Enqueue | pkg/bluetooth/concurrent_message_handler.go:426-436 | routes by priority code; an unknown code is an error that changes nothing |
| MessageEngine.PriorityEngine.ScheduleNext | pkg/bluetooth/concurrent_message_handler.go:468-503 | refines the tick of the specification: first priority in order with budget and a message, one credit charged, or all counters reset |
| MessageEngine.PriorityEngine.Receive | pkg/bluetooth/concurrent_message_handler.go:606-619 | the distributor receives in channel order and lets a blocked message in |
| RateLimiter.GrantsConform | pkg/bluetooth/concurrent_message_handler.go:511-532 | for a non-decreasing clock, the grants between any two calls never exceed maxTokens + refillRate times the time between them |
| RateLimiter.RefusedOnlyWhenFull | pkg/bluetooth/concurrent_message_handler.go:511-532 | from a full bucket, a call is refused exactly when granting it would break that limit for some window ending with it |
| RateLimiter.SpacedCallsGranted | pkg/bluetooth/concurrent_message_handler.go:511-532 | with maxTokens at least 1, calls at least 1/refillRate apart are never refused |
| RateLimiter.BeforeFacts | pkg/bluetooth/concurrent_message_handler.go:511-532 | tokens stay within [0, maxTokens] in every reachable state |
| RateLimiter.Limiter.constructor | pkg/bluetooth/concurrent_message_handler.go:197-204 | the bucket starts full |
| RateLimiter.Limiter.Allow | pkg/bluetooth/concurrent_message_handler.go:511-532 | refines the bucket step: refill capped at the burst, then take one token if there is one |
| FileTransfer.ArrivalsAccounted | examples/file-transfer/main.go:327-438 | for every file, chunk size, sequence of arrivals and answers of the disk: received ranges are right, the rest is zero, the received set is the set of distinct indices, and completion fired once if it is full and never before |
| FileTransfer.BufferIsFile | examples/file-transfer/main.go:327-374 | the buffer equals the file if and only if every missing chunk consists of zero bytes |
| FileTransfer.EqualExactlyWhenComplete | examples/file-transfer/main.go:327-374 | "buffer equals file exactly when all chunks are counted" holds for every arrival order if and only if no chunk of the file is all zero |
| FileTransfer.CompletionDeliversFile | examples/file-transfer/main.go:370-438 | for a non-empty file completion has fired, once, exactly when all chunks are counted; then the buffer is the file, and the transfer is completed or failed as the file could be saved when the last missing chunk came |
| FileTransfer.CompletedIffChecksum | examples/file-transfer/main.go:398-438 | for every announcement and any chunk contents: completion fires once, when as many different chunks are counted as announced; the transfer is then completed if and only if the disk took the file and the announced checksum is empty or that of the buffer, else failed, for good |
| FileTransfer.DeliverCounts | examples/file-transfer/main.go:327-374 | one message: a counted number changes nothing, another is counted and its bytes put at index*chunkSize and nowhere else; the one that reaches the total decides the status by checksum and disk |
| FileTransfer.DamagedFileFails | examples/file-transfer/main.go:398-406 | witness: a one-byte file damaged on the way fails although the disk would take it |
| FileTransfer.ChunksCoverFile | examples/file-transfer/main.go:522-588 | the sender's chunks concatenated in order are the file |
| FileTransfer.ChunkHolds | examples/file-transfer/main.go:567-588 | byte k travels in chunk k / chunkSize and in no other, at the place the receiver copies it to |
| FileTransfer.ChunkOfByte | examples/file-transfer/main.go:522 | the chunk number of every byte is below the chunk count |
| FileTransfer.ChunkBounds | examples/file-transfer/main.go:522-588 | a chunk number is in range exactly when its first byte is inside the file |
| FileTransfer.App.SendFileChunks | examples/file-transfer/main.go:564-601 | sends chunk 0, 1, ... up to the first one the network refuses, each sliced at i*chunkSize |
| FileTransfer.App.HandleFileInfo | examples/file-transfer/main.go:293-324 | opens a zeroed buffer of the announced size under the transfer's ID |
| FileTransfer.App.HandleChunk | examples/file-transfer/main.go:327-374 | unknown transfers and duplicates change nothing; a new chunk is copied at index*chunkSize and counted; the last one completes |
| FileTransfer.Transfer.Copy | examples/file-transfer/main.go:341-342 | copies as many bytes as fit behind the offset and changes no other byte |
| FileTransfer.Transfer.Complete | examples/file-transfer/main.go:398-438 | fails on a checksum that is present and wrong or on a failed save, otherwise the transfer is completed |
| Crc32.ChecksumIsRemainder | internal/protocol/protocol.go:385-387 | the checksum of any byte string is the complemented remainder of the polynomial division of clause 3.2.9 of IEEE Std 802.3 |
| ReflectedCrc.ChecksumIsUpdated | internal/protocol/protocol.go:385-387 | the checksum is, bit by bit, the complement of the 32-bit word that the loops in section 8 of RFC 1952 compute with shifts and exclusive or |
| ReflectedCrc.CheckValue | internal/protocol/protocol.go:385-387 | the checksum of the digits 1 to 9 is 0xCBF43926 |
| ReflectedCrc.TapsArePolynomial | internal/protocol/protocol.go:385-387 | the taps of the register are the bits of 0xEDB88320 |
| Crc32.BurstDetected | internal/protocol/protocol.go:385-387 | two byte strings of equal length that differ only inside 32 consecutive bits have different checksums, for every length and position |
| Crc32.GeneratorUndetected | internal/protocol/protocol.go:385-387 | the bound 32 is sharp: adding the 33 coefficients of the generator goes unnoticed |
| Crc32.DivisionStep | internal/protocol/protocol.go:385-387 | one clock of the shift register is one step of the long division |
| WireFormat.FrameLayout | internal/protocol/protocol.go:131-174 | every byte of an encoded frame by its place: version, type, length, sequence, flags, reserved, payload, checksum, magic number, little-endian |
| WireFormat.DecodesInOrder | internal/protocol/protocol.go:177-207 | what any bytes decode to, told by their places: too short, too long a payload announced, wrong checksum, wrong magic number, not JSON, in this order, or the payload |
| WireFormat.FramesOfOne | internal/protocol/protocol.go:131-174 | witness: the 23 bytes of the message 1 as either handler sends it |
| FrameCodec.BurstRejected | internal/protocol/protocol.go:131-207 | with checksums on, a frame whose payload is altered by any nonzero burst within 32 consecutive bits is rejected for its checksum, for every length below 2^32 and every position; beyond, it is delivered exactly when the damaged payload holds a footer behind a part that reads as JSON |
| LongFrames.BurstsRejectedIffLength | internal/protocol/protocol.go:131-207 | no burst within 32 consecutive bits on the payload of any message of a given length goes unnoticed, if and only if the length is below 2^32 or a multiple of 2^32 |
| LongFrames.SafeLength | internal/protocol/protocol.go:131-207 | at those lengths every burst on every payload is rejected, for any reader that takes nothing but JSON texts |
| LongFrames.UnsafeLength | internal/protocol/protocol.go:131-207 | at every other length the text of a JSON string and a burst on it, written out, whose frame either handler accepts; for RFCOMM the text is valid UTF-8 |
| ShortChecksums.TopByteOfText | internal/protocol/protocol.go:385-387 | whatever precedes it, one of the letters a, i, q, y followed by a quotation mark brings the last checksum byte into 0x80..0xBF |
| FrameCodec.FrameRoundTrip | internal/protocol/protocol.go:390-458 | decoding an encoded frame returns the frame, whatever follows it, exactly when the length limit the decoder cuts to 32 bits admits it |
| FrameCodec.ReencodeReproducesInput | internal/protocol/protocol.go:390-458 | encoding any accepted decode reproduces the first 22+Length bytes of the input |
| FrameCodec.MessageRoundTrip | internal/protocol/protocol.go:131-207 | a message whose JSON text is shorter than 2^32 bytes is delivered as it was sent; a longer one is an error, never another message |
| FrameCodec.ForeignFrameRejected | internal/protocol/protocol.go:177-207 | neither protocol's decoder delivers a message the other one encoded, checksums on or off, at every length |
| FrameCodec.FrameLayerRoundTrip | internal/protocol/protocol.go:390-458 | before the payload is read as JSON, any payload comes back if and only if its length is below 2^32 |
| FrameCodec.ForeignFrameOnFrameLayer | internal/protocol/protocol.go:177-198 | before the payload is read as JSON, a foreign frame passes exactly when its payload has 2^32 bytes or more and itself holds a footer of the decoder |
| FrameCodec.SomeTextHoldsFooter | internal/protocol/protocol.go:177-204 | it takes the JSON step: without checksums the text of some JSON string holds an RFCOMM footer |
| FrameCodec.FooterIsNotBehindJson | internal/protocol/protocol.go:199-204 | no JSON text holds a footer behind a part of it that is JSON itself |
| JsonText.PrefixDocumentIffWord | internal/protocol/protocol.go:133-204 | a proper prefix of a JSON value's text is a JSON text only if the value is a number or literal; a string, array or object has none |
| JsonText.PrefixDocumentIsAscii | internal/protocol/protocol.go:133-204 | so only plain ASCII text has a JSON text as a proper prefix |
| FrameCodec.LongFrame | internal/protocol/protocol.go:415-458 | a frame longer than its length field is read as far as the field says, and the next eight payload bytes are its footer |
| FrameCodec.HeaderRoundTrip | internal/protocol/protocol.go:390-445 | the six header fields are read back from the 22 bytes written |
| FrameCodec.ProtocolHandler.SetMTU | internal/protocol/protocol.go:226-232 | a positive MTU is set; any other is an error that leaves it unchanged |
| FrameCodec.ProtocolHandler.EncodeFrame | internal/protocol/protocol.go:390-412 | the bytes of the header fields in order, then the payload |
| FrameCodec.ProtocolHandler.EncodeMessage | internal/protocol/protocol.go:131-174 | an error exactly when the message has no JSON text or text and overhead exceed the MTU, without using a sequence number; else the frame's bytes, at most the MTU, and the sequence number advances modulo 2^32 |
| FrameCodec.ProtocolHandler.DecodeFrame | internal/protocol/protocol.go:415-458 | refines the parser: too short an input and a length beyond it are the errors |
| FrameCodec.ProtocolHandler.DecodeMessage | internal/protocol/protocol.go:177-207 | checksum first, then magic number, then the payload must read as JSON |
| FrameCodec.ProtocolHandler.ValidateMessage | internal/protocol/protocol.go:210-218 | accepts exactly the lengths from 1 to the MTU |
| ConnectionPool.PoolLedger | pkg/bluetooth/connection_pool.go:96-158 | after every run: size at most max(maxConnections, 0), every key its connection's device ID, total equals members plus the members removed on the way, as many were closed, and a connection that was a member at any earlier moment is one still or has been closed |
| ConnectionPool.LeaversAreClosed | pkg/bluetooth/connection_pool.go:96-477 | over every run from any pool a member stays with its connection or has had it closed |
| ConnectionPool.ClosesLeavers | pkg/bluetooth/connection_pool.go:96-477 | an event closes the connections of exactly the members it removes, once each, and every other member keeps its own |
| ConnectionPool.RunKeepsLawful | pkg/bluetooth/connection_pool.go:96-477 | every event of every run keeps the pool's laws |
| ConnectionPool.EvictionSparesTheBetter | pkg/bluetooth/connection_pool.go:303-365 | on arrival or by a lower maximum, an evicted member has at most the priority of every kept one, on equal priority at most its health, on equal health at most its use count |
| ConnectionPool.RankingGoesByFields | pkg/bluetooth/connection_pool.go:311-327 | the order of eviction goes by priority, then health, then use count, the smaller first |
| ConnectionPool.LowestPriorityMakesRoom | pkg/bluetooth/connection_pool.go:96-137 | at a full pool the one member of lowest priority is closed and makes room for the newcomer, which starts unused with health 1, weight 1 and its recorded or normal priority; nothing else changes |
| ConnectionPool.SetMaxRemovesExactly | pkg/bluetooth/connection_pool.go:193-204 | lowering the capacity removes exactly the excess, the lowest ranked, and no more |
| ConnectionPool.PoolSelectionIsFair | pkg/bluetooth/connection_pool.go:249-282 | over selections on a fixed active set the spread of use counts never exceeds max(1, initial spread), and n*k selections from equal counts give everyone k more |
| ConnectionPool.PoolRunIsLeastUsedRun | pkg/bluetooth/connection_pool.go:249-282 | selections through the pool are a least-used run of the balancer on the active members |
| ConnectionPool.ConnectionPoolImpl.AddConnection | pkg/bluetooth/connection_pool.go:96-137 | a known device is refused, a full pool evicts its lowest ranked member or refuses, a newcomer starts with its recorded priority |
| ConnectionPool.ConnectionPoolImpl.RemoveConnection | pkg/bluetooth/connection_pool.go:140-158 | closes and removes the device's connection, or reports it missing |
| ConnectionPool.ConnectionPoolImpl.GetConnection | pkg/bluetooth/connection_pool.go:161-177 | a hit counts one more use and the time |
| ConnectionPool.ConnectionPoolImpl.SetMaxConnections | pkg/bluetooth/connection_pool.go:193-204 | sets the capacity and drops the lowest ranked excess |
| ConnectionPool.ConnectionPoolImpl.SetConnectionPriority | pkg/bluetooth/connection_pool.go:217-229 | records the priority for the device and its member if present |
| ConnectionPool.ConnectionPoolImpl.SelectConnection | pkg/bluetooth/connection_pool.go:249-282 | picks a least used active member and counts its use, or reports why it cannot |
| ConnectionPool.ConnectionPoolImpl.PerformMaintenance | pkg/bluetooth/connection_pool.go:429-477 | drops exactly the idle, over-age and inactive members |
| ConnectionPool.ConnectionPoolImpl.Close | pkg/bluetooth/connection_pool.go:285-300 | closes and drops every member |
| ConnectionPool.ConnectionPoolImpl.Ranked | pkg/bluetooth/connection_pool.go:303-365 | lists every member once in a non-decreasing order of importance |
| LoadBalancer.WeightedSelectionIsExact | pkg/bluetooth/load_balancer.go:74-108 | for non-negative weights the number of draws in [0, total) that select entry i is its weight |
| LoadBalancer.FallbackUnreachable | pkg/bluetooth/load_balancer.go:74-108 | the fallback to the first entry is never reached: the draw lies in the chosen entry's slice, whose weight is positive |
| LoadBalancer.WeightedBalancer.Select | pkg/bluetooth/load_balancer.go:74-134 | refines the slice rule: each entry weighs its recorded weight, else its own; a zero total draws any entry |
| LoadBalancer.WeightedBalancer.UpdateWeight | pkg/bluetooth/load_balancer.go:111-120 | a weight of zero or less is forgotten, so recorded weights stay positive |
| LoadBalancer.RoundRobinBalancer.Select | pkg/bluetooth/load_balancer.go:38-54 | the entry at the cursor, which restarts when the list is shorter |
| LoadBalancer.EachGetsOneTurn | pkg/bluetooth/load_balancer.go:38-54 | of any n selections in a row from a list of n each entry gets exactly one |
| LoadBalancer.SelectLeastUsed | pkg/bluetooth/load_balancer.go:142-162 | the first entry of least use count; none exactly when every counter is saturated |
| LoadBalancer.SpreadNeverGrows | pkg/bluetooth/load_balancer.go:142-162 | least-used runs never let the spread of counts exceed max(1, initial spread) |
| LoadBalancer.EqualShares | pkg/bluetooth/load_balancer.go:142-162 | n*k selections from equal counts give each of the n exactly k more |
| ReliableDelivery.SendIsBounded | pkg/bluetooth/reliable_message_handler.go:159-252 | one send causes at most the limit of transmissions under any order of acks, failures and timers; a pending entry has exactly one live activity and fewer retries than the limit; each callback runs at most once |
| ReliableDelivery.UnansweredSend | pkg/bluetooth/reliable_message_handler.go:199-252 | with no ack and no failure a send ends after exactly the limit of transmissions, in one timeout callback |
| ReliableDelivery.AtMostOneAfterRemoval | pkg/bluetooth/reliable_message_handler.go:215-304 | after an ack, or any other removal, at most one further transmission happens |
| ReliableDelivery.TimeoutAfterAckIffRetries | pkg/bluetooth/reliable_message_handler.go:215-304 | some run of one send calls OnTimeout after OnAck if and only if maxRetries is 2 or more |
| ReliableDelivery.TimeoutAfterAckIffResendDue | pkg/bluetooth/reliable_message_handler.go:230-304 | after an ack a timeout callback can still run exactly when a resend was scheduled or about to be made at the ack |
| ReliableDelivery.AckThenTimeout | pkg/bluetooth/reliable_message_handler.go:240-252 | the run that shows it: the due resend is made and fails, one transmission and both callbacks later nothing is left |
| ReliableDelivery.ResendBecomesDue | pkg/bluetooth/reliable_message_handler.go:199-252 | with maxRetries of 2 or more a pending entry does reach that state |
| ReliableDelivery.NoResendWithoutRetries | pkg/bluetooth/reliable_message_handler.go:226-238 | with maxRetries of 1 or less no resend is ever due |
| ReliableDelivery.NoTimeoutWithoutResend | pkg/bluetooth/reliable_message_handler.go:215-252 | an entry off the table with no resend due never reports a timeout again |
| ReliableDelivery.ReliableHandler.Start | pkg/bluetooth/reliable_message_handler.go:159-185 | one pending entry with zero retries joins the table |
| ReliableDelivery.ReliableHandler.TransmitFirst | pkg/bluetooth/reliable_message_handler.go:185-212 | success arms a timer, failure removes the entry |
| ReliableDelivery.ReliableHandler.TransmitAgain | pkg/bluetooth/reliable_message_handler.go:230-252 | a resend arms a new timer; its failure removes the entry and reports a timeout |
| ReliableDelivery.ReliableHandler.HandleMessageTimeout | pkg/bluetooth/reliable_message_handler.go:215-252 | counts a retry and schedules a resend, or gives up once at the limit; unknown IDs change nothing |
| ReliableDelivery.ReliableHandler.ProcessAckMessage | pkg/bluetooth/reliable_message_handler.go:284-304 | an ack of a pending entry removes it, stops its timer and runs its callback; any other ID changes nothing |
| ReliableDelivery.ReliableHandler.Stop | pkg/bluetooth/reliable_message_handler.go:141-156 | no pending entry is left and every timer is stopped |
| Deduplicator.DuplicateIffRemembered | pkg/bluetooth/reliable_message_handler.go:316-342 | a message is reported duplicate exactly when an earlier acceptance of its ID was not found too old by a cleanup in between |
| Deduplicator.AcceptancesFarApart | pkg/bluetooth/reliable_message_handler.go:66-108 | whatever cleanups ran, two acceptances of one ID are more than messageTimeout apart |
| Deduplicator.MemoryHasOrigin | pkg/bluetooth/reliable_message_handler.go:98-108 | every ID in the pruned table was accepted at the recorded time |
| Deduplicator.MessageDeduplicator.Cleanup | pkg/bluetooth/reliable_message_handler.go:98-108 | drops exactly the IDs older than the timeout |
| Deduplicator.MessageDeduplicator.ProcessIncoming | pkg/bluetooth/reliable_message_handler.go:316-342 | a duplicate goes no further; a new ID is recorded; data messages are acknowledged either way |
| Reconnect.GivesUpAfterAllAttempts | pkg/bluetooth/reconnect_manager.go:63-103 | one ScheduleReconnect against a never-answering peer leads to at most R calls less the attempts its enabled entry already counts; the entry is disabled after exactly that many, and by then more than the sum of their backoff delays has passed |
| Reconnect.FailingFollowsSchedule | pkg/bluetooth/reconnect_manager.go:194-255 | the k-th call after a attempts comes later than min(base*2^(a+k-1), 30 minutes) after it was scheduled |
| Reconnect.SpacedSweepsReachTheEnd | pkg/bluetooth/reconnect_manager.go:194-255 | sweeps spaced by more than the ceiling do make all the calls left |
| Reconnect.CountedWithinLimit | pkg/bluetooth/reconnect_manager.go:63-174 | every reachable entry may be the starting one: its attempts are within R |
| Reconnect.AttemptsWithinLimit | pkg/bluetooth/reconnect_manager.go:63-174 | in every reachable state an enabled task has at most R attempts |
| Reconnect.DelayDoubles | pkg/bluetooth/reconnect_manager.go:93-101 | the first delay is the interval and each further one twice the one before, both up to the ceiling |
| Reconnect.AnsweredStartsOver | pkg/bluetooth/reconnect_manager.go:226-236 | after an answered call no sweep calls again, and the next schedule starts over with one attempt and the first delay |
| Reconnect.ReconnectManager.Backoff | pkg/bluetooth/reconnect_manager.go:93-101 | the delay computed step by step is min(base*2^(attempts-1), ceiling) |
| Reconnect.ReconnectManager.ScheduleReconnect | pkg/bluetooth/reconnect_manager.go:63-103 | creates or advances the device's entry, or disables it when the attempts are used up; other devices are untouched |
| Reconnect.ReconnectManager.StopReconnect | pkg/bluetooth/reconnect_manager.go:106-113 | disables the device's entry and keeps its counters |
| Reconnect.ReconnectManager.ResetReconnectTask | pkg/bluetooth/reconnect_manager.go:164-174 | zero attempts, base delay, enabled; the time of the next attempt stays |
| Reconnect.ReconnectManager.ClearReconnectTask | pkg/bluetooth/reconnect_manager.go:156-161 | forgets the device |
| Reconnect.ReconnectManager.Attempt | pkg/bluetooth/reconnect_manager.go:194-255 | connects only when enabled and due; success disables the entry with zero attempts, failure schedules the next; other devices are untouched |
| ServerConnection.FailedSetUpLeavesNothing | pkg/bluetooth/server_connection_handler.go:85-145 | in every lawful state, a failing OnConnected leaves the session and resource tables as they were and adds no timeout; after the timeouts were set it also clears older ones of the device |
| ServerConnection.SetUpAddsOneSession | pkg/bluetooth/server_connection_handler.go:85-145 | a succeeding OnConnected adds exactly one live session, the resource it records, and its timeouts |
| ServerConnection.SetUpWrites | pkg/bluetooth/server_connection_handler.go:85-145 | field by field, the session, the timeouts with their deadlines and callbacks, and the resource a succeeding set-up writes |
| ServerConnection.StagesInOrder | pkg/bluetooth/server_connection_handler.go:85-145 | in which order a set-up can fail, on the tables and the answers: session limit and live session, resource limits, sending the request, the user's callback |
| ServerConnection.UnansweredRequestUndoesSetUp | pkg/bluetooth/server_connection_handler.go:117-131 | the authentication timeout is launched by exactly the checks past now + AuthTimeout, and takes the whole set-up back |
| ServerConnection.CleanUpTakes | pkg/bluetooth/server_connection_handler.go:475-488 | every timeout of the device, one reference of the resource, the device's session, and nothing else |
| ServerConnection.DisconnectUndoesConnect | pkg/bluetooth/server_connection_handler.go:147-171 | disconnecting restores the three tables, but for older timeouts of the device |
| ServerConnection.LateDisconnectLeavesResource | pkg/bluetooth/server_connection_handler.go:147-156 | if the session ended first, OnDisconnected changes nothing; both orders agree exactly when the device has no timeout and the session no resource left |
| ServerConnection.LateDisconnectAfterSetUp | pkg/bluetooth/server_connection_handler.go:147-156 | after every set-up whose session ends first, OnDisconnected leaves its resource and timeouts in the tables |
| ServerConnection.EndedSetUpStands | pkg/bluetooth/server_connection_handler.go:147-156 | a session whose connection ends first leaves its connect timeout standing and its resource in the table |
| ServerConnection.StaleTimeoutClosesNextSession | pkg/bluetooth/server_connection_handler.go:104-107 | a timeout that stands when its device connects again closes the new session when it fires and clears its timeouts; the new session's resource stays in the table unless it is the one the old session recorded |
| ServerConnection.FirstSetUpClosesSecond | pkg/bluetooth/server_connection_handler.go:104-156 | one run: a device is set up, its session ends with its connection, anything happens that leaves that set-up's connect timeout alone, the device is set up again; exactly the checks past the first deadline launch the first session's callback, which ends the second session, clears its timeouts and leaves its resource in the table unless that has the first one's ID |
| ServerConnection.ClosedSessionEndsNext | pkg/bluetooth/session_manager.go:349-358 | set up, disconnect, set up again: the end of the first session's connection, noticed late, takes the second session out of the table; its resource and connect timeout stay and no later OnDisconnected finds them |
| ServerConnection.ConnectTimeoutOutlivesLogIn | pkg/bluetooth/server_connection_handler.go:104-112 | through every run after a set-up that does not clear the device's timeouts, name the connect timeout or check it past its deadline, the timeout stands; a check launches it exactly if it comes past the deadline, and what it launches closes the device's session |
| ServerConnection.LogInKeepsConnectTimeout | pkg/bluetooth/server_connection_handler.go:337-341 | a log-in right after the set-up authenticates the session and removes the authentication timeout, not the connect timeout |
| ServerConnection.LogInLeavesAlone | pkg/bluetooth/server_connection_handler.go:337-361 | log-ins are among the events the run may contain |
| ServerConnection.LockedOutAfterMaxAttempts | pkg/bluetooth/server_connection_handler.go:307-335 | a session survives exactly the refused credentials that number fewer than MaxAuthAttempts; the next takes the session, its resource and its timeouts |
| ServerConnection.RunKeepsSound | pkg/bluetooth/server_connection_handler.go:85-488 | in every reachable state sessions and connection resources are within their limits, no session in the table is closed or expired, and an encrypted session is authenticated |
| ServerConnection.ManagerEvents | pkg/bluetooth/session_manager.go:228-436 | the events that reach one table leave the others alone; which of them authenticate, encrypt, touch the heartbeat of or sweep a session |
| ServerConnection.StageFacts | pkg/bluetooth/session_manager.go:147-158 | since no session in a reachable table is over, the replacement of an old session is never taken: creation succeeds only for a device without one |
| ServerConnection.ServerConnectionHandler.OnConnected | pkg/bluetooth/server_connection_handler.go:85-145 | the five outcomes of the set-up, in the order they are tried, and the three tables after each |
| ServerConnection.ServerConnectionHandler.OnDisconnected | pkg/bluetooth/server_connection_handler.go:147-171 | cleans up the device's session, or does nothing without one |
| ServerConnection.ServerConnectionHandler.SendMessage | pkg/bluetooth/server_connection_handler.go:252-285 | refused on a closed or expired session, or when encryption or sending fails; success counts as activity |
| ServerConnection.ServerConnectionHandler.StartAuthentication | pkg/bluetooth/server_connection_handler.go:290-304 | the session, in the table or not, is authenticating; the result is that of sending the request, and success counts as activity of the device's present session |
| ServerConnection.ServerConnectionHandler.HandleAuthMessage | pkg/bluetooth/server_connection_handler.go:307-361 | failures are counted up to the limit, success removes the authentication timeout and activates the session; for a session the table no longer holds, the device's present session is the one authenticated and encrypted |
| ServerConnection.ServerConnectionHandler.OnMessage | pkg/bluetooth/server_connection_handler.go:174-200 | before authentication only credentials pass; what is passed on comes from an authenticated session if authentication is required |
| ServerConnection.ServerConnectionHandler.HandleTimeout | pkg/bluetooth/server_connection_handler.go:384-415 | ends in the cleanup of the session the timeout was made for |
| ServerConnection.ServerConnectionHandler.Cleanup | pkg/bluetooth/server_connection_handler.go:475-488 | clears the device's timeouts, releases the session's resource, closes whatever session the device has |
| SessionManager.CreatedUnless | pkg/bluetooth/session_manager.go:139-177 | a session is created unless the limit is reached or the device's present one is neither closed nor expired, and starts with no authentication, encryption or metadata |
| SessionManager.SweptIff | pkg/bluetooth/session_manager.go:397-436 | a session is swept exactly when it is older than its timeout, or silent for longer than both limits; one that stays is idle if silent for longer than the idle limit |
| SessionManager.OnlyAgeEndsSession | pkg/bluetooth/session_manager.go:397-436 | so while no activity is older than the creation, the sweep goes by age alone and being idle ends no session |
| SessionManager.SessionManager.CreateSession | pkg/bluetooth/session_manager.go:139-177 | refused at the limit or when a live session exists; otherwise the table gains one fresh session object |
| SessionManager.SessionManager.CloseSession | pkg/bluetooth/session_manager.go:192-206 | closes and removes the device's session, or reports it missing |
| SessionManager.SessionManager.AuthenticateSession | pkg/bluetooth/session_manager.go:228-254 | refused for a missing or ended session; a failure returns it to created, a success authenticates it |
| SessionManager.SessionManager.EnableEncryption | pkg/bluetooth/session_manager.go:257-283 | only an authenticated session is encrypted |
| SessionManager.SessionManager.UpdateActivity | pkg/bluetooth/session_manager.go:286-301 | records the time and wakes an idle session; no other session changes |
| SessionManager.SessionManager.UpdateHeartbeat | pkg/bluetooth/session_manager.go:304-317 | records the heartbeat of one session |
| SessionManager.SessionManager.HandleSessionClosed | pkg/bluetooth/session_manager.go:349-358 | the ended session is closed and whatever session its device has leaves the table |
| SessionManager.SessionManager.CleanupExpiredSessions | pkg/bluetooth/session_manager.go:397-436 | exactly the timed-out sessions leave, closed and disconnected; the long idle ones that stay are marked |
| TimeoutManager.TimeoutLedger | pkg/bluetooth/timeout_manager.go:125-343 | in every run with fresh IDs the table agrees with each timeout's own history: active in the table with its latest deadline, cancelled with its callback never launched, or fired, its callback launched exactly once and strictly after its latest deadline |
| TimeoutManager.SettledForGood | pkg/bluetooth/timeout_manager.go:149-343 | a cancelled or fired timeout never comes back and nothing more is launched for it |
| TimeoutManager.TimeoutManager.AddTimeout | pkg/bluetooth/timeout_manager.go:125-146 | one active entry due after the duration; it cannot fail |
| TimeoutManager.TimeoutManager.AddConnectTimeout | pkg/bluetooth/timeout_manager.go:240-242 | a connect entry with the configured duration |
| TimeoutManager.TimeoutManager.RemoveTimeout | pkg/bluetooth/timeout_manager.go:149-161 | removes the entry, or reports it missing |
| TimeoutManager.TimeoutManager.UpdateTimeout | pkg/bluetooth/timeout_manager.go:164-176 | moves the deadline of a present entry only |
| TimeoutManager.TimeoutManager.RefreshTimeout | pkg/bluetooth/timeout_manager.go:179-190 | touches the entry without moving its deadline |
| TimeoutManager.TimeoutManager.ClearTimeoutsByDevice | pkg/bluetooth/timeout_manager.go:220-237 | removes exactly the device's entries |
| TimeoutManager.TimeoutManager.CheckTimeouts | pkg/bluetooth/timeout_manager.go:319-343 | takes out exactly the active entries past their deadline |
| ResourceManager.ConnectionsWithinLimit | pkg/bluetooth/timeout_manager.go:522-534 | in every reachable state connection resources number at most max(MaxConnections, 0) |
| ResourceManager.BudgetIffNoOverflow | pkg/bluetooth/timeout_manager.go:536-543 | with fresh IDs and non-negative sizes, a run keeps the sizes within max(MaxMemoryUsage, 0) throughout if and only if no allocation within the connection limit has an exact sum of 2^63 or more |
| ResourceManager.AllocationKeepsBudget | pkg/bluetooth/timeout_manager.go:463-487 | one allocation keeps the budget if and only if it is refused for the connection limit or its exact sum is below 2^63 |
| ResourceManager.OverflowIsNeverRefused | pkg/bluetooth/timeout_manager.go:536-543 | for every kind of resource a sum of 2^63 or more wraps to a negative number and is never refused as too large |
| ResourceManager.FullBudgetAdmitsMore | pkg/bluetooth/timeout_manager.go:536-543 | witness: a budget of 2^63-1, once full, admits one more byte |
| ResourceManager.WrapIsModular | pkg/bluetooth/timeout_manager.go:536-543 | what is left of a sum lies in the 64-bit range and differs from it by a multiple of 2^64 |
| ResourceManager.RoomySizesKeepBudget | pkg/bluetooth/timeout_manager.go:463-582 | a budget that leaves room in 64 bits for the largest request is never exceeded |
| ResourceManager.ReleaseUndoesAllocate | pkg/bluetooth/timeout_manager.go:463-505 | releasing a freshly named resource restores the table |
| ResourceManager.ResourceManager.CheckResourceLimits | pkg/bluetooth/timeout_manager.go:522-546 | the connection limit first, then the memory limit, on 64-bit sums |
| ResourceManager.ResourceManager.AllocateResource | pkg/bluetooth/timeout_manager.go:463-487 | one entry with reference count 1 when within the limits, otherwise no change |
| ResourceManager.ResourceManager.ReleaseResource | pkg/bluetooth/timeout_manager.go:490-505 | one reference fewer; the entry goes with the last one |
| ResourceManager.ResourceManager.GetResource | pkg/bluetooth/timeout_manager.go:508-519 | touches a present entry |
| ResourceManager.ResourceManager.CleanupExpiredResources | pkg/bluetooth/timeout_manager.go:566-582 | drops exactly the entries not accessed within the timeout |
| DeviceCache.EvictionIsLeastRecentlySeen | internal/device/manager.go:222-275 | at capacity a new device costs exactly the least recently seen device that is neither connected nor paired; it grows if and only if there is none or the one found has the empty ID |
| DeviceCache.FullCacheGrowsIff | internal/device/manager.go:248-275 | said on the tables: a full cache grows if and only if it holds no unprotected device, or the one of the empty ID is unprotected and was seen before every other unprotected one |
| DeviceCache.TimesStayDistinct | internal/device/manager.go:222-245 | with a strictly increasing clock no two cached devices were last seen at the same time, as the previous row requires |
| DeviceCache.EmptyIDOutlivesAll | internal/device/manager.go:248-275 | over every run without an explicit removal, sweep, clearing or stop a cached device of the empty ID stays, however full the cache |
| DeviceCache.EmptyIDMakesCacheGrow | internal/device/manager.go:248-275 | witness: a cache for one device that saw the empty ID first holds two after the next sighting |
| DeviceCache.ProtectionIs | internal/device/manager.go:475-513 | a device is safe from eviction and clearing while connected or paired; from the periodic cleanup a connection protects it fully and pairing triples its time |
| DeviceCache.DroppedFrom | internal/device/manager.go:278-287 | a device that leaves the cache leaves the connected table and keeps its paired entry, which stays as it was |
| DeviceCache.SizeBounded | internal/device/manager.go:222-275 | with a strictly increasing clock and non-empty IDs the cache never exceeds its capacity, or one more than the most protected devices it ever held |
| DeviceCache.CacheShowsLatest | internal/device/manager.go:222-245 | after every run whatever is cached, hence the connected view and every live paired entry, is the latest news of its device |
| DeviceCache.StaleIffDropped | internal/device/manager.go:278-287 | a paired entry stops following its device exactly when the device leaves the cache, and keeps what it showed then |
| DeviceCache.StaleUntilUnpaired | internal/device/manager.go:591-655 | a stale paired entry shows the same old data through every run until it is unpaired, even if the device is cached again |
| DeviceCache.PairedShowsLatestIffNotMissed | internal/device/manager.go:667-677 | with a strictly increasing clock what the paired view shows of a device is its latest news if and only if no news of it came while its entry was stale; if some did, what is shown is strictly older |
| DeviceCache.SeenAgainShowsOld | internal/device/manager.go:667-677 | witness: a device paired, removed and seen again is still shown as it was before |
| DeviceCache.RunKeepsLawful | internal/device/manager.go:222-795 | in every reachable state every connected device is cached and every entry is filed under its own ID |
| DeviceCache.Manager.AddDevice | internal/device/manager.go:222-245 | overwrites the cached object in place, or files a new one after making room; each connected entry stays the very object cached under its ID |
| DeviceCache.Manager.RemoveOldestDevice | internal/device/manager.go:248-275 | evicts a least recently seen unprotected device, unless its ID is empty |
| DeviceCache.Manager.RemoveDevice | internal/device/manager.go:278-287 | the device leaves the cache and the connected table; its paired entry keeps the object |
| DeviceCache.Manager.MarkDeviceConnected | internal/device/manager.go:290-307 | a cached device's own object joins the connected table |
| DeviceCache.Manager.MarkDeviceDisconnected | internal/device/manager.go:310-327 | leaves the connected table only |
| DeviceCache.Manager.PairDevice | internal/device/manager.go:591-624 | a cached, unpaired device's own object joins the paired table |
| DeviceCache.Manager.UnpairDevice | internal/device/manager.go:627-655 | leaves the paired and the connected table, not the cache |
| DeviceCache.Manager.UpdateDeviceRSSI | internal/device/manager.go:774-795 | overwrites strength and time in place, which shows in every table that holds the object |
| DeviceCache.Manager.CleanupExpiredDevices | internal/device/manager.go:475-513 | drops exactly the unconnected devices past the timeout, three times as long for paired ones |
| DeviceCache.Manager.ClearDeviceCache | internal/device/manager.go:755-771 | drops exactly the devices neither connected nor paired |
| DeviceCache.Manager.Stop | internal/device/manager.go:388-392 | empties the cache and the connected table; the paired table stays |
| DeviceCache.Manager.GetConnectedDevices | internal/device/manager.go:201-211 | lists every connected device once, as it is cached |
| AlertThrottle.PrunedLogAgrees | pkg/bluetooth/alert_handlers.go:356-393 | for a non-decreasing clock the pruned log and the full history agree on everything a present or later call can ask |
| AlertThrottle.WindowNeverExceeds | pkg/bluetooth/alert_handlers.go:356-378 | no half-open window of length throttleWindow contains more than maxAlerts forwarded alerts of a key |
| AlertThrottle.DroppedOnlyWhenFull | pkg/bluetooth/alert_handlers.go:356-378 | an alert is dropped exactly when the forwarded alerts of its key later than its time less throttleWindow number maxAlerts or more |
| AlertThrottle.AfterIsLater | pkg/bluetooth/alert_handlers.go:381-393 | pruning leaves exactly the times later than the cutoff |
| AlertThrottle.SharedKeyIff | pkg/bluetooth/alert_handlers.go:360 | two pairs of rule and component share a log exactly when the rest of the longer rule after the shorter and an underscore begins the other component before an underscore; never when no rule has an underscore |
| AlertThrottle.KeysCollide | pkg/bluetooth/alert_handlers.go:360 | witness: rule a_b of component c and rule a of component b_c |
| AlertThrottle.ThrottledAlertHandler.CleanupOldTimestamps | pkg/bluetooth/alert_handlers.go:381-393 | keeps exactly the times after the cutoff, in order, for that key only |
| AlertThrottle.ThrottledAlertHandler.Handle | pkg/bluetooth/alert_handlers.go:356-378 | prunes the key's log, then forwards and records unless it is full; other keys are untouched |

## Left out

- ServerConnection.ServerConnectionHandler.OnConnected: is one step; the session's own goroutine, which may end the session while the set-up is under way, and a timeout that fires meanwhile are not interleaved with it. The user's callback is only its answer.
- ServerConnection.ServerConnectionHandler.OnMessage: stops where a message passes the authentication gate; heartbeat replies, the request spacing check, decryption and the user's callback behind it are not modelled.
- SessionManager.SessionManager.CleanupExpiredSessions: takes the timed-out sessions out of the table after the scan, not during it.
- TimeoutManager.TimeoutManager.AddTimeout: the generated ID is a parameter; two entries generated in one nanosecond would share it, and the ledger is proved for fresh IDs. Entries of the timeout and resource tables are values, so pointers handed out by their getters are not captured.
- ReliableDelivery.ReliableHandler.ProcessAckMessage: an ack is an arbitrary event; the ID sent on the wire is not the pending one (pkg/bluetooth/reliable_message_handler.go:201), so no end-to-end matching is claimed.
- Reconnect.ReconnectManager.Attempt: handles one task of a sweep as one step against a client that only answers yes or no; the concrete client schedules again on failure (pkg/bluetooth/client.go:261-262). A stop or clear between the failed connect and the rescheduling is not interleaved.
- Reconnect.ReconnectManager.Backoff: delays are exact integers without the 64-bit range or floating-point rounding.
- RateLimiter.Limiter.Allow: tokens and rates are real numbers; rounding of float64 is not modelled.
- ConnectionPool.ConnectionPoolImpl.Ranked: any order sorted by the comparison, since sort.Slice leaves ties open. Pool entries are values, so a pointer kept to a departed entry is not captured.
- FileTransfer.App.HandleFileInfo: a second file_info for a running transfer starts it over, and the run theorems take one that comes first; an empty file has no chunk and so never completes. The MD5 sum and the answers of the disk are parameters.
- FrameCodec.ProtocolHandler.EncodeMessage: what json.Marshal makes of a message and whether json.Unmarshal takes a text are parameters; of the first it is used that it makes the text of one value, of the second that it takes nothing but JSON texts. Both handlers are one class with a profile for their constants.
- LongFrames.UnsafeLength: takes any text of a JSON string. The L2CAP magic number has a byte that is not UTF-8, so for that handler json.Marshal makes such a text only from a json.RawMessage. The reader is required to take the digit 1 and strings of plain ASCII.
- DeviceCache.Manager.AddDevice: event callbacks and statistics are not modelled, and slices inside a device are values.
- MessageEngine.MessageQueue.Enqueue: the error of a closed queue, which is only met after Stop, is not modelled.
- MessageEngine.PriorityEngine.ScheduleNext: Stop and closed channels are not modelled; a send to a full channel is a held message.
- ReliableDelivery.ReliableHandler.Stop: races of Stop with timers already running are not modelled.
- AlertThrottle.ThrottledAlertHandler.Handle: the wrapped handler's own error is not modelled.
- The other load balancers (health-based, adaptive): averages and single branches.
- Worker pool, flow controller counters, concurrency limiter, metrics, statistics: they decide nothing in the properties above.
- Adapters, scanning, pairing and discovery services, health checks, event bus, state manager, builders, configuration, reports, command lines: foreign calls, plumbing or presentation.
- Encryption, key storage and the security manager's credential check: library cryptography and placeholders; their answers are parameters.

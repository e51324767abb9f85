# FRFT in Dafny

FRFT is a selective-repeat file transfer over UDP: the client cuts a file into chunks and sends
them under a sliding window and a token-bucket pacer; the server writes each chunk once at
`sequence * chunk_size` and answers with cumulative ACKs plus an 8192-bit SACK bitmap. This
project models both programs, the wire format and the network between them, and proves what
the protocol is for: whatever the network loses, duplicates or reorders, the output file is the
input file once the sender believes everything is acknowledged, completion never stops being
reachable within a stated number of steps, and every run that is fair to the base chunk reaches it.

`dafny verify dfyconfig.toml` checks everything. A `hide` statement at the start of a proof names
definitions that the proof does not need, so that the solver does not unfold them.

## How the model is built

Each endpoint exists twice. A value (`Window`, `Receiver`, `Transfer`, `Client`, `Bucket`) with
one function per operation says what the operation computes; a class with the program's own
fields and loops (`SenderWindow`, `ReceiverTracker`, `ServerLoop`, `Pacer`, `WindowSampleStats`)
or, for the transfer loop, methods over the window object, is proved to compute exactly that.
The integer fields of the classes are subset types of the source's widths, so every assignment to
one of them carries the obligation that it does not wrap; where the source may wrap (the ACK number
and the sampler's 64-bit totals) the wrap is written out. The counts cached in a chunk record and the
stall counter are plain numbers that the window invariant bounds by the coverage and by the base.
Times are integer nanoseconds of a monotone clock, passed in as parameters.

- `Types`, `Chunks`, `Codec`, `CodecBuffers`: constants and records, the cut of a file into
  chunks, byte layouts as field tables with both directions proved, the in-place buffer loops.
- `Wire`, `Messages`: the same formats once more, byte by byte and without the tables.
- `Window`, `WindowInvariant`, `WindowProperties`, `SenderWindow`: the sender's window. The
  outstanding counter, the base, the cached counts of later ACKed chunks, the pending flags and
  the retransmission queue are all shown to be caches of facts about the chunk states.
- `WindowRules`, `WindowQueue`: what each window operation does to which chunk, exactly when, said
  about the records before and after alone; how a waiting chunk gets to the front of the queue.
- `Sending`, `SendingRules`: runs of the sender alone under arbitrary ACK payloads, with a log of
  transmissions, and both retransmission rules told from that log.
- `Receiver`, `ReceiverTracker`, `Server`, `ServerLoop`: received set, snapshots, START
  validation, placement, ACK coalescing, completion.
- `ServerRules`, `ServerHistory`: which datagrams the server ignores, stores and answers, told from
  their bytes, and what its fields mean in a run, told from a history kept beside it.
- `Client`, `Turns`, `ClientLoop`, `LoopSteps`: START and COMPLETE exchanges, the turns of the transfer
  loop (drain, timers, then send and drain again, or wait for an ACK) as runs of the sender and as runs
  of the composed system, window samples.
- `System`, `SystemInvariant`: both ends joined by two logs of byte datagrams; a delivery hands
  over any logged datagram, any number of times, in any order, or never. The invariant ties the
  two ends to each other and to everything in transit.
- `Delivery`, `Progress`, `Fairness`, `Delays`, `Outcomes`: the theorems over all runs: safety,
  bounded reachability of completion, progress of every fair run, how late an ACK can be, and for
  which options a transfer can finish or must fail.
- `Pacer`: the token bucket.

Where the repository's notes and its code differ, the model follows the code: the server
coalesces ACKs (src/server.cpp:361-391) although docs/design.md:43 says every DATA packet is
acknowledged, and the pacer is a token bucket (src/pacer.cpp:31-79) although docs/design.md:36
speaks of absolute deadlines. Decoders skip the reserved bytes of START_ACK, ACK and
COMPLETE_ACK payloads, so re-encoding reproduces the bytes exactly when those bytes are zero.

## Model

| member | source | states |
|---|---|---|
| Delivery.ReliableDelivery | src/client.cpp:501-586 | In every run, each chunk the sender holds as ACKED is at the server with exactly the input's bytes; when the base has reached the end, the output file equals the input file. |
| Delivery.SnapshotsLoseNothing | src/reliability.cpp:255-276 | In every run, sender base <= receiver cumulative ACK, every received chunk is below cumulative ACK + 8192, and the snapshot reports exactly the received set although the bitmap is finite. |
| Delivery.LateAckChangesNothing | src/reliability.cpp:114-164 | Once an ACK has been processed in a run, delivering any ACK sent no later, at any later time, changes no field of the sender's window and no log entry. |
| Delivery.CompleteMeetsComplete | src/server.cpp:396-409 | Whenever a COMPLETE is in transit the server is complete by counter, by prefix pointer and by content, so the not-complete branch is never taken. |
| Delivery.NobodyFails | src/client.cpp:605-616 | With equal MTUs and a rate of at least one bit per second, in no run does either program reach an exception of the modelled kinds; every COMPLETE_ACK in transit carries the totals the client checks. |
| Outcomes.OptionsDecide | src/client.cpp:470-492 | For all inputs with which both programs start: some run finishes exactly when the two MTUs are equal and the rate is at least one bit per second, and some run ends with the client's exception exactly when that is not so. |
| Outcomes.FirstReplyFails | src/client.cpp:470-492 | In every run in which that is not so, the first reply that reaches the client ends it. |
| Outcomes.ZeroRateNeverTransfers | src/pacer.cpp:20-29 | With a rate cut down to zero, in every run the client never opens its loop and no chunk ever reaches the server, which waits for data or still for START. |
| Outcomes.MismatchNeverTransfers | src/client.cpp:474-476 | With different MTUs, in every run the server never leaves its waiting loop and the client never opens a window; only STARTs and refusals are ever in transit. |
| Delivery.CoalescingBound | src/server.cpp:361-391 | At every moment the newest ACK sent omits at most 31 received chunks, none when nothing is pending or all chunks are in; ack_pending holds exactly when packets_since_ack > 0. |
| Delivery.RepeatsAreAnswered | src/server.cpp:370-387 | A duplicate or retransmitted DATA packet is answered at once with an ACK that reports exactly the received set. |
| Delivery.AckDelayBoundedInRuns | src/server.cpp:363-391 | In every run a pending ACK is due at most one ACK interval from now, and whatever DATA packet comes next stays unanswered only before that due time. |
| Delays.LatenessUnbounded | src/server.cpp:361-391 | However long the delay, some run leaves an ACK pending that long after it was due, exactly when the file has at least two chunks: the due time is looked at only when a packet arrives. |
| Delivery.TransmissionsBoundedInRuns | src/client.cpp:517-579 | The per-chunk bounds on fast retransmissions and on transmissions per time hold in every run of the composed system. |
| Delivery.FastRetransmissionPromptInRuns | src/client.cpp:501-586 | In every run of the composed system a chunk with three or more ACKED chunks above it is ACKED, queued or already retransmitted. |
| Delivery.LatePacketsKeepOutput | src/server.cpp:443-449 | After every chunk has arrived, no continuation of any length changes a byte of the output. |
| Delivery.AckedStays | src/reliability.cpp:73-84 | Along any run an ACKED chunk is never undone, an issued chunk stays issued, and both logs and the clock only grow. |
| Progress.CompletionStaysReachable | src/client.cpp:501-616 | From every reachable state some continuation ends with the client finished, its final check passed and output equal to input, within total_chunks * (2 * window + 3) + 6 steps and total_chunks retransmission timeouts. |
| Progress.BaseCanAdvance | src/reliability.cpp:166-175 | From every unfinished good state the base advances within 2 * window + 3 steps and one retransmission timeout: timer checks and sends only, then exactly one delivery to the server and one to the client. |
| Progress.DrainToBase | src/reliability.cpp:41-54 | Alternating sends and timer checks, at most 2 * p + 1 of them for queue position p and no delivery, transmit a waiting base chunk flagged as a retransmission. |
| WindowQueue.SelectMovesForward | src/reliability.cpp:41-54 | A selection takes the waiting chunk or moves it strictly forward in the queue. |
| Fairness.FairRoundAdvances | src/client.cpp:501-586 | In every stretch of a run with a send, an expired timer check, a window's worth of sends, a delivery of the base chunk if it was resent and a delivery of the answer, with anything interleaved, the base strictly advances. |
| Fairness.FairRunsComplete | src/client.cpp:501-586 | Every run of as many such rounds as chunks are left ends all acknowledged, with output equal to input. |
| Fairness.FairRoundExists | src/client.cpp:517-586 | From every unfinished good state such a round exists. |
| Fairness.SendsReachBase | src/reliability.cpp:41-54 | In any run with more sends than entries ahead of it in the queue, whatever is interleaved, a waiting base chunk is acknowledged or retransmitted. |
| SystemInvariant.ApplyInv | src/client.cpp:501-616 | Every step of the composed system keeps the invariant relating both ends, both logs, ACK order and coalescing. |
| SystemInvariant.ReachesInv | src/server.cpp:308-450 | So does every run of any length over any deliveries. |
| SystemInvariant.CoverageSuffices | src/reliability.cpp:34-39 | The two send limits and the acked-implies-received link keep every received chunk within the bitmap's reach. |
| SystemInvariant.OwnStartIsValid | src/server.cpp:257-260 | The server's START validation never refuses this client's own request, and never throws on it. |
| SystemInvariant.DataAnswer | src/server.cpp:326-394 | A DATA packet of the client adds exactly its chunk with the input's bytes; if it is answered, the ACK is exact; the omission bound is kept. |
| SystemInvariant.CompleteAnswer | src/server.cpp:410-430 | A complete server answers COMPLETE with totals that pass the client's check, and changes nothing else. |
| SystemInvariant.AckDatagramDecodes | src/server.cpp:146-157 | The ACK datagram the server sends decodes, through header and payload, to the snapshot it was made from. |
| WindowInvariant.NewWindowInv | src/reliability.cpp:15-32 | A new window satisfies the window invariant. |
| WindowInvariant.SelectInv | src/reliability.cpp:41-62 | Selection keeps the window invariant: limits, base maximality, counter = number of unacknowledged chunks, queue contents, evidence. |
| WindowInvariant.SelectOutcome | src/reliability.cpp:41-62 | A retransmission is chosen exactly when some chunk is pending, new data exactly when none is and both limits allow it, nothing otherwise; and what each choice changes. |
| WindowInvariant.MarkSentInv | src/reliability.cpp:64-71 | Marking keeps the window invariant. |
| WindowInvariant.ProcessAckInv | src/reliability.cpp:114-164 | Any ACK payload, whatever its fields, keeps the window invariant. |
| WindowInvariant.CheckTimeoutsInv | src/reliability.cpp:166-175 | A timeout check at any time with any RTO keeps the window invariant. |
| WindowInvariant.QueueBounded | src/reliability.cpp:86-97 | The retransmission queue holds distinct sequences, every pending chunk and otherwise only ACKED ones, and at most logical_window_chunks entries, stale ones included. |
| WindowProperties.AckedAfter | src/reliability.cpp:114-141 | After an ACK the acknowledged chunks are those before plus what the ACK reports below next. |
| WindowProperties.AckJoin | src/reliability.cpp:114-141 | Two ACK payloads processed in either order, at any times, give the same chunk states, base and outstanding count: the union. |
| WindowProperties.LateAckIsNoOp | src/reliability.cpp:143-163 | An ACK reporting only acknowledged chunks leaves a settled window identical, including counts, flags, queue and stall statistics. |
| WindowProperties.ProcessAckCountsRight | src/reliability.cpp:143-163 | After any ACK the cached later-ACKed count of every in-flight chunk is the true count, whatever it was before. |
| WindowProperties.SelectedCanBeMarked | src/reliability.cpp:64-68 | The exception in mark_sent cannot follow a selection. |
| WindowProperties.NoDeadlock | src/client.cpp:517-549 | When an unfinished window has nothing to send, its base chunk is in flight and not pending, and a timeout check one RTO after its last send makes selection succeed. |
| WindowRules.SelectsNothing | src/reliability.cpp:34-62 | Nothing is selected exactly when no chunk waits for retransmission and all chunks are issued, or as many are unacknowledged as the logical window, or the coverage is used up. |
| WindowRules.SelectsThis | src/reliability.cpp:41-62 | Otherwise a waiting chunk, flagged fast or not as it was queued, its evidence set to the present count; or, if none waits, the next new chunk; no other record changes. |
| WindowRules.AckedExactly | src/reliability.cpp:114-141 | A chunk is ACKED after an ACK exactly if it was, or it is issued and below the cumulative ACK, or below the announced largest with its bit (least significant first) set among the announced bits. |
| WindowRules.AckQueuesExactly | src/reliability.cpp:143-163 | An ACK queues an idle in-flight chunk, as fast, exactly when the count of ACKED chunks above it rose, is at least three above its evidence, and it was not queued fast or resent before or was last sent 250 ms ago. |
| WindowRules.AckQueueOrder | src/reliability.cpp:143-163 | The chunks an ACK queues are exactly those it makes pending, behind the waiting ones, highest first. |
| WindowRules.TimeoutExactly | src/reliability.cpp:166-175 | A timer check makes a chunk pending exactly if it was, or it is in the window, in flight and last sent at least the timeout ago; nothing else in any record changes. |
| WindowRules.TimeoutQueueOrder | src/reliability.cpp:166-175 | The chunks a timer check queues are exactly those it makes pending, behind the waiting ones, lowest first. |
| Sending.ActInv | src/reliability.cpp:41-175 | Every ACK, timeout check and transmission keeps the run invariant that ties the transmission log to the chunk records. |
| Sending.TransmissionsBounded | src/reliability.cpp:155-158 | Over any run with arbitrary ACKs and a monotone clock, sends of a chunk after its first retransmission are at least 250 ms apart, so it is sent at most 2 + span/250 ms times within span of its first send. |
| Sending.FastRetransmissionsBounded | src/reliability.cpp:150-162 | Over any run, one chunk is fast-retransmitted at most (coverage - 1) / 3 times. |
| Sending.FastRetransmissionPrompt | src/reliability.cpp:143-163 | Over any run with arbitrary ACKs, a chunk with three or more ACKED chunks above it is itself ACKED, or queued, or has already been retransmitted. |
| SendingRules.RetransmissionsJustified | src/reliability.cpp:41-62 | In every run each transmission is the first of its chunk, or fast with at least three more chunks ACKED above it than at its last retransmission, or at least 500 ms after its last send. |
| SendingRules.FastRetransmissionExact | src/reliability.cpp:143-163 | In every run an ACK queues an idle in-flight chunk exactly when it raises the count of ACKED chunks above it to three more than at its last retransmission in the log, and the log has one send of it or none for 250 ms. |
| SendingRules.TimeoutExact | src/reliability.cpp:166-175 | In every run a timer check queues an idle in-flight chunk exactly when its last send in the log is 500 ms ago or more. |
| SendingRules.StallStatistics | src/reliability.cpp:99-112 | In every run the total stall time is the time from the start to the last advance, the longest stall lies between the average and the total, and there are events exactly if the base moved. |
| SenderWindows.SenderWindow.Create | src/reliability.cpp:23-31 | Construction fails exactly for a zero or too large logical window; otherwise it yields the empty window. |
| SenderWindows.SenderWindow.constructor | src/reliability.cpp:15-22 | The fields start as the empty window. |
| SenderWindows.SenderWindow.SelectNextPacket | src/reliability.cpp:41-62 | The popping loop computes the specified selection in place. |
| SenderWindows.SenderWindow.MarkSent | src/reliability.cpp:64-71 | Refuses unselected or ACKED chunks unchanged, otherwise records the send. |
| SenderWindows.SenderWindow.MarkAcked | src/reliability.cpp:73-84 | Acknowledges one issued chunk and keeps the outstanding counter equal to the number of unacknowledged chunks; the decrement never wraps. |
| SenderWindows.SenderWindow.QueueRetransmission | src/reliability.cpp:86-97 | Queues an in-flight chunk that is not pending, once, and changes nothing else. |
| SenderWindows.SenderWindow.AdvanceBase | src/reliability.cpp:99-112 | Moves the base to the first unacknowledged chunk and updates the stall statistics only if it moved. |
| SenderWindows.SenderWindow.RescanAt | src/reliability.cpp:149-162 | One scan step; the evidence never exceeds the count, so the unsigned subtraction cannot wrap. |
| SenderWindows.SenderWindow.ScanForFastRetransmissions | src/reliability.cpp:143-163 | The downward counting loop equals the specified scan, with the queue extended in descending order. |
| SenderWindows.SenderWindow.ProcessAck | src/reliability.cpp:114-164 | The four loops together compute the specified result for every payload. |
| SenderWindows.SenderWindow.CheckTimeouts | src/reliability.cpp:166-175 | Exactly the expired, idle in-flight chunks become pending, queued in ascending order. |
| SenderWindows.AcknowledgedSoFar | src/reliability.cpp:116-139 | The clamped prefix loop and the clamped bitmap loop acknowledge exactly what the ACK reports. |
| Receivers.MarkReceivedTracks | src/reliability.cpp:225-237 | A chunk is new exactly once; marking adds it alone and keeps count, prefix pointer and largest index right. |
| Receivers.CompleteMeansAll | src/reliability.cpp:239-241 | The counter says complete exactly when the prefix pointer is at the end, exactly when every chunk was received. |
| Receivers.SnapshotReports | src/reliability.cpp:255-276 | A snapshot reports the received chunks below cumulative ACK + bits and nothing else. |
| Receivers.SnapshotExact | src/reliability.cpp:255-276 | A snapshot equals the received set exactly when no received chunk lies past the bitmap. |
| Receivers.SnapshotFields | src/reliability.cpp:255-276 | A snapshot holds the first missing chunk twice, one past the last received chunk, and a bitmap of one bit per announced bit, set exactly for the received chunks from there on. |
| ReceiverTrackers.ReceiverTracker.constructor | src/reliability.cpp:219-219 | The tracker starts empty. |
| ReceiverTrackers.ReceiverTracker.MarkReceived | src/reliability.cpp:225-237 | The in-place update with its prefix loop computes the specified tracker; the counter does not wrap. |
| ReceiverTrackers.ReceiverTracker.MakeAckSnapshot | src/reliability.cpp:255-276 | The bit-setting loop builds the specified snapshot. |
| Servers.StoreOk | src/server.cpp:338-352 | Storing a fitting packet keeps sizes and tracker in order. |
| Servers.WaitingServerDecides | src/server.cpp:248-268 | For any datagram whatever: the exception in the START validation ends the waiting server exactly on a START of the right chunk size whose file needs more than 2^32 - 1 chunks; a transfer opens exactly when all numbers agree; otherwise it goes on waiting. |
| ServerRules.OthersIgnored | src/server.cpp:308-408 | Whatever is not a START, a DATA packet of the session for a chunk of the file in its exact length, or an empty COMPLETE numbered with the chunk count, changes nothing and gets no answer. |
| ServerRules.StartAgain | src/server.cpp:313-321 | A START during the transfer changes nothing; the session's own is accepted again with the same terms, another gets BUSY. |
| ServerRules.DataStored | src/server.cpp:326-352 | After DATA exactly its chunk is received besides the earlier ones; a new chunk's bytes stand at number * chunk_size and every other byte is unchanged; a duplicate writes nothing. |
| ServerRules.DataAnsweredExactly | src/server.cpp:361-391 | DATA is answered exactly if duplicate, flagged, last, thirty-second since an ACK, or after the due time of a pending ACK; the due time is set by the first packet that waits and moved by none; the answer is the snapshot after storing, numbered in sequence. |
| ServerRules.EndAnswered | src/server.cpp:400-430 | COMPLETE ends the transfer with chunk and byte totals exactly when every chunk has come, and gets an ACK otherwise. |
| ServerRules.LingersExactly | src/server.cpp:196-212 | In TIME_WAIT exactly a COMPLETE of the session is answered, always with the same totals. |
| ServerHistory.AckTimesInRuns | src/server.cpp:361-391 | In every run an ACK is pending exactly while unanswered packets wait, at most 31; it is due 10 ms after the first of them came, and any two of them came less than 10 ms apart. |
| ServerHistory.DurationInRuns | src/server.cpp:411-422 | In every run the duration in COMPLETE_ACK is the time from the arrival of the first new chunk to that of the last, in microseconds. |
| Servers.CompletedOutputFrozen | src/server.cpp:338-345 | Once complete, no datagram whatever changes tracker or output. |
| ServerLoops.ServerLoop.constructor | src/server.cpp:279-306 | After an accepted START: empty tracker, zero-filled output of the announced size, nothing pending. |
| ServerLoops.ServerLoop.CopyChunk | src/server.cpp:342-344 | The copy replaces exactly the bytes at the chunk's offset. |
| ServerLoops.ServerLoop.StoreData | src/server.cpp:338-352 | A new chunk is written and marked, a duplicate changes nothing. |
| ServerLoops.ServerLoop.SendAck | src/server.cpp:146-157 | The ACK of the current tracker, with the 32-bit number incremented modulo 2^32. |
| ServerLoops.ServerLoop.Coalesce | src/server.cpp:361-391 | Counts the packet and sends the ACK exactly for one of the five reasons; a pending ACK keeps its due time. |
| ServerLoops.ServerLoop.HandleData | src/server.cpp:326-394 | Store, then answer or coalesce, as specified. |
| ServerLoops.ServerLoop.HandleComplete | src/server.cpp:400-430 | Totals if complete, an ACK otherwise. |
| ServerLoops.ServerLoop.HandleDatagram | src/server.cpp:308-450 | One turn of the loop on any datagram from the client's address or another one, malformed and foreign ones included, computes the specified next state and replies. |
| Clients.WindowHoldsDefault | src/client.cpp:418-419 | The requested window holds eight mebibytes with less than one chunk to spare. |
| Clients.RunnableIffAccepted | src/client.cpp:405-422 | The MTU, chunk-count and bitmap checks before START (with the server's own MTU check at src/server.cpp:71) let through exactly the inputs that fit in 2^32 - 1 chunks of at least 1024 bytes, the inputs every theorem about a run is stated for. |
| Clients.SmallChunksRefused | src/client.cpp:418-422 | The client refuses exactly the chunk sizes below 1024 bytes. |
| Clients.AcceptedPassesChecks | src/server.cpp:257-284 | Whatever START the server accepts has the right chunk count; the answer is status 0, the smaller of the window asked for and 8192, 8192 bits and the interval asked for, decodes, and passes the client's window checks at src/client.cpp:482-486. |
| Clients.StartDecides | src/client.cpp:456-492 | While starting, only a START_ACK of the session counts, and the first one decides: the transfer opens exactly with status 0, a window from 1 to 8192, 8192 bits and a rate; otherwise the client fails. |
| Clients.CompleteDecides | src/client.cpp:589-616 | While completing, only a COMPLETE_ACK of the session counts: one that does not parse or has wrong totals fails the client, another status is ignored, right totals finish it. |
| ClientLoops.ApplyAckPacket | src/client.cpp:339-348 | Only a well-formed SACK of 8192 bits reaches the window. |
| ClientLoops.DrainAcks | src/client.cpp:350-383 | Exactly the issued chunks become ACKED that some arrival vouches for: an ACK of the session with the SACK flag and 8192 bits; nothing is sent, undone or taken off the queue. |
| ClientLoops.MakeData | src/client.cpp:552-559 | The DATA datagram of a chunk: its slice of the input, its number, the retransmission flag. |
| ClientLoops.SendOne | src/client.cpp:517-570 | Select, send and mark as one step, with the datagram of the selected chunk. |
| ClientLoops.WaitForAck | src/client.cpp:385-403 | The same for the first ACK of the session alone: everything before it is dropped, nothing after it is read. |
| ClientLoops.TransferTurn | src/client.cpp:501-586 | One turn is drain, timers, then send and drain again, or a wait. It sends nothing exactly when after the first drain no chunk waits or was last sent 500 ms before the timer check, and there is no room for a new one; a due chunk goes out flagged, otherwise the next new one unflagged. |
| ClientLoops.TransferLoop | src/client.cpp:501-586 | The whole loop, whatever arrives, is a run of the sender whose log is exactly what was sent; it stops as soon as everything is acknowledged; within as many turns as the logical window every chunk due at the first timer check is ACKED or went out flagged. |
| LoopSteps.TurnIsSteps | src/client.cpp:501-586 | A turn of the loop, with the server taking any deliveries while it sends, is a run of the composed system from any state: readings, the timer check, the send, readings; it ends in exactly the window and the requests the loop computes. |
| ClientLoops.BeginTransfer | src/client.cpp:470-492 | The checks after START_ACK, the window and the pacer succeed exactly when the client of the composed system enters its transfer loop, with the same window. |
| ClientLoops.OutstandingIsUnacked | src/client.cpp:62-79 | The outstanding counter equals what the sampler counts as unacknowledged, and bounds the pending count. |
| ClientLoops.CountWindow | src/client.cpp:66-79 | The sampling loop counts acknowledged, unacknowledged and pending chunks of the window. |
| ClientLoops.WindowSampleStats.Sample | src/client.cpp:62-90 | Totals (modulo 2^64) and maxima grow by the window's span, outstanding count, acknowledged-behind-hole count and pending count; no total wraps in the first 2^32 - 1 samples. |
| Chunks.ChunkSizeForMtu | src/protocol.cpp:55-61 | Defined exactly for MTU 53 to 65535; the payload plus the overheads is the MTU. |
| Chunks.CountFits | src/protocol.cpp:63-72 | A count is returned exactly for the files that 2^32 - 1 chunks can hold. |
| Chunks.CountBrackets | src/protocol.cpp:63-72 | The chunk count is the rounded-up quotient, stated without division. |
| Chunks.RangesTile | src/server.cpp:331-333 | Chunk ranges are non-empty, inside the file, and each ends where the next begins; the unsigned subtraction cannot wrap. |
| Chunks.RangesCover | src/client.cpp:552-555 | Every byte of the file is in the range of exactly one chunk. |
| Chunks.PlaceSlices | src/server.cpp:342-344 | Writing a chunk sets its slice and leaves all others alone. |
| Chunks.RebuiltInAnyOrder | src/server.cpp:331-345 | Writing every chunk at least once, in any order, over any content, rebuilds the file. |
| Codec.ReadWritten | src/protocol.cpp:10-46 | Reading a written integer gives it back. |
| Codec.WrittenRead | src/protocol.cpp:10-46 | Writing a read integer gives the bytes back. |
| CodecBuffers.WriteUnsigned | src/protocol.cpp:10-25 | The in-place loop writes the big-endian bytes at the offset and nothing else. |
| CodecBuffers.ReadUnsigned | src/protocol.cpp:27-46 | The accumulating loop reads the big-endian value and stays within its width. |
| CodecBuffers.SerializePacket | src/protocol.cpp:94-108 | The buffer loops produce the specified datagram, refusing payloads over 65535 bytes. |
| CodecBuffers.DeserializePacket | src/protocol.cpp:110-160 | Accepts and rejects as specified, with the reason, in the source's order of checks. |
| Codec.PacketRoundTrip | src/protocol.cpp:74-108 | A packet with valid magic, version and type and no CRC flag decodes to its header, lengths filled in, and its payload. |
| Codec.PacketReproduced | src/protocol.cpp:110-160 | Every accepted datagram is reproduced byte for byte from its decoded form. |
| Codec.StartRoundTrip | src/protocol.cpp:175-199 | START decodes to what was encoded. |
| Codec.StartReproduced | src/protocol.cpp:186-199 | Every 24-byte START payload is reproduced byte for byte. |
| Codec.StartAckRoundTrip | src/protocol.cpp:205-225 | START_ACK decodes to what was encoded. |
| Codec.StartAckReproduced | src/protocol.cpp:214-225 | Reproduced exactly when the reserved bytes are zero. |
| Codec.AckRoundTrip | src/protocol.cpp:231-262 | ACK with matching bitmap size decodes to what was encoded. |
| Codec.AckReproduced | src/protocol.cpp:246-262 | Reproduced exactly when the reserved bytes are zero. |
| Codec.CompleteAckRoundTrip | src/protocol.cpp:268-288 | COMPLETE_ACK decodes to what was encoded. |
| Codec.CompleteAckReproduced | src/protocol.cpp:277-288 | Reproduced exactly when the reserved bytes are zero. |
| Wire.PacketOnWire | src/protocol.cpp:74-108 | Every byte of a packet: magic at 0, version at 4, type code at 5, flags at 6, session at 8, number at 12, payload length at 16, header length 24 at 18, checksum field at 20, payload from 24; refused exactly above 65535 payload bytes. |
| Wire.AcceptedOnWire | src/protocol.cpp:110-160 | A datagram is accepted exactly if it starts with FRFT and 1, its type is 1 to 7, its header length 24, its length as announced and flag bit 0 clear. |
| Wire.RefusedOnWire | src/protocol.cpp:110-160 | The reason of a refusal is the first failing test in the source's order. |
| Wire.FieldsOnWire | src/protocol.cpp:119-158 | Where the fields of an accepted datagram are read. |
| Wire.StartOnWire | src/protocol.cpp:175-184 | Every byte of a START payload. |
| Wire.StartAckOnWire | src/protocol.cpp:205-212 | Every byte of a START_ACK payload. |
| Wire.AckOnWire | src/protocol.cpp:231-244 | Every byte of an ACK payload; refused exactly when the bitmap is not one bit per announced bit. |
| Wire.CompleteAckOnWire | src/protocol.cpp:268-275 | Every byte of a COMPLETE_ACK payload. |
| Wire.PayloadsByLength | src/protocol.cpp:186-288 | Payloads are accepted exactly by length: 24, 12, 24, and for an ACK 16 plus its announced bits. |
| Messages.StartMessage | src/client.cpp:441-450 | Every byte of START: file size, MTU - 52, chunk count, the smallest window that holds 8 MiB, 8192 bits, 10 ms. |
| Messages.DataMessage | src/client.cpp:551-569 | Every byte of DATA: flag bit 1 for a retransmission, the chunk number, the input's bytes from number * (MTU - 52) on. |
| Messages.CompleteMessage | src/client.cpp:589-594 | Every byte of COMPLETE. |
| Messages.StartAckMessage | src/server.cpp:137-144 | Every byte of START_ACK. |
| Messages.AckMessage | src/server.cpp:146-157 | Every byte of an ACK: flag bit 2, the running number, the snapshot. |
| Messages.CompleteAckMessage | src/server.cpp:423-430 | Every byte of COMPLETE_ACK. |
| Pacing.RateConformance | src/pacer.cpp:31-79 | For any calls i <= j paid from non-negative balances (as PaceAll shows they are), the bytes granted from i to j are at most max(9015, size of packet i) plus rate times the time between the grants. |
| Pacing.PaceAll | src/client.cpp:560-562 | A sequence of calls, whatever the pauses between them and the oversleeps in them, keeps the bucket between 0 and 9015 bytes and every pair of its grants conforms to the rate. |
| Pacing.RefillsJoin | src/pacer.cpp:31-41 | Refills against one capacity compose into a single refill. |
| Pacing.Pacer.Create | src/pacer.cpp:20-29 | A zero rate is refused; otherwise the bucket starts full. |
| Pacing.Pacer.RefillTo | src/pacer.cpp:31-41 | The in-place refill, ignoring a clock that has not moved. |
| Pacing.Pacer.SleepOnce | src/pacer.cpp:51-76 | One turn of the loop sleeps the shortest whole number of nanoseconds that earns the missing bytes (up to the packet or 6010 bytes), or a second, and earns at least that. |
| Pacing.RateIsExact | src/pacer.cpp:27-28 | Eight billion nanoseconds earn one byte per bit per second. |
| Pacing.Pacer.WaitUntilPaid | src/pacer.cpp:51-76 | If every wait reaches its deadline the loop ends within ceil(packet / bytes per second) turns with the packet paid for. |
| Pacing.Pacer.WaitForSlot | src/pacer.cpp:43-79 | A whole call equals one refill at the grant time minus the packet, whatever the oversleeps; it waits exactly if the packet is not paid for at entry, and without oversleeps is granted less than a nanosecond after its goal is earned. |

## Left out

- Sockets, poll, sendmsg, name resolution and EINTR retries: the network steps deliver or drop datagrams of one client and one server instead; the server's source-address tests are modelled, the client's same tests are not, since only the server's replies are in its log.
- mmap, msync and file descriptors (src/file_io.cpp): input and output are byte sequences or arrays; I/O errors and the IO_ERROR answer do not occur.
- The conversion of the --rate option to whole bits per second (src/client.cpp:491): the rate enters as its result, which is zero for rates below one bit per second and undefined in the source for rates of 2^64 or more.
- Delivery.NobodyFails: the ten-attempt limits are not modelled, so a client that gives up after losing ten STARTs or COMPLETEs does not count as failed.
- The waiting-for-START loop, the START and COMPLETE retry loops and TIME_WAIT are modelled on values, one function per received datagram; the ten-attempt limits and the three-second TIME_WAIT duration are not modelled, so a server in TIME_WAIT answers forever and a client never gives up.
- Clock readings are parameters, one per operation; the separate readings inside one server turn are taken as equal.
- Argument parsing, printed reports, TimingStats, no-send episodes, throughput arithmetic and the duplicate-packet counter: reporting only.
- Random session ids and competing clients: one session is modelled; datagrams of other sessions are handled as the code does but not part of a run.
- CRC32C and MD5 beyond the decoder's rejection of the CRC flag: not implemented in the source.
- Pacing.Pacer.WaitForSlot: tokens are reals, so long-double rounding and the spin-versus-sleep choice are not modelled.
- Time values are unbounded integers; overflow of the 64-bit nanosecond clock is not modelled.

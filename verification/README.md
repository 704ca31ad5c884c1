# quac in Dafny

`quac` is a QUIC implementation: `quic-proto` is a deterministic protocol state machine without I/O, and a
small layer of threads and queues (reader, engine, application) sits around it. This project models the parts
of it that carry the hardest obligations and proves what they promise, for all inputs and all runs.

- `RangeSet`, `Buffers`, `Assembler`: stream reassembly. An inline slot, a heap of overlapping fragments and an
  in-place defragmenter behave like a plain map from stream offset to byte, in ordered and in unordered mode.
- `KeyUpdate`: the 1-RTT key update as a two-party protocol over a network that reorders and repeats packets
  (section 6 of RFC 9001).
- `BatchLayout`, `LossDetection`, `InFlight`: laying out a batch of datagrams, declaring packets lost, and
  counting what is in flight across paths (sections 6.1 and 7.6 of RFC 9002, section 8.1 of RFC 9000).
- `CidQueue`, `CidIssuing`, `EndpointIndex`: remote connection IDs in a ring buffer, local ones issued by a
  connection and its endpoint together, and the endpoint's routing tables (section 5.1 of RFC 9000).
- `MtuSearch`, `MtuMigration`: the search for the path MTU, how long it takes, how accurate it is, and what a failed
  migration does to it (RFC 8899).
- `Wire`, `Acks`, `Frames`, `PacketNumber`, `Headers`: the codecs and their round trips (sections 12, 16, 17 and
  19 of RFC 9000).
- `EnginePark`, `ReceiveBridge`: the park/unpark handshake and the bounded receive queue as interleaved atomic
  steps.
- `TokenLog`: no address validation token is accepted twice (section 8.1.4 of RFC 9000).

Objects the source updates in place are classes whose methods are proved against value-level functions; the
properties are then invariants of those classes or theorems about whole runs of those functions.

## What the proofs turned up

Each of these is stated in Dafny with the exact condition under which the intended property holds.

- `RangeSet::replace` stops at a stored empty range. It finds every overlap if and only if no empty range above 0 has
  a byte after it (`RangeSets.AllFoundIff`), which a zero-length fragment brings about unless it is at 0, touches an
  entry or lies beyond all of them (`RangeSets.ReplacedClean`). Otherwise, in unordered mode, a byte can be delivered
  twice (`Assembly.EmptyFragment`).
- Switching to unordered reading defragments without regard to the read position. Bytes that were read are delivered
  again if and only if a buffer starts below that position (`Assembly.SwitchAndRead`), which happens when data arrives
  twice (`Assembly.StaleSwitch`). The read position
  then passes the end of the stream.
- Loss detection compares the number of the MTU probe, a Data packet, with packets of the space it looks at. In
  another space a lost packet with that number stays tracked and the probe is dropped instead
  (`LossDetection.Recovery.DetectLostPackets`, `LossDetection.HandshakePacketShadowsProbe`).
- A close frame with an error code of more than two bytes can exceed the room it was given, because two bytes are
  budgeted (`Frames.CloseFits`, `Frames.LongErrorCodeOverflows`).
- With a minimum change below 3, a search can probe the size it has confirmed again; from 3 on it never does
  (`MtuSearch.SmallChangeReprobes`, `MtuSearch.SearchEnds`).
- A failed migration leaves the MTU search waiting for good if and only if its probe was acknowledged or lost while
  the other path was current (`MtuMigration.FailedMigration`, `MtuMigration.StuckAfterRebinding`).
- The retirement of the next, not yet issued connection ID is let through; agreement and limits survive it if and
  only if nothing was about to be issued (`CidIssuing.UnissuedRetirement`, `CidIssuing.UnissuedRetirementRun`).
- The in-flight counters of both live paths are exact if and only if no packet that counts on the previous path is
  forgotten; such a packet stays on its counter (`InFlight.Conservation`, `InFlight.ForgottenAfterMigration`).
- The last datagram of a batch stays within its segment and the buffer if and only if it does not have to reach 1200
  bytes in fewer (`BatchLayout.BatchLaidOut`). It always does when packets that need padding come first
  (`BatchLayout.PaddedBatch`), and does not after a first datagram of 1110 bytes (`BatchLayout.LatePadding`).
  `BatchLayout.CrampedIff` says which turn brings this about.

## Model

| member | source | states |
|---|---|---|
| RangeSets.OverlapsExact | quic-proto/src/range_set/btree_range_set.rs:142-165 | On a set where no empty entry above 0 has a byte after it, the ranges `replace` yields are non-empty, ascending and disjoint, and cover exactly the part of the new range that was already in the set. |
| RangeSets.AllFoundIff | quic-proto/src/range_set/btree_range_set.rs:294-323 | A sorted set reports every overlap of every range if and only if no empty entry above 0 has a byte after it. |
| RangeSets.ReplacedUnion | quic-proto/src/range_set/btree_range_set.rs:294-332 | Once the iterator is dropped, the set is sorted and separated again and holds exactly the old offsets and the new range. |
| RangeSets.ReplacedClean | quic-proto/src/range_set/btree_range_set.rs:325-332 | The set stays usable if and only if an empty range is at 0, touches an entry or lies beyond all of them, and no range is put beyond an empty last entry. |
| RangeSets.EndHarmless | quic-proto/src/range_set/btree_range_set.rs:325-332 | Empty ranges at 0 and at the end of a stream never harm the set. |
| RangeSets.EmptyRangeHidesByte | quic-proto/src/range_set/btree_range_set.rs:294-323 | After any empty range that touches nothing, every later byte can be recorded and then hidden from a range that overlaps it. |
| RangeSets.Insert | quic-proto/src/range_set/btree_range_set.rs:61-85 | The merging loop leaves a sorted set holding exactly the union, adds nothing empty, and leaves a clean set exactly when no empty last entry is left behind. |
| Buffers.Peek | quic-proto/src/connection/assembler.rs:341-350 | The heap top precedes every buffer: lowest offset, longest first on a tie. |
| Buffers.TrimAll | quic-proto/src/connection/assembler.rs:139-152 | Trimming in heap order drops only bytes that are held already: coverage is unchanged, buffers no longer overlap, and the byte count is that of the bytes left. |
| Buffers.MergeRuns | quic-proto/src/connection/assembler.rs:153-176 | Copying contiguous buffers together keeps coverage and contents, leaves disjoint buffers and allocates exactly the bytes held. |
| Buffers.Compact | quic-proto/src/connection/assembler.rs:132-177 | `defragment` as a whole: same offsets and bytes, each held once, counters equal to the sums. |
| Assembly.Assembler.constructor | quic-proto/src/connection/assembler.rs:32-34 | A new assembler holds nothing and has recorded, delivered and output nothing. |
| Assembly.Assembler.Read | quic-proto/src/connection/assembler.rs:68-126 | A chunk comes out exactly when the byte at the read position (ordered) or some undelivered byte (unordered) was inserted; it repeats the inserted bytes, was never delivered before, and in ordered mode continues the output. Counters never underflow. In unordered mode, even where something is held twice, the chunk is the front of one held buffer and nothing is lost. |
| Assembly.Assembler.ReadSlot | quic-proto/src/connection/assembler.rs:70-86 | The inline slot serves exactly what the heap would. |
| Assembly.Assembler.ReadHeap | quic-proto/src/connection/assembler.rs:88-125 | Stale buffers are dropped and the top buffer is served, with the outcome of `Read`. |
| Assembly.Assembler.Insert | quic-proto/src/connection/assembler.rs:181-255 | Any fragment that repeats what it overlaps is recorded and reads are unaffected; the guarantees of reading survive if and only if the received offsets stay tracked; a fragment none of which is found to be known is held as it is while little is allocated. |
| Assembly.Assembler.InsertOrdered | quic-proto/src/connection/assembler.rs:206-255 | In ordered mode the part already read is dropped, and slot or heap hold the rest. |
| Assembly.Assembler.InsertUnordered | quic-proto/src/connection/assembler.rs:188-205 | In unordered mode exactly the bytes not reported as received are stored; in a valid state each once, and the state stays valid if and only if the fragment is harmless to the set of received offsets. |
| Assembly.SplitFresh | quic-proto/src/connection/assembler.rs:190-205 | The loop over the reported duplicates cuts a fragment into disjoint pieces covering exactly what is not duplicate. |
| Assembly.Assembler.Defragment | quic-proto/src/connection/assembler.rs:132-177 | Defragmentation keeps coverage, removes overlap, and resets both counters to the sums. |
| Assembly.Assembler.EnsureOrdering | quic-proto/src/connection/assembler.rs:44-65 | Ordered reads are refused after unordered ones and nothing else is; entering unordered mode holds on to exactly the same offsets and keeps the guarantees if and only if no buffer starts below the read position. |
| Assembly.CollectReceived | quic-proto/src/connection/assembler.rs:57-62 | The set of received offsets on entering unordered mode is the read prefix and everything buffered. |
| Assembly.View.Counters | quic-proto/src/connection/assembler.rs:13-29 | Read and buffered bytes never exceed the end of the stream seen, and buffered never exceeds allocated. |
| Assembly.Reassemble | quic-proto/src/connection/assembler.rs:68-255 | Over any interleaving of inserts, overlaps and reads, the ordered output is exactly the longest prefix of the stream whose bytes all arrived. |
| Assembly.Scatter | quic-proto/src/connection/assembler.rs:44-255 | Over any run of unordered mode entered before anything was read, with empty fragments at either end of the stream, every inserted offset is delivered exactly once with the right byte. |
| Assembly.SwitchAndRead | quic-proto/src/connection/assembler.rs:44-126 | After a switch to unordered mode at any point, everything inserted is delivered, and something read before is delivered again if and only if a buffer started below the read position. |
| Assembly.StaleSwitch | quic-proto/src/connection/assembler.rs:53-63 | Two bytes that arrive twice and are read once in order are read again after the switch, which takes the read position past the end. |
| Assembly.EmptyFragment | quic-proto/src/connection/assembler.rs:188-205 | An empty fragment at 1, the byte at 2 and the bytes 0 to 2: two chunks deliver the byte at 2. |
| KeyUpdate.Connection.UpdateKeys | quic-proto/src/connection/mod.rs:3575-3603 | From consecutive generations, the connection is one generation on: it holds the old one, the new one and the one after, and the phase bit is the parity of the new one. |
| KeyUpdate.Connection.ForceKeyUpdate | quic-proto/src/connection/mod.rs:1287-1299 | A local update happens only when established and no previous keys are held, and moves the connection on by exactly one generation. |
| KeyUpdate.Connection.DecryptPacket | quic-proto/src/connection/mod.rs:3541-3573 | Only a held key opens a packet; only a packet of the next generation moves the keys, by one; a packet that does not open changes nothing; generations stay consecutive with the phase as parity; the discard timer starts with the packet that ended the previous phase. |
| KeyUpdate.RightKey | quic-proto/src/connection/packet_crypto.rs:85-111 | Whatever the phase bit and packet number select is the key the packet was sealed with whenever that is held, and no KEY_UPDATE_ERROR is raised. |
| KeyUpdate.StepKeepsInv | quic-proto/src/connection/packet_crypto.rs:82-145 | Every step of either side and of the network keeps the two sides within one generation and the record of the previous phase truthful. |
| KeyUpdate.KeyUpdateSafety | quic-proto/src/connection/mod.rs:3541-3603 | Over every run with reordering and repetition: consecutive generations with the phase as parity, a packet opens exactly when its key is held, KEY_UPDATE_ERROR never. |
| KeyUpdate.EarlyUpdateCaught | quic-proto/src/connection/packet_crypto.rs:134-139 | In every run a packet of the next generation, past the previous phase, is a KEY_UPDATE_ERROR exactly when its number is not above all processed or the last remote update was not acknowledged, in which case the peer holds no acknowledgement of its generation; otherwise it moves the keys on by one. |
| CidQueues.CidQueue.constructor | quic-proto/src/cid_queue.rs:24-32 | The queue starts with the first CID under sequence 0 and nothing retired. |
| CidQueues.CidQueue.Insert | quic-proto/src/cid_queue.rs:38-86 | The ring refines a map over the window: retired entries go, the new one is added; both error cases exactly; the reported retired range is new, non-empty and disjoint from all earlier ones; no unwrap can fail. |
| CidQueues.CidQueue.Next | quic-proto/src/cid_queue.rs:90-98 | The active entry is dropped and the least remaining one becomes active; `None` exactly when there is no other. |
| CidQueues.CidQueue.NextStep | quic-proto/src/cid_queue.rs:101-106 | The iterator finds the first present entry of the ring. |
| CidQueues.CidQueue.UpdateInitialCid | quic-proto/src/cid_queue.rs:109-112 | Only the initial entry changes. |
| CidQueues.CidQueue.Active | quic-proto/src/cid_queue.rs:115-117 | The active CID is the one with the least sequence number in the window. |
| CidQueues.InsertedWindow | quic-proto/src/cid_queue.rs:52-68 | Clearing up to the ring length and storing modulo it is exactly the map update, for every cursor position. |
| CidQueues.FirstIsLeast | quic-proto/src/cid_queue.rs:68-75 | The first present entry from the cursor is the least sequence number. |
| CidIssuing.CidState.constructor | quic-proto/src/connection/cid_state.rs:28-54 | A new state has issued and active exactly the first CIDs. |
| CidIssuing.CidState.OnCidTimeout | quic-proto/src/connection/cid_state.rs:94-130 | The retire threshold moves only once everything below it is retired, and one identifier is requested exactly if that makes an active one obsolete. |
| CidIssuing.CidState.OnCidRetirement | quic-proto/src/connection/cid_state.rs:150-176 | A retirement is refused exactly if connection IDs are empty or the number is above the issued count; another identifier is allowed exactly while fewer than the limit are active. |
| CidIssuing.CidState.AddCids | quic-proto/src/connection/cid_state.rs:133-145 | New identifiers become active under consecutive numbers and share one expiry. |
| CidIssuing.CidState.Track | quic-proto/src/connection/cid_state.rs:64-89 | Identifiers with the same expiry share one record. |
| CidIssuing.DrainKeepsInv | quic-proto/src/endpoint.rs:101-120 | Draining the endpoint events keeps both sides in agreement about what is active and issued. |
| CidIssuing.IssuingSafety | quic-proto/src/endpoint.rs:382-402 | Over every run: the endpoint's live CIDs are the active ones, counts agree, at most limit + 1 are active and at most the limit at or above the retire threshold. |
| CidIssuing.UnissuedRetirement | quic-proto/src/connection/cid_state.rs:160-169 | For the one number above those issued that the check lets through, the invariant of both sides and their limits, and their agreement, survive if and only if nothing was pending to be issued. |
| CidIssuing.UnissuedRetirementRun | quic-proto/src/connection/cid_state.rs:160-176 | A run with a limit of 2 in which retiring 0 and 2 in one datagram leaves the endpoint with two identifiers and the connection with three active. |
| MtuSearch.ProbeInBounds | quic-proto/src/connection/mtud.rs:188-244 | Every probe lies strictly above the confirmed lower bound and at most at the upper bound, for a minimum change of at least 3. |
| MtuSearch.SmallChangeReprobes | quic-proto/src/connection/mtud.rs:326-349 | For every smaller minimum change there is a run of a new search, whose only probe is lost three times, that probes the confirmed size next. |
| MtuSearch.SearchEnds | quic-proto/src/connection/mtud.rs:188-264 | Whatever is acknowledged or lost, a search over w sizes sends at most 3 * ceil(log2 w) probes and then ends. |
| MtuSearch.SearchAccuracy | quic-proto/src/connection/mtud.rs:303-349 | On a path that passes exactly L bytes the result never exceeds L and is within 2 * minimum change - 4 of the best possible. |
| MtuSearch.MtuDiscovery.PollTransmit | quic-proto/src/connection/mtud.rs:188-244 | A probe is larger than the current MTU and at most what the peer accepts; a search that is over sets the next activation. |
| MtuSearch.MtuDiscovery.OnAcked | quic-proto/src/connection/mtud.rs:101-122 | Only the acknowledgement, in the data space, of the probe in flight changes the MTU, to the size probed. |
| MtuSearch.MtuDiscovery.OnProbeLost | quic-proto/src/connection/mtud.rs:136-140 | A lost probe never changes the MTU. |
| MtuMigration.StuckIff | quic-proto/src/connection/paths.rs:110-146 | The current search waits for a packet that is no longer tracked if and only if it did before and kept its path, or such a search was restored. |
| MtuMigration.PrevStuckIff | quic-proto/src/connection/mod.rs:1489-1497 | The search of the previous path gets into that state exactly when its probe is acknowledged or lost, which only the current path hears of. |
| MtuMigration.StaysStuck | quic-proto/src/connection/mtud.rs:210-213 | Such a search sends no probe and keeps its MTU until another path takes over. |
| MtuMigration.FailedMigration | quic-proto/src/connection/mod.rs:1202-1209 | A failed migration restores the search as it was, stuck if and only if its probe was acknowledged or lost meanwhile. |
| MtuMigration.StuckAfterRebinding | quic-proto/src/connection/mod.rs:3107-3146 | A run from a new connection: probe, change of port, acknowledgement, path given up, and the search is stuck at 1200. |
| TokenLog.Convert | quic-proto/src/bloom_token_log.rs:170-179 | Converting a set to a Bloom filter forgets no fingerprint. |
| TokenLog.Insert | quic-proto/src/bloom_token_log.rs:155-188 | A filter refuses exactly what it detects and detects what it accepted from then on. |
| TokenLog.BloomTokenLog.CheckAndInsert | quic-proto/src/bloom_token_log.rs:57-119 | A token is refused exactly when it expired before the first period or its period's filter detects it; an accepted one was never accepted before. |
| TokenLog.Present | quic-proto/src/bloom_token_log.rs:57-119 | Over any sequence of presentations, through period turnover and conversion, no token is accepted twice. |
| EnginePark.ProducerKeepsInv | quac-network-tile-socket/src/lib.rs:116-123 | A push, flag check and unpark at any moment keep the engine from missing work. |
| EnginePark.EngineKeepsInv | quac/src/engine_tile.rs:15-62 | Each atomic step of the spin-then-park loop keeps the same invariant. |
| EnginePark.NoLostWakeup | quac/src/engine_tile.rs:19-62 | In every interleaving with any number of producers and queues: while the engine sleeps without a permit, each queue is empty or a producer is between its push and its unpark, and no connection is marked for sending. |
| EnginePark.ProducerWakes | quac/src/bridge.rs:120-132 | That producer's own next steps give the permit. |
| EnginePark.TileEngine.Mark | quac/src/tile_engine.rs:425-430 | Marking lists a live connection once. |
| EnginePark.TileEngine.DriveTransmit | quac/src/tile_engine.rs:520-573 | Afterwards exactly connections that sent something are listed, and work was done if and only if there are any; without work none is marked. |
| ReceiveBridge.StepKeepsInv | quac/src/tile_engine.rs:349-410 | Bytes read, left over, queued and in the engine's hand always concatenate to what was taken, and the room checked at the gate is still there at the push. |
| ReceiveBridge.BridgeSafety | quac/src/app.rs:244-287 | In every interleaving no chunk is refused by the bounded queue and the application has read a prefix of what the engine took. |
| ReceiveBridge.RecvStream.PollRead | quac/src/app.rs:244-287 | The bytes returned come off the front of what was left over and queued, and there are some whenever some were available. |
| Wire.VarRoundTrip | quic-proto/src/varint.rs:142-192 | Decoding an encoded variable-length integer returns it and leaves what follows. |
| Wire.UintRoundTrip | quic-proto/src/coding.rs:34-71 | Big-endian integers of any width round trip. |
| Wire.VarBound | quic-proto/src/varint.rs:142-177 | Whatever is decoded is below 2^62. |
| Acks.EncodeRanges | quic-proto/src/frame.rs:387-406 | The loop writes size, gap, size, ... from the highest range down. |
| Acks.ScanAckBlocks | quic-proto/src/frame.rs:765-776 | The loop with checked subtractions accepts exactly n + 1 valid blocks and returns how many bytes they cover, or the first error. |
| Acks.ScannedIterates | quic-proto/src/frame.rs:813-825 | Whatever the scanner accepts, the unchecked iterator reads without failing or underflowing, as n + 1 strictly descending disjoint blocks. |
| Acks.RangesRoundTrip | quic-proto/src/frame.rs:381-410 | The scanner accepts what the encoder writes and the iterator gives the ranges back. |
| Frames.NextSound | quic-proto/src/frame.rs:575-723 | On any bytes an accepted frame is well formed (iterable ACKs, connection IDs of 1 to 20 bytes with retire_prior_to at most the sequence) and takes at least one byte. |
| Frames.DecodePayload | quic-proto/src/frame.rs:551-565 | An empty payload is an error; otherwise the frames in order or the first error. |
| Frames.FrameRoundTrip | quic-proto/src/frame.rs:575-723 | For each of the frame types, decoding what was encoded gives the frame and stops right behind it. |
| Frames.PayloadRoundTrip | quic-proto/src/frame.rs:730-748 | A payload of any frames, only the last without a length, decodes to exactly those frames. |
| Frames.CloseReadsBack | quic-proto/src/frame.rs:287-300 | A close frame round trips with its reason cut to the room left. |
| Frames.CloseFits | quic-proto/src/frame.rs:330-339 | A close frame stays within its limit if and only if the error code and an uncut reason fit what was budgeted, or the length prefix of a cut reason saves what the error code takes over two bytes; always for codes of at most two bytes. |
| Frames.LongErrorCodeOverflows | quic-proto/src/frame.rs:331-338 | A four-byte code with a truncated reason exceeds the limit by two bytes. |
| PacketNumbers.New | quic-proto/src/packet.rs:697-710 | The encoding is the shortest whose half window exceeds the distance to the largest acknowledged number, and fails from 2^31 on. |
| PacketNumbers.ExpandExact | quic-proto/src/packet.rs:758-787 | Expansion recovers a number if and only if it is in the window around the expected one, or was not truncated where the window reaches below 0. |
| PacketNumbers.NumberRoundTrip | quic-proto/src/packet.rs:697-787 | Across sender and receiver a number is recovered if and only if it is not overtaken by half a window. |
| Headers.Decode | quic-proto/src/packet.rs:35-59 | The first packet and the rest are the datagram, cut where the length says; packets without a length take all of it. |
| Headers.HandleCoalesced | quic-proto/src/connection/mod.rs:2253-2279 | The receive loop hands on exactly the packets up to the first malformed header. |
| Headers.SplitPartitions | quic-proto/src/connection/mod.rs:2261-2278 | On any datagram the packets found partition it in order up to the first malformed header, and only the last lacks a length. |
| Headers.HeaderRoundTrip | quic-proto/src/packet.rs:585-660 | The receiver reads back type, version, connection IDs, token position, length and spin bit, whatever protection did to the rest. |
| Headers.CoalescedRoundTrip | quic-proto/src/packet.rs:585-660 | Any datagram of coalesced packets is split at exactly the original boundaries. |
| Headers.Encode | quic-proto/src/packet.rs:292-387 | The header is written with room for the length, ending in the packet number. |
| Headers.Finish | quic-proto/src/packet.rs:479-508 | Patching the length and protecting the packet in place gives exactly the packet on the wire. |
| LossDetection.Scan | quic-proto/src/connection/mod.rs:1722-1773 | The lost packets are listed exactly, the probe aside; the loss time is the earliest deadline of a packet kept; persistent congestion implies, and with ordered send times is, an unbroken run of losses longer than the period. |
| LossDetection.TakeLost | quic-proto/src/connection/mod.rs:1788-1812 | Exactly the lost packets leave the tracked ones, each remembered with the time it was sent. |
| LossDetection.Recovery.DetectLostPackets | quic-proto/src/connection/mod.rs:1701-1851 | In the Data space exactly the packets past a threshold are gone; in any space that holds if and only if none of them has the probe's number. |
| LossDetection.HandshakePacketShadowsProbe | quic-proto/src/connection/mod.rs:1736-1739 | A concrete lost Handshake packet stays tracked while the probe is dropped. |
| LossDetection.Pass.VerdictStep | quic-proto/src/connection/mod.rs:1743-1760 | Each packet of the scan adds exactly the persistent congestion it completes. |
| InFlight.Connection.constructor | quic-proto/src/connection/mod.rs:287-290 | One path of generation 0 with nothing in flight. |
| InFlight.Connection.SendPacket | quic-proto/src/connection/paths.rs:170-178 | A packet is counted on the current path; a forgotten one comes off that path only. |
| InFlight.Connection.RemoveInFlight | quic-proto/src/connection/mod.rs:3732-3742 | A packet comes off the live path it was sent on, if any; no subtraction underflows. |
| InFlight.Connection.Take | quic-proto/src/connection/mod.rs:1625-1626 | Acknowledging or losing a packet takes exactly it off. |
| InFlight.Connection.DropSpace | quic-proto/src/connection/mod.rs:2246-2249 | Dropping a space takes exactly its packets off the paths they were sent on. |
| InFlight.Connection.MigratePath | quic-proto/src/connection/mod.rs:3107-3146 | The new path starts empty; a validated old path is kept. |
| InFlight.Connection.OnPathResponse | quic-proto/src/connection/mod.rs:2859-2872 | Validation changes no counter. |
| InFlight.Connection.OnPathTimeout | quic-proto/src/connection/mod.rs:1202-1209 | The previous path takes over with its own counters. |
| InFlight.StepKeepsInv | quic-proto/src/connection/paths.rs:453-462 | Every event keeps the account of each live path; from an exact account it leads to an exact one if and only if it does not forget a packet that counts on the previous path. |
| InFlight.Conservation | quic-proto/src/connection/mod.rs:3732-3742 | In every run each live path counts exactly the ack-eliciting packets tracked on it and at least their bytes; both counters are exact all along if and only if no packet that counts on the previous path is forgotten; ack-eliciting packets in flight imply bytes in flight. |
| InFlight.State.ForgottenStaysCounted | quic-proto/src/connection/paths.rs:175-177 | Forgetting a packet of the previous path leaves its size on that path's counter. |
| InFlight.ForgottenAfterMigration | quic-proto/src/connection/spaces.rs:221-260 | A run from the start, exact until its last event: padded packets, a migration, and a packet that has one of them forgotten, after which the previous path counts its size too much. |
| BatchLayout.CloseKeeps | quic-proto/src/connection/mod.rs:635-702 | A datagram that is not cramped is closed on a segment boundary at exactly its capacity, or ends the batch within it; the first one sets the segment size. |
| BatchLayout.CrampedAsserted | quic-proto/src/connection/mod.rs:732-746 | A datagram padded beyond its capacity is never followed by another: one of two assertions fails. |
| BatchLayout.AssertedIff | quic-proto/src/connection/packet_builder.rs:143-170 | A turn fails an assertion if and only if its packet does not fit what is left of the datagram, or a datagram is opened that is too small for it or follows a cramped one. |
| BatchLayout.CrampedIff | quic-proto/src/connection/packet_builder.rs:174-182 | A turn leaves a datagram that has to reach 1200 bytes in fewer if and only if its packet has to be padded in one, open or new, that was given fewer, or it was so before and stays. |
| BatchLayout.FirstIsLarge | quic-proto/src/connection/mod.rs:683-700 | A first datagram that is followed by another sets a segment size with room for a packet: it was nearly full, or what did not fit into it passes the second check against its size. |
| BatchLayout.TurnKeeps | quic-proto/src/connection/mod.rs:526-910 | One turn keeps alignment, capacity, the datagram limit and the anti-amplification condition. |
| BatchLayout.BatchLaidOut | quic-proto/src/connection/mod.rs:459-1010 | Every batch that is returned is laid out in whole segments with a last datagram that is not empty; that one is within its segment and the capacity if and only if it is not cramped, and even then the budget holds; nothing is refused unless the keys are used up. |
| BatchLayout.PaddedBatch | quic-proto/src/connection/packet_builder.rs:174-182 | When packets that need padding come first, no batch exceeds its capacity or segments. |
| BatchLayout.RoomyBatch | quic-proto/src/connection/mod.rs:746 | When moreover packets have the sizes the packet space is made for and are filled as far as frames fit, no assertion fails. |
| BatchLayout.BatchSends | quic-proto/src/connection/mod.rs:526-634 | If the first packet is let through and some budget is left, a returned batch is not empty. |
| BatchLayout.LatePadding | quic-proto/src/connection/packet_builder.rs:174-182 | A Handshake packet of 1110 bytes and then a padded 1-RTT packet give 2310 bytes in a capacity of 2220, though frames and headers are as they should be. |
| BatchLayout.Path.PollTransmit | quic-proto/src/connection/mod.rs:459-1010 | Exactly the batch of the turns, counted on the path; datagrams are whole segments; an unvalidated peer is always sent less than 3 times what it sent plus one MTU; capacity is kept when padding comes first, and no assertion fails for packets of the expected sizes that are filled as far as frames fit. |
| BatchLayout.Path.Receive | quic-proto/src/connection/mod.rs:2260 | Received bytes only widen the budget. |
| EndpointIndex.Endpoint.constructor | quic-proto/src/endpoint.rs:65-84 | All tables start empty and consistent. |
| EndpointIndex.Endpoint.RouteExact | quic-proto/src/endpoint.rs:1095-1113 | A datagram reaches a connection if and only if its CID is one of that connection's own, or, for Initial and 0-RTT packets, its client's first choice and nobody's own; and a pending attempt if and only if, for such packets, it is the attempt's and nobody's own. |
| EndpointIndex.Endpoint.BufferFor | quic-proto/src/endpoint.rs:214-233 | A datagram is held exactly when both limits allow it, and both counters grow by its length. |
| EndpointIndex.Endpoint.HandleFirstPacket | quic-proto/src/endpoint.rs:420-519 | A new attempt is registered exactly when size, limits, CID length, keys and token allow it, under a CID no other attempt or connection uses. |
| EndpointIndex.Endpoint.Handle | quic-proto/src/endpoint.rs:211-262 | Every datagram is routed to a live connection, held for a pending attempt, made a new attempt or dropped, and all tables stay consistent. |
| EndpointIndex.Endpoint.NewCid | quic-proto/src/endpoint.rs:405-418 | The CID drawn was not in use and is registered. |
| EndpointIndex.Endpoint.OpenConnection | quic-proto/src/endpoint.rs:592-615 | A new connection owns exactly the CIDs drawn for it, which nobody shares. |
| EndpointIndex.Endpoint.Accept | quic-proto/src/endpoint.rs:523-671 | Each outcome exactly; the attempt's bytes leave the counter; a failed attempt leaves no trace in any table. |
| EndpointIndex.Endpoint.CleanUpIncoming | quic-proto/src/endpoint.rs:784-788 | Refusing, ignoring or retrying removes the attempt and its bytes and nothing else. |
| EndpointIndex.Endpoint.Drained | quic-proto/src/endpoint.rs:121-131 | A drained connection disappears from every table, and nothing else does. |
| EndpointIndex.Endpoint.RemoveCids | quic-proto/src/endpoint.rs:1083-1085 | The loop removes exactly the connection's own CIDs. |
| EndpointIndex.Endpoint.SendNewIdentifiers | quic-proto/src/endpoint.rs:382-402 | Fresh CIDs are issued under consecutive sequence numbers; nothing else changes. |
| EndpointIndex.Endpoint.RetireConnectionId | quic-proto/src/endpoint.rs:112-120 | A retired CID leaves both tables, and a new one is issued exactly when allowed. |

## Left out

- Assembly.Assembler.Insert: fragments that contradict bytes already received are excluded, because the source does not define which of them wins; once the received offsets are no longer tracked, so are fragments of which an overlap is reported.
- Assembly.Assembler.InsertOrdered: excludes contradicting fragments for the same reason.
- Assembly.Assembler.InsertUnordered: excludes the same fragments as `Assembly.Assembler.Insert`.
- Assembly.Scatter: zero-length fragments inside the stream are excluded; `Assembly.EmptyFragment` shows why.
- KeyUpdate.KeyUpdateSafety: 1-RTT packets only, without 0-RTT keys, against a peer that starts a generation only after an acknowledgement of a packet in its current one.
- CidIssuing.IssuingSafety: endpoint events are drained between steps and the peer retires only issued numbers; the exception is `CidIssuing.UnissuedRetirement`.
- MtuSearch.SearchAccuracy: only for a minimum change of at least 3, below which `MtuSearch.SmallChangeReprobes` applies.
- TokenLog.Present: the lifetime is fixed and the Bloom filter is only assumed to have no false negatives.
- BatchLayout.TurnKeeps: frame writers are taken to respect the limit they are given; `Frames.CloseFits` says when the close frame does.
- BatchLayout.RoomyBatch: a sufficient condition on the packets; the exact one, for each turn, is `BatchLayout.AssertedIff`. That packets are filled as far as frames fit is a condition, since writing frames is not part of the model.
- BatchLayout.AssertedIff: the room and alignment checks are debug assertions; the model ends the batch where one fails, while a release build goes on and sends.
- BatchLayout.Path.PollTransmit: the MTU is fixed and the path not established, so the MTU probe, the off-path PATH_RESPONSE and the PATH_CHALLENGE for a previous path, which return early, are not part of it.
- InFlight.Connection.SendPacket: when and which packet a space forgets is left open; any non-ack-eliciting one may be.
- MtuMigration.StaysStuck: the black hole detector, which ends a search, is not part of the model.
- MtuSearch.MtuDiscovery.OnAcked: the black hole detector is not part of the model.
- InFlight.Connection.MigratePath: the path counter does not wrap around.
- LossDetection.Recovery.DetectLostPackets: in another space than Data, the probe is taken to be tracked; only a failed migration leaves one that is not, and only a server, whose other spaces are gone by then, follows a migration.
- LossDetection.Scan: the loss delay and the congestion period are given durations, and times are integers.
- EndpointIndex.Endpoint.Handle: routing by stateless reset token and by address, which zero-length CIDs need, and client connections are not modelled.
- EndpointIndex.Endpoint.Drained: the tables of reset tokens and addresses are not modelled.
- ReceiveBridge.BridgeSafety: end of stream and liveness are not stated.
- EnginePark.NoLostWakeup: interleavings are sequentially consistent; timer deadlines while parked are not modelled.
- TLS, AEAD, header protection, HMAC and hashing are opaque: they appear as generations, oracles or replaced bytes.
- Congestion controllers, the pacer and RTT estimation: floating point dominates.
- The MTU black hole detector, transport parameters, token encoding, flow control, stream scheduling and the timers.
- Sockets, buffer pools, statistics, logging and configuration.
- Integer widths: counters and times are unbounded except where a width decides the result (variable-length integers, packet numbers, header lengths, token fingerprints).

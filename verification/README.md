# Model of rust-shark

rust-shark captures packets, decodes them, tracks flows, watches which process talks to whom, raises
alerts, and shows all of it in a terminal. This project models the parts that keep state or undo an
encoding, and proves what they are for:

- **TCP reassembly**: 32-bit wrapping sequence numbers against streams indexed by natural numbers.
- **Flows**: the least-recently-used flow table, the daemon's worker loop with its live table and
  events, the event bus, and the inspector that rebuilds the live table from events.
- **HTTP/2 and HPACK**: frame walk, prefix integers, string literals, dynamic table; a reference
  encoder is the partner (RFC 7541, section 4.1 of RFC 9113).
- **Filter language**: the recursive-descent parser against a printer with minimal parentheses.
- **DNS**: compressed names, and whole messages laid out and read back (section 4.1 of RFC 1035).
- **Alerts**: the learning window, five signals, cooldown, and volume statistics, with every stored
  alert stated as a function of the history of observations.
- **Threat heuristics**, the **packet list** with its incremental filter index, the **PCAPNG writer**
  with a reference reader (section 4 of draft-ietf-opsawg-pcapng), and the **capture comparison**.

Code that changes state is a class whose methods are proved against specification functions on values
(`Model()`, `State()`, or the one table value `db`); runs are folds of those functions, and
the theorems are about all runs.

## Layout

| area | modules |
|---|---|
| shared | Bytes, Decimals, OrderedMaps, SerialNumbers |
| reassembly | Reassembly, ReassemblyRuns, ReassemblyLimits, ReassemblyOrder, ReassemblyProgress |
| flows | FlowKeys, FlowStates, FlowStateLaws, FlowAcks, FlowTracker, FlowRuns, FlowLayers, FlowEndings, FlowEstimates |
| daemon and inspector | Monitor, MonitorRuns, ClosedFlows, LiveEntries, MonitorAlerts, Inspector, LateSubscribers, EventBus |
| HTTP/2 | HpackStatic, HpackAppendix, HpackIntegers, Hpack, HpackRoundTrip, HpackExample, Http2, Http2Skips |
| filters | FilterSyntax, FilterParser, FilterPrinter, FilterAtoms, FilterRoundTrip, FilterEdges |
| DNS | DnsNames, DnsMessages, DnsLayouts, DnsExample |
| alerts | AlertTypes, AlertStore, AlertBaseline, VolumeLaws, DedupKeys, AlertEngine, AlertWrites, AlertFirings, AlertHistory, AlertIdentities, AlertRuns, AlertRepeats, AlertLabels, AlertMeanings, AlertTables |
| threats | Threats, ThreatRuns, ThreatLayers |
| packet list | PacketRings, FilterIndex, PacketView, PacketApp, PacketRuns, PacketGestures |
| files | Pcapng, PcapngReader, PcapngOctets, CaptureDiff, DiffExactness |

`dafny verify dfyconfig.toml` checks everything.

## Where the code does less than it seems to

Each of these is proved with its exact condition, most of them with an input on which it shows:

- Reassembly is safe for streams below 2^32 bytes and for no longer ones (`ReassemblyLimits.SafetyLimit`,
  `ReassemblyLimits.StaleRun`).
- Acknowledgements are compared as plain numbers: across a wrap, covered data stays in flight and data not
  yet received is removed and timed (`FlowAcks.AckRightIffSameLap`, `FlowAcks.CoveredButKept`,
  `FlowAcks.RemovedButNotCovered`).
- With both or no endpoint local, everything counts as upload in the live table only
  (`MonitorRuns.OrientationAgreement`, `MonitorRuns.NoLocalEndpoint`).
- The inspector loads its snapshot before it subscribes, and what happens in between can be missed for good
  (`LateSubscribers.LateSubscription`, `LateSubscribers.ResetBetween`); refreshing later never loses
  anything (`MonitorRuns.RefreshAnyTime`).
- Padded or prioritised HEADERS frames, PUSH_PROMISE and CONTINUATION are not looked into. What that costs
  the blocks after them is exact (`HpackRoundTrip.SkippedBlock`, `Http2Skips.StreamReadsOn`,
  `Http2Skips.SkippedHeaders`).
- A compressed DNS name whose last pointer leads straight to the root is shown with a spare dot
  (`DnsNames.NameParsed`, `DnsNames.DanglingShown`).
- The identity signal compares with the first sighting of a hash, so a change of signature under the
  same hash is reported again after every cooldown although nothing changed since
  (`AlertRepeats.UnchangedYetRaised`, `AlertRepeats.RaisedTwice`).
- A commit that fails leaves its transaction open, and every later evaluation is refused
  (`AlertEngine.Engine.EvaluateFull`).
- A string value that opens with digits is not read as that string: `80` is a number, and a filter on `80x`
  becomes a text search (`FilterRoundTrip.StringComparisonRead`, `FilterRoundTrip.SuffixedNumber`).
- A packet block of 2^32 bytes or more does not read back (`PcapngReader.ReadsBackIffLengthsFit`).
- The comparison of captures is by 64-bit hash although it is documented as by content; after a collision
  its answer depends on the order of capture (`DiffExactness.ExactIffPairsAgree`,
  `DiffExactness.CollisionDependsOnOrder`).
- A packet buffer of capacity zero holds one packet (`PacketRings.RingHoldsNewest`).
- A click on the bottom border of the packet list selects the row just below the last one drawn
  (`PacketGestures.ClickSelectsDrawn`).

## Model

| member | source | states |
|---|---|---|
| ReassemblyRuns.Safety | crates/rust-shark-core/src/flow/reassembly.rs:53-138 | over every run of slices of one stream shorter than 2^32 bytes, from any initial sequence number, drained bytes followed by pending ones are exactly the stream from the first segment on; `next_seq` is that position modulo 2^32 and not a stored key; the total is the sum of what is held and within 1 MiB |
| ReassemblyRuns.RunFaithful | crates/rust-shark-core/src/flow/reassembly.rs:62-138 | the invariant behind safety, kept by every insert and drain of any run |
| ReassemblyLimits.SafetyLimit | crates/rust-shark-core/src/flow/reassembly.rs:53-138 | the limit is exact: every run over a stream of n bytes is safe if and only if n is below 2^32 |
| ReassemblyLimits.StaleRun | crates/rust-shark-core/src/flow/reassembly.rs:62-129 | the run that breaks longer streams: a late retransmission of byte 0 is appended again after byte 2^32 - 1 |
| ReassemblyOrder.OrderIndependence | crates/rust-shark-core/src/flow/reassembly.rs:62-147 | pieces delivered in any order and any number of times, with drains anywhere, give the whole stream if and only if the first piece came first; then nothing stays stored and the stream is complete after FIN |
| ReassemblyOrder.EachPieceOnce | crates/rust-shark-core/src/flow/reassembly.rs:62-147 | pieces totalling at most the cap, first piece first, each other once in any order: whole stream, nothing left, complete after FIN |
| ReassemblyOrder.NeverCapped | crates/rust-shark-core/src/flow/reassembly.rs:100-106 | such a delivery never reaches the buffer cap |
| ReassemblyOrder.CompleteExactly | crates/rust-shark-core/src/flow/reassembly.rs:140-147 | over any run the stream is complete exactly when its end was announced and no segment waits |
| ReassemblyProgress.InsertByOffset | crates/rust-shark-core/src/flow/reassembly.rs:62-129 | what one insertion does, by true offsets: a slice behind the position is a duplicate, one reaching over it is trimmed and appended, one at it is appended, one up to 2^30 ahead is stored, one farther ahead is out of range, and only the 1 MiB cap ends in between |
| ReassemblyProgress.DeliveredIsReceived | crates/rust-shark-core/src/flow/reassembly.rs:62-129 | progress over runs: unless the cap is hit, a slice that starts at or before the position when it is delivered is received to its end |
| Reassembly.InsertKeepsWellFormed | crates/rust-shark-core/src/flow/reassembly.rs:62-129 | every insertion keeps the accounting, the 1 MiB bound and `next_seq` out of the stored keys |
| Reassembly.PullInAccounting | crates/rust-shark-core/src/flow/reassembly.rs:108-117 | the pull-in loop moves bytes from stored segments to pending ones without changing the total, and stops with no segment at `next_seq` |
| Reassembly.ReassemblyBuffer.InsertSegment | crates/rust-shark-core/src/flow/reassembly.rs:62-129 | one insertion: new state and result are those of the specification, for every segment |
| Reassembly.ReassemblyBuffer.TryDrain | crates/rust-shark-core/src/flow/reassembly.rs:132-138 | hands out exactly the pending bytes and forgets them |
| Reassembly.ReassemblyBuffer.SetFin | crates/rust-shark-core/src/flow/reassembly.rs:140-143 | marks FIN and nothing else |
| Reassembly.ReassemblyBuffer.Complete | crates/rust-shark-core/src/flow/reassembly.rs:145-147 | complete exactly when FIN was marked and no segment waits |
| SerialNumbers.SeqLeqExact | crates/rust-shark-core/src/flow/tracker.rs:304-308 | serial comparison is the true order exactly when the true distance lies in [-2^31, 2^31) |
| FlowKeys.KeyNormalization | crates/rust-shark-core/src/flow/mod.rs:28-49 | both directions share a key, key and direction give the endpoints back, and two conversations share a key only if they are the same |
| FlowKeys.LowIsSmaller | crates/rust-shark-core/src/flow/mod.rs:28-49 | the low end is the one with the smaller address, IPv4 before IPv6, or the smaller port; a packet from it goes up |
| FlowRuns.Conservation | crates/rust-shark-core/src/flow/tracker.rs:55-154 | over every run, per key and per measure (packets, bytes each way, incarnations), accepted traffic equals the live entry plus all emitted snapshots |
| FlowRuns.TableBounded | crates/rust-shark-core/src/flow/tracker.rs:72-88 | the table holds distinct keys and never more than 10 000 |
| FlowRuns.LeastRecentlyUsed | crates/rust-shark-core/src/flow/tracker.rs:72-88 | the table is always ordered by each flow's last packet |
| FlowRuns.EvictionVictim | crates/rust-shark-core/src/flow/tracker.rs:72-82 | an eviction happens only in a full table and its victim was updated longest ago |
| FlowRuns.LiveIsReplay | crates/rust-shark-core/src/flow/tracker.rs:55-154 | a live entry is the replay of its own incarnation alone, whatever happened to other flows |
| FlowRuns.SentIsReplay | crates/rust-shark-core/src/flow/tracker.rs:55-154 | every emitted snapshot is that of one whole incarnation |
| FlowRuns.AnnotationIsReplay | crates/rust-shark-core/src/flow/tracker.rs:100-154 | a packet's annotation depends on its own incarnation alone |
| FlowTracker.RoomIsEnough | crates/rust-shark-core/src/flow/tracker.rs:72-88 | after the explicit eviction the cache itself never drops a flow silently |
| FlowTracker.UpdateKeepsTable | crates/rust-shark-core/src/flow/tracker.rs:55-154 | one update keeps keys distinct and the bound |
| FlowTracker.ExtractFlowInfo | crates/rust-shark-core/src/flow/tracker.rs:251-302 | endpoints, protocol and TCP fields as the layer loop finds them |
| FlowLayers.InfoExactly | crates/rust-shark-core/src/flow/tracker.rs:251-302 | a packet belongs to a flow exactly when a TCP or UDP layer follows an IP layer; the flow has the ports of the first transport layer and the addresses and protocol number of the last IP layer before it |
| FlowTracker.Tracker.MakeRoom | crates/rust-shark-core/src/flow/tracker.rs:72-82 | a full table gives up its oldest flow, whose snapshot is sent first |
| FlowTracker.Tracker.GetOrInsert | crates/rust-shark-core/src/flow/tracker.rs:84-88 | looks up or opens the entry and makes it the most recent |
| FlowTracker.Tracker.Settle | crates/rust-shark-core/src/flow/tracker.rs:140-145 | stores the state, or removes an ended flow and sends its snapshot |
| FlowEndings.ClosesExactly | crates/rust-shark-core/src/flow/tracker.rs:115-128 | over all packets of a flow, it closes exactly when the latest is TCP and a RST, or a FIN from either side, has been among them |
| FlowEndings.EndsExactly | crates/rust-shark-core/src/flow/tracker.rs:115-145 | over every run a packet's key leaves the table, and its snapshot is sent, exactly then |
| FlowEndings.SnapshotEndpoints | crates/rust-shark-core/src/flow/tracker.rs:169-215 | a snapshot names the only local endpoint as local, and the low one when both or neither is |
| FlowEstimates.SnapshotSummarizes | crates/rust-shark-core/src/flow/tracker.rs:169-215 | a snapshot spans the flow's first and last packet, and shows the weighted mean of its samples and the time from SYN to SYN/ACK |
| FlowTracker.Tracker.UpdateFlow | crates/rust-shark-core/src/flow/tracker.rs:55-154 | one packet: table, completion queue and update are those of the specification |
| FlowTracker.Tracker.TryRecv | crates/rust-shark-core/src/monitor/correlate.rs:69-71 | the completion queue gives back snapshots in the order sent |
| FlowStateLaws.FlagsRightExactly | crates/rust-shark-core/src/flow/tracker.rs:100-113 | for ends within one sequence space of the running maximum, every retransmission flag is right if and only if every end stays within half a space of it |
| FlowStateLaws.TrackedMaximum | crates/rust-shark-core/src/flow/tracker.rs:100-113 | `max_seq` is the true maximum modulo 2^32, across any number of wraps |
| FlowStateLaws.RetransmissionAnnotation | crates/rust-shark-core/src/flow/tracker.rs:84-138 | the annotation of a flow's latest packet, from all its packets |
| FlowAcks.InFlightBounded | crates/rust-shark-core/src/flow/tracker.rs:326-338 | after every packet of every flow both in-flight maps are ordered and within 256 entries |
| FlowAcks.InFlightIsPending | crates/rust-shark-core/src/flow/tracker.rs:326-369 | every in-flight entry is the end and send time of a data packet of the flow that no later ACK numbers at or above |
| FlowAcks.AckRemoves | crates/rust-shark-core/src/flow/tracker.rs:340-369 | an ACK removes exactly the entries whose numbers are not above its own |
| FlowAcks.AckRightIffSameLap | crates/rust-shark-core/src/flow/tracker.rs:340-369 | an entry in flight is removed if and only if the ACK covers it in true order, exactly when no wrap of the sequence number lies between the two |
| FlowAcks.CoveredButKept | crates/rust-shark-core/src/flow/tracker.rs:340-369 | an input where covered data stays in flight |
| FlowAcks.RemovedButNotCovered | crates/rust-shark-core/src/flow/tracker.rs:340-369 | an input where data beyond the ACK is removed and timed |
| FlowStateLaws.SrttIsSmoothedHistory | crates/rust-shark-core/src/flow/tracker.rs:310-370 | the estimate is the smoothing of all samples so far |
| FlowEstimates.SmoothIsWeighted | crates/rust-shark-core/src/flow/tracker.rs:355-366 | that smoothing in closed form: the exponentially weighted mean in which the newest sample weighs an eighth |
| FlowEstimates.SamplesAre | crates/rust-shark-core/src/flow/tracker.rs:355-366 | the samples: for each acknowledged entry sent no later than now, in order, the milliseconds since |
| FlowEstimates.EndIsOffset | crates/rust-shark-core/src/flow/tracker.rs:100-105 | the end tracked of a segment is the number of the offset after its last byte |
| FlowStateLaws.SrttBetweenSamples | crates/rust-shark-core/src/flow/tracker.rs:310-370 | the estimate exists once a sample does and lies between the smallest and the largest |
| FlowStates.CapUnacked | crates/rust-shark-core/src/flow/tracker.rs:326-338 | the in-flight map keeps its largest 256 keys |
| FlowStates.FoldSamples | crates/rust-shark-core/src/flow/tracker.rs:355-366 | acknowledged send times folded into the estimate in key order |
| FlowAcks.HandshakeMeasured | crates/rust-shark-core/src/flow/tracker.rs:310-324 | over all packets of a flow the handshake estimate is the time from the first SYN to the first SYN/ACK after it not stamped before it, and absent until then |
| FlowStates.RecordRtt | crates/rust-shark-core/src/flow/tracker.rs:310-370 | the whole of `record_rtt` on both in-flight maps |
| MonitorRuns.ReplicaAgreement | crates/rust-shark-core/src/monitor/correlate.rs:57-126 | at every turn boundary flow table, metas and live table have the same keys, live ids are distinct, no event speaks of a closed id again, and replaying all events gives the live table by id |
| MonitorRuns.RefreshAnyTime | crates/rust-shark-core/src/inspector/state.rs:49-72 | a snapshot of any boundary followed by the queued events from any earlier position shows exactly the live table |
| LateSubscribers.LateSubscription | crates/rust-shark-app/src/inspect/mod.rs:75-92 | an inspector that loads at one boundary and subscribes at a later one ends up with the live table if and only if no flow loaded was closed in between and every flow opened or updated in between is spoken of again |
| LateSubscribers.PhantomForever | crates/rust-shark-app/src/inspect/mod.rs:75-92 | a flow closed in between stays on show as loaded, whatever happens later |
| LateSubscribers.ResetBetween | crates/rust-shark-app/src/inspect/mod.rs:75-92 | an input on which it happens: a SYN before the load and a RST before the subscription |
| MonitorRuns.OrientationAgreement | crates/rust-shark-core/src/monitor/correlate.rs:95-112 | live up and down counters equal the tracker snapshot's if and only if exactly one endpoint is local or nothing went from high to low |
| MonitorRuns.NoLocalEndpoint | crates/rust-shark-core/src/monitor/correlate.rs:95-112 | an input where they differ: two packets between hosts of which neither is local |
| MonitorRuns.RowsAreSnapshots | crates/rust-shark-core/src/monitor/correlate.rs:219-255 | the rows handed to the store are one for one, in order, the snapshots the tracker sent, times in milliseconds |
| ClosedFlows.RowsMatchLastEvents | crates/rust-shark-core/src/monitor/correlate.rs:191-255 | those rows are, in order, for the ids closed, a row bears the name of the last event broadcast for its id, and with exactly one local endpoint counts its bytes |
| LiveEntries.LiveShowsSightings | crates/rust-shark-core/src/monitor/correlate.rs:87-213 | at every boundary each live connection has the endpoints, direction, id and start of the first packet of its flow's current incarnation, the time of the last, and of process, name, country, network and verdict whatever was last answered with one of its packets |
| LiveEntries.SightingsAreIncarnation | crates/rust-shark-core/src/monitor/correlate.rs:57-80 | those packets are the flow's incarnation in the tracker's table |
| LiveEntries.ClosedRowsShow | crates/rust-shark-core/src/monitor/correlate.rs:219-255 | a turn hands over one row per snapshot, in order, with the name and verdict last answered, stored unless the store refuses it |
| LiveEntries.IdsCountOpenings | crates/rust-shark-core/src/monitor/correlate.rs:114-126 | ids are handed out one by one, from 1 on, to the connections opened |
| MonitorAlerts.AlertsAreBroadcast | crates/rust-shark-core/src/monitor/correlate.rs:150-168 | in every run the alerts broadcast are exactly those of the verdicts given, each once and in order |
| MonitorAlerts.FeedShowsNewest | crates/rust-shark-core/src/inspector/state.rs:56-61 | so an inspector that listens from the start lists the 500 newest of them |
| MonitorRuns.RunSameFlows | crates/rust-shark-core/src/monitor/correlate.rs:57-80 | the three tables list the same flows after every run |
| MonitorRuns.EventsGrow | crates/rust-shark-core/src/monitor/correlate.rs:87-213 | events are only ever appended |
| Monitor.Worker.Correlate | crates/rust-shark-core/src/monitor/correlate.rs:114-168 | bookkeeping found or opened with the next id, the verdict recorded, its alerts broadcast |
| Monitor.Worker.Handle | crates/rust-shark-core/src/monitor/correlate.rs:87-213 | one flow update: all worker tables and events as specified |
| Monitor.Worker.Persist | crates/rust-shark-core/src/monitor/correlate.rs:219-255 | one closed flow: the row handed to the store, which may refuse it, the Closed event, and the entries dropped |
| Monitor.Worker.DrainClosed | crates/rust-shark-core/src/monitor/correlate.rs:69-71 | empties the completion channel in order |
| Monitor.Worker.Step | crates/rust-shark-core/src/monitor/correlate.rs:49-85 | one turn of the loop from boundary to boundary |
| Inspector.InspectorApp.ApplyEvent | crates/rust-shark-core/src/inspector/state.rs:49-65 | one event on the replica and the alert feed |
| Inspector.InspectorApp.SetSnapshot | crates/rust-shark-core/src/inspector/state.rs:67-72 | the snapshot replaces the replica |
| Inspector.ReplayConverges | crates/rust-shark-core/src/inspector/state.rs:49-72 | any snapshot that agrees outside the touched ids converges once the events are applied |
| Inspector.ReplayFromEarlier | crates/rust-shark-core/src/inspector/state.rs:49-72 | replaying events a snapshot already contains changes nothing |
| Inspector.SameAfter | crates/rust-shark-core/src/inspector/state.rs:49-72 | two replicas given the same events end up the same exactly when they agreed on every id the events are silent about |
| Inspector.LastEventDecides | crates/rust-shark-core/src/inspector/state.rs:49-65 | what a replica shows of an id depends only on the last event about it |
| Inspector.FeedIsNewest | crates/rust-shark-core/src/inspector/state.rs:56-61 | the feed is the 500 newest alerts |
| EventBus.SubscribersAreIndependent | crates/rust-shark-core/src/ipc/server.rs:46-55 | each subscriber is what its own story makes it; others never influence it |
| EventBus.LosslessIffRoom | crates/rust-shark-core/src/ipc/server.rs:46-55 | a subscriber gets the events in order, and all of them if and only if none was sent while its queue was full |
| EventBus.Bus.Send | crates/rust-shark-core/src/ipc/server.rs:52-55 | offers the event to every connected queue and prunes the others |
| EventBus.Bus.AddSubscriber | crates/rust-shark-core/src/ipc/server.rs:46-50 | a new empty queue, the others unchanged |
| HpackRoundTrip.RoundTrip | crates/rust-shark-core/src/decode/http2.rs:83-202 | for any sequence of header blocks of valid representations the decoder returns each header list and its table equals the encoder's after every block |
| HpackRoundTrip.ReprInverts | crates/rust-shark-core/src/decode/http2.rs:83-151 | each representation (indexed, the three literals, size update) is read back and does to the table what it should |
| HpackRoundTrip.BlockInverts | crates/rust-shark-core/src/decode/http2.rs:83-126 | a block that breaks off inside a representation is read up to there, the table as the encoder's at that point |
| HpackRoundTrip.ReadsOnIffCovers | crates/rust-shark-core/src/decode/http2.rs:83-166 | whatever led to the two tables, everything the encoder may still send is read as meant if and only if the encoder's entries stand at the front of the decoder's table and it has at least the encoder's room |
| HpackRoundTrip.SkippedBlock | crates/rust-shark-core/src/decode/http2.rs:83-166 | a block the decoder never sees leaves it able to read on exactly when it only shrank the encoder's table |
| HpackRoundTrip.EvictIsShrink | crates/rust-shark-core/src/decode/http2.rs:159-166 | eviction keeps what the reference encoder keeps |
| HpackRoundTrip.ShrinkAfterAdd | crates/rust-shark-core/src/decode/http2.rs:153-166 | making room and then adding (section 4.4 of RFC 7541) is adding and then evicting |
| HpackIntegers.DecodeIntInverts | crates/rust-shark-core/src/decode/http2.rs:169-190 | undoes the section 5.1 encoding exactly for values below prefix mask + 2^35 and refuses every larger one |
| HpackIntegers.DecodeStrInverts | crates/rust-shark-core/src/decode/http2.rs:192-202 | string literals without Huffman coding are read back |
| HpackIntegers.HuffmanRead | crates/rust-shark-core/src/decode/http2.rs:192-202 | a Huffman-coded string is not expanded: its place is taken by a text that gives its length, and reading goes on right after it |
| HpackIntegers.PlaceholderText | crates/rust-shark-core/src/decode/http2.rs:192-202 | that text, byte by byte |
| HpackExample.IntegersSpelled | crates/rust-shark-core/src/decode/http2.rs:169-190 | the integers of Appendix C.1 of RFC 7541, byte by byte |
| HpackExample.RequestsRead | crates/rust-shark-core/src/decode/http2.rs:83-166 | the two requests of Appendix C.3 of RFC 7541, byte by byte: both header lists, and the dynamic table and its size after each |
| HpackAppendix.StaticIsAppendix | crates/rust-shark-core/src/decode/http2.rs:204-266 | the static table is that of Appendix A of RFC 7541, byte by byte |
| HpackIntegers.DecodeIntLoop | crates/rust-shark-core/src/decode/http2.rs:169-190 | the byte loop computes the recursive definition |
| Hpack.InsertFits | crates/rust-shark-core/src/decode/http2.rs:153-166 | size stays the sum of name + value + 32 within the maximum, and the longest newest-first prefix that fits remains |
| Hpack.EvictFits | crates/rust-shark-core/src/decode/http2.rs:159-166 | the same for eviction |
| Hpack.ResizeFits | crates/rust-shark-core/src/decode/http2.rs:108-115 | the same for a size update |
| Hpack.DecodeKeepsAccounted | crates/rust-shark-core/src/decode/http2.rs:83-126 | the accounting holds after every block, valid or not |
| Hpack.Decoder.EvictOld | crates/rust-shark-core/src/decode/http2.rs:159-166 | the eviction loop |
| Hpack.Decoder.Add | crates/rust-shark-core/src/decode/http2.rs:153-157 | insertion at the front, then eviction |
| Hpack.Decoder.ReadLiteral | crates/rust-shark-core/src/decode/http2.rs:128-139 | name by index or literal, then value |
| Hpack.Decoder.ReadOne | crates/rust-shark-core/src/decode/http2.rs:83-126 | one representation, with the block given up at the first malformed one |
| Hpack.Decoder.DecodeBlock | crates/rust-shark-core/src/decode/http2.rs:83-126 | a whole block: header list and table |
| Http2.StreamInverts | crates/rust-shark-core/src/decode/http2.rs:15-58 | preface and any frames, then at most an unfinished one: the walk returns the frames sent, up to 128, each plain header block (continued elsewhere or not) as meant, when the header blocks not looked into only shrink the sender's table |
| Http2.QuietFramesForget | crates/rust-shark-core/src/decode/http2.rs:40-45 | which they do when they neither insert nor resize |
| Http2.WalkReports | crates/rust-shark-core/src/decode/http2.rs:23-55 | whatever the payloads, the frames reported are the frames on the wire |
| Http2Skips.GetIsReported | crates/rust-shark-core/src/decode/http2.rs:12-58 | the literal bytes of a connection that asks for method GET are reported as one HEADERS frame with that field |
| Http2Skips.PlainExactly | crates/rust-shark-core/src/decode/http2.rs:40-45 | a frame is read as a bare header block exactly when it is HEADERS with neither the PADDED nor the PRIORITY bit |
| Http2Skips.StreamReadsOn | crates/rust-shark-core/src/decode/http2.rs:23-55 | after any frames, read or not, every plain header block that can follow is read as meant if and only if the decoder's table covers the sender's |
| Http2Skips.SkippedHeaders | crates/rust-shark-core/src/decode/http2.rs:40-45 | an input that loses step: a padded HEADERS frame that indexes any field, then a plain one that refers to it, reported with no headers |
| Http2.NextFrame | crates/rust-shark-core/src/decode/http2.rs:23-54 | one step of the frame walk |
| Http2.TryDecodeHttp2 | crates/rust-shark-core/src/decode/http2.rs:15-58 | the whole walk |
| FilterRoundTrip.ParseInvertsPrint | crates/rust-shark-core/src/filter/parser.rs:13-205 | every printable expression, printed with only the parentheses precedence and left association need and in any spelling of the operators, parses back to itself with nothing left |
| FilterRoundTrip.PrintInjective | crates/rust-shark-core/src/filter/parser.rs:13-205 | the parentheses printed are never too few |
| FilterRoundTrip.StringComparisonRead | crates/rust-shark-core/src/filter/parser.rs:13-32 | as a whole filter, a comparison with a word comes back as one with that string if and only if the word does not open with digits that fit 64 bits |
| FilterRoundTrip.SuffixedNumber | crates/rust-shark-core/src/filter/parser.rs:13-32 | a number with a suffix that opens no operator makes the filter a search for its text |
| FilterRoundTrip.OrInverts | crates/rust-shark-core/src/filter/parser.rs:34-42 | `or` chains fold to the left |
| FilterRoundTrip.AndInverts | crates/rust-shark-core/src/filter/parser.rs:44-52 | `and` chains fold to the left and bind tighter |
| FilterRoundTrip.UnaryInverts | crates/rust-shark-core/src/filter/parser.rs:54-72 | negation and groups |
| FilterAtoms.AtomInverts | crates/rust-shark-core/src/filter/parser.rs:63-107 | every atom is read by its own alternative |
| FilterAtoms.ComparisonInverts | crates/rust-shark-core/src/filter/parser.rs:94-107 | comparisons over any dotted field and value |
| FilterAtoms.ContainsInverts | crates/rust-shark-core/src/filter/parser.rs:80-92 | `contains` with any word |
| FilterAtoms.ThreatInverts | crates/rust-shark-core/src/filter/parser.rs:74-78 | the threat keywords |
| FilterAtoms.ProtocolInverts | crates/rust-shark-core/src/filter/parser.rs:190-205 | protocol keywords, against the printer's own spelling |
| FilterRoundTrip.ProtocolKeywords | crates/rust-shark-core/src/filter/parser.rs:190-205 | the eleven keywords written out, each as a whole filter |
| FilterAtoms.OrderIsRight | crates/rust-shark-core/src/filter/parser.rs:190-205 | the alternatives try every keyword before its own prefixes |
| FilterAtoms.StringInverts | crates/rust-shark-core/src/filter/parser.rs:150-188 | a word is read as a string exactly when it does not open with digits that fit 64 bits |
| FilterAtoms.IntegerInverts | crates/rust-shark-core/src/filter/parser.rs:174-183 | integers up to the 64-bit maximum |
| FilterAtoms.IpInverts | crates/rust-shark-core/src/filter/parser.rs:154-172 | dotted addresses |
| FilterAtoms.DottedIsField | crates/rust-shark-core/src/filter/parser.rs:109-137 | any dotted path of names is a field unless it opens with another construct's keyword |
| FilterEdges.SurroundingsIgnored | crates/rust-shark-core/src/filter/parser.rs:13-25 | white space around a filter makes no difference, and text that is no whole expression is searched for as typed |
| FilterEdges.RefusedExactly | crates/rust-shark-core/src/filter/parser.rs:13-17 | the only texts refused are those of nothing but white space |
| FilterEdges.NameCharsAre | crates/rust-shark-core/src/filter/parser.rs:132-137 | names are made of letters, digits and underscores, written out |
| FilterEdges.WordCharsAre | crates/rust-shark-core/src/filter/parser.rs:139-141 | words run up to a blank or a closing parenthesis |
| FilterEdges.SpacesAre | crates/rust-shark-core/src/filter/parser.rs:13-14 | the white space `trim` removes, by code point |
| DnsNames.NameParsed | crates/rust-shark-core/src/decode/dns.rs:216-276 | answers if and only if the name's chain has at most 128 pointers, with the joined labels and the position after the linear part; the text is the name exactly unless a pointer leads to the root only |
| DnsNames.DanglingShown | crates/rust-shark-core/src/decode/dns.rs:216-276 | an input with the spare dot: a label and a pointer to a zero byte |
| DnsNames.NameMeans | crates/rust-shark-core/src/decode/dns.rs:216-276 | every answer is a name that stands there |
| DnsNames.EncodesUnique | crates/rust-shark-core/src/decode/dns.rs:216-276 | a position holds at most one name |
| DnsNames.CycleRefused | crates/rust-shark-core/src/decode/dns.rs:216-276 | every pointer cycle, through any labels, is refused |
| DnsNames.ParseDnsName | crates/rust-shark-core/src/decode/dns.rs:216-276 | the label loop and its recursion at a pointer |
| DnsMessages.MessageBounded | crates/rust-shark-core/src/decode/dns.rs:8-69 | for every byte string decoding ends with all indexing in range, and offset + 12 + 5 questions + 11 records <= header end <= length |
| DnsLayouts.MessageRead | crates/rust-shark-core/src/decode/dns.rs:8-69 | a whole message laid out anywhere, names compressed in any way, is read back, header, questions and all three sections, if and only if its counts are within bounds |
| DnsLayouts.SectionRead | crates/rust-shark-core/src/decode/dns.rs:71-113 | a section of laid-out records is read as exactly those records |
| DnsLayouts.RecordRead | crates/rust-shark-core/src/decode/dns.rs:89-113 | one record: name, type, class, time to live, data as meant, end |
| DnsLayouts.PayloadRead | crates/rust-shark-core/src/decode/dns.rs:115-214 | record data of every type is read as meant: addresses, names, MX, TXT, SRV, SOA, and bytes for the rest |
| DnsLayouts.StringsInvert | crates/rust-shark-core/src/decode/dns.rs:115-214 | the strings of a TXT record |
| DnsExample.AnswerRead | crates/rust-shark-core/src/decode/dns.rs:8-69 | a response of forty bytes, written out, is read field by field, its second name through a pointer |
| DnsExample.PiecesInvertJoin | crates/rust-shark-core/src/decode/dns.rs:216-276 | labels without dots can be told from the text shown |
| DnsExample.PointerOffset | crates/rust-shark-core/src/decode/dns.rs:230-250 | a pointer's two bytes are its offset above 0xC000 |
| DnsMessages.ReadStrings | crates/rust-shark-core/src/decode/dns.rs:115-214 | the TXT loop |
| DnsMessages.ReadRecords | crates/rust-shark-core/src/decode/dns.rs:71-87 | the record loop, which stops at the first malformed record |
| DnsMessages.ReadQuestions | crates/rust-shark-core/src/decode/dns.rs:33-47 | the question loop |
| DnsMessages.TryDecodeDns | crates/rust-shark-core/src/decode/dns.rs:8-69 | the whole decoder |
| AlertRuns.AlertsFollowHistory | crates/rust-shark-core/src/alert/detectors.rs:114-316 | after any history, an observation stores exactly, and in order, the alerts its history calls for: first egress, label, country and network fire if and only if the window is over, the flow is outbound and nothing earlier of the same executable had it; identity and volume also need their key not to be cooling |
| AlertRuns.NewDestinationFires | crates/rust-shark-core/src/alert/detectors.rs:195-214 | a new-destination alert fires exactly on the first outbound contact after the learning window |
| AlertLabels.NewPlaceExactly | crates/rust-shark-core/src/alert/detectors.rs:195-214 | said of the observations' fields alone: it fires if and only if no earlier observation of the executable was of the same organisation, or without one the same domain, or without both the same address |
| AlertLabels.SamePlaceIsSilent | crates/rust-shark-core/src/alert/detectors.rs:334-342 | never for a place an earlier observation of the executable was of |
| AlertLabels.UnrelatedPlaceFires | crates/rust-shark-core/src/alert/detectors.rs:334-342 | always for a text that is no organisation, domain or address of an earlier one |
| AlertMeanings.ExecutableIs | crates/rust-shark-core/src/alert/detectors.rs:114-140 | a process is known by its path, and without one by its number |
| AlertMeanings.PathlessAreApart | crates/rust-shark-core/src/alert/detectors.rs:114-140 | so processes without a path are told apart by their numbers |
| AlertMeanings.WindowOverExactly | crates/rust-shark-core/src/alert/baseline.rs:10-29 | the window is over once an observation came a whole window after the first; one that would end beyond 64 bits ends at the last instant |
| AlertMeanings.SpikesExactly | crates/rust-shark-core/src/alert/detectors.rs:268-309 | a volume alert fires exactly when the window is over and the interval just closed has enough samples, reaches the floor and lies the threshold in standard deviations above its history, out of cooldown, whatever the direction |
| AlertMeanings.AlertsAreGraded | crates/rust-shark-core/src/alert/detectors.rs:141-309 | every alert is graded by its kind, a spike by whether it reaches ten times the mean |
| AlertMeanings.ChangesExactly | crates/rust-shark-core/src/identity.rs:62-90 | when a binary counts as changed, case by case: regressed signature, other signer, signed update, other value |
| AlertMeanings.SignedUpdateIsSilent | crates/rust-shark-core/src/alert/detectors.rs:164-193 | in every history an update by the same signer raises nothing unless asked for |
| AlertMeanings.OtherSignerFires | crates/rust-shark-core/src/alert/detectors.rs:164-193 | another signer does, out of cooldown |
| AlertRuns.LearningEndsOnce | crates/rust-shark-core/src/alert/baseline.rs:10-29 | active exactly once some observation came at or after the window's end, and never learning again |
| AlertRuns.LearningIsSilent | crates/rust-shark-core/src/alert/detectors.rs:114-316 | nothing is stored while learning |
| AlertRuns.CooldownSeparates | crates/rust-shark-core/src/store/mod.rs:394-421 | two stored alerts with one key are at least a cooldown apart, however the clock moves |
| AlertRuns.SpikesAreJudgedOnHistory | crates/rust-shark-core/src/alert/baseline.rs:42-96 | a closed interval holds every byte not yet in a sample and is judged against the weighted statistics of the samples before it |
| AlertTables.DestinationsFollow | crates/rust-shark-core/src/store/mod.rs:216-254 | after any history every address contacted has one row with its first and last contact and the last known name, country, network and organisation |
| AlertTables.ProcessesFollow | crates/rust-shark-core/src/store/mod.rs:123-152 | and every executable one row with its first and last sighting and its last name |
| AlertIdentities.BaselineIsFirstSighting | crates/rust-shark-core/src/store/mod.rs:156-212 | the identity compared with is the first sighting of the latest kind and value, not the latest sighting |
| AlertRepeats.IdentityFires | crates/rust-shark-core/src/alert/detectors.rs:164-193 | after any history an identity alert fires exactly on an outbound observation after the window whose binary changed since that baseline, out of cooldown |
| AlertRepeats.UnchangedYetRaised | crates/rust-shark-core/src/alert/detectors.rs:164-193 | a binary seen exactly as it was seen last still raises one if and only if it differs from the first sighting of its kind and value and the alert is not cooling |
| AlertRepeats.RaisedTwice | crates/rust-shark-core/src/alert/detectors.rs:164-193 | an input on which it does: signed once, then unsigned twice a cooldown apart |
| AlertFirings.ObserveFires | crates/rust-shark-core/src/alert/detectors.rs:114-316 | one observation: the alerts stored, from the tables before it |
| AlertFirings.DestUses | crates/rust-shark-core/src/alert/detectors.rs:209 | a destination key is used only by its own process and label |
| AlertFirings.UnusedIsReady | crates/rust-shark-core/src/store/mod.rs:394-404 | a key no stored alert carries is never suppressed |
| DedupKeys.DestKeyUnique | crates/rust-shark-core/src/alert/detectors.rs:209 | destination keys determine process and label |
| DedupKeys.CountryKeyUnique | crates/rust-shark-core/src/alert/detectors.rs:229 | country keys determine process and country |
| DedupKeys.AsnKeyUnique | crates/rust-shark-core/src/alert/detectors.rs:251 | network keys determine process and number |
| DedupKeys.GeoKeysApart | crates/rust-shark-core/src/alert/detectors.rs:229-251 | a country key is never a network key |
| DedupKeys.IdentityKeyUnique | crates/rust-shark-core/src/alert/detectors.rs:181 | identity keys determine executable and value as long as values hold no bar |
| DedupKeys.KindsApart | crates/rust-shark-core/src/alert/detectors.rs:153-299 | keys of different signals never meet |
| DedupKeys.KeysSpelled | crates/rust-shark-core/src/alert/detectors.rs:153-299 | keys as they are stored |
| AlertStore.InsertSeparates | crates/rust-shark-core/src/store/mod.rs:394-421 | one insertion keeps equal keys a cooldown apart |
| AlertStore.ProcessKeepsNumbered | crates/rust-shark-core/src/store/mod.rs:123-152 | process ids stay distinct, one row each |
| AlertStore.Store.UpsertProcess | crates/rust-shark-core/src/store/mod.rs:123-152 | finds or creates the row and says whether it was new |
| AlertStore.Store.UpsertDestination | crates/rust-shark-core/src/store/mod.rs:216-254 | finds or creates the row; a missing value never erases a known one |
| AlertStore.Store.RecordIdentity | crates/rust-shark-core/src/store/mod.rs:156-188 | the first row for a process, kind and value stays, and the process points at it |
| AlertStore.Store.NoteLabel | crates/rust-shark-core/src/store/mod.rs:313-319 | newly noted exactly when the pair was absent |
| AlertStore.Store.NoteCountry | crates/rust-shark-core/src/store/mod.rs:288-294 | newly noted exactly when the pair was absent |
| AlertStore.Store.NoteAsn | crates/rust-shark-core/src/store/mod.rs:297-309 | newly noted exactly when the pair was absent |
| AlertStore.Store.InsertAlert | crates/rust-shark-core/src/store/mod.rs:394-421 | stored unless the newest alert with its key is within the cooldown |
| AlertBaseline.EnsureStarted | crates/rust-shark-core/src/alert/baseline.rs:10-29 | opens the window once and promotes to active |
| AlertBaseline.UpdateVolume | crates/rust-shark-core/src/alert/baseline.rs:42-96 | accumulates, closes an interval and folds it into mean and variance |
| AlertBaseline.ScoreIsDeviations | crates/rust-shark-core/src/alert/detectors.rs:276-282 | for any standard deviation whose square is the variance, the squared test is the division in the code |
| AlertEngine.Engine.Emit | crates/rust-shark-core/src/alert/detectors.rs:318-327 | stored alerts are also the ones reported |
| AlertEngine.Engine.EgressSignal | crates/rust-shark-core/src/alert/detectors.rs:129-162 | signal 2 |
| AlertEngine.Engine.IdentitySignal | crates/rust-shark-core/src/alert/detectors.rs:164-193 | signal 5 |
| AlertEngine.Engine.LabelSignal | crates/rust-shark-core/src/alert/detectors.rs:195-214 | signal 1 |
| AlertEngine.Engine.CountrySignal | crates/rust-shark-core/src/alert/detectors.rs:216-235 | signal 3, countries |
| AlertEngine.Engine.AsnSignal | crates/rust-shark-core/src/alert/detectors.rs:236-266 | signal 3, networks |
| AlertEngine.Engine.VolumeSignal | crates/rust-shark-core/src/alert/detectors.rs:268-309 | signal 4 |
| AlertEngine.Engine.RunDetectors | crates/rust-shark-core/src/alert/detectors.rs:114-316 | the detectors in order; a failing store call ends the evaluation |
| AlertEngine.Engine.EvaluateFull | crates/rust-shark-core/src/store/mod.rs:53-65 | all or nothing: an error leaves what is durable as before, success stores the whole observation; a failing commit or rollback leaves the transaction open, and every later evaluation is refused |
| VolumeLaws.StatisticsAreWeighted | crates/rust-shark-core/src/alert/baseline.rs:61-92 | mean and variance are the exponentially weighted mean and second moment less squared mean of all closed samples, and each sample was judged on those before it |
| VolumeLaws.MeanGrows | crates/rust-shark-core/src/alert/baseline.rs:66-76 | the closed-form weighted mean obeys the recurrence |
| VolumeLaws.VarianceIsCentral | crates/rust-shark-core/src/alert/baseline.rs:66-76 | the variance is the weighted mean of the squared deviations |
| VolumeLaws.VarianceNonNegative | crates/rust-shark-core/src/alert/baseline.rs:66-76 | so it is never negative for 0 <= alpha <= 1 |
| VolumeLaws.MeanInRange | crates/rust-shark-core/src/alert/baseline.rs:66-76 | the mean lies within the range of the samples |
| VolumeLaws.WeightsSumToOne | crates/rust-shark-core/src/alert/baseline.rs:66-76 | the weights sum to one |
| VolumeLaws.BytesConserved | crates/rust-shark-core/src/alert/baseline.rs:57-78 | closed samples and the open interval hold every byte fed, once |
| VolumeLaws.PhaseKept | crates/rust-shark-core/src/alert/baseline.rs:79-85 | the interval start stays a whole number of intervals after the first feed |
| VolumeLaws.PhaseIsCurrent | crates/rust-shark-core/src/alert/baseline.rs:79-85 | for a clock that never runs back, start <= now < start + interval |
| ThreatRuns.ScansAndSweepsExactly | crates/rust-shark-core/src/analysis/threat.rs:111-156 | for a source whose clock runs forward, PortScan exactly when some host saw 15 distinct ports in the last 10 s, HostSweep exactly when not and 12 hosts were tried |
| ThreatRuns.WindowIsRecent | crates/rust-shark-core/src/analysis/threat.rs:62-72 | the stored window is exactly the attempts of the last 10 s |
| ThreatRuns.WindowsAreSeparate | crates/rust-shark-core/src/analysis/threat.rs:111-121 | each source's window is built from its own attempts alone |
| ThreatRuns.PublicIsUnreserved | crates/rust-shark-core/src/analysis/threat.rs:213-226 | the octet tests accept exactly the addresses outside every reserved IPv4 block |
| ThreatLayers.AttemptExactly | crates/rust-shark-core/src/analysis/threat.rs:167-200 | a packet is a connection attempt of its innermost source exactly when its innermost TCP layer is a bare SYN or its innermost ICMP layer an echo request |
| ThreatLayers.AttemptRecords | crates/rust-shark-core/src/analysis/threat.rs:111-121 | what is recorded of it: time, innermost destination, innermost port |
| ThreatLayers.AnswersAreNoAttempts | crates/rust-shark-core/src/analysis/threat.rs:185 | the answer to a SYN is no attempt |
| ThreatLayers.RareExactly | crates/rust-shark-core/src/analysis/threat.rs:147-155 | a packet that raises no scan or sweep is annotated exactly when it is unencrypted and goes to a port of no listed service on a host outside every reserved block |
| ThreatLayers.Public6IsUnreserved | crates/rust-shark-core/src/analysis/threat.rs:227-235 | the same test for IPv6 blocks |
| Threats.ExtractConn | crates/rust-shark-core/src/analysis/threat.rs:167-200 | the innermost layer of each kind wins |
| Threats.SrcWindow.Record | crates/rust-shark-core/src/analysis/threat.rs:63-72 | appends and drops the old front |
| Threats.SrcWindow.BusiestDst | crates/rust-shark-core/src/analysis/threat.rs:75-84 | a destination with the most distinct ports, and their number |
| Threats.SrcWindow.DistinctHosts | crates/rust-shark-core/src/analysis/threat.rs:86-92 | the number of distinct destinations |
| Threats.ThreatTracker.RecordAttempt | crates/rust-shark-core/src/analysis/threat.rs:115-117 | only the source's own window changes |
| Threats.ThreatTracker.Observe | crates/rust-shark-core/src/analysis/threat.rs:111-156 | the annotation from the window, and the windows after it |
| PacketRuns.IndexIsExact | crates/rust-shark-app/src/tui/mod.rs:795-873 | after any session the list that was shifted, appended to and rebuilt along the way exists exactly when a filter is set and holds in increasing order exactly the buffered packets that pass, of the newest that arrived |
| PacketRuns.SessionCurrent | crates/rust-shark-app/src/tui/mod.rs:795-873 | the list kept equals the one a rebuild would give, after every event and arrival |
| PacketRuns.SelectionStaysInRange | crates/rust-shark-app/src/tui/mod.rs:405-856 | after any event of any session, if a packet is visible then a visible packet is selected |
| PacketRuns.RowsShow | crates/rust-shark-app/src/tui/mod.rs:209-223 | every row of the list shows a passing packet, and only rows of the list do |
| PacketRuns.FollowShowsNewest | crates/rust-shark-app/src/tui/mod.rs:844-855 | while following, the newest visible packet is selected |
| PacketRuns.SearchFindsNearest | crates/rust-shark-app/src/tui/mod.rs:179-196 | the search stops at the nearest match after the selection, wrapping round, or stays put |
| PacketGestures.ClickSelectsDrawn | crates/rust-shark-app/src/tui/mod.rs:758-793 | a click selects the row drawn at that cell; elsewhere it does nothing, except that the bottom border takes the row just below the last one drawn |
| PacketGestures.SelectedIsDrawn | crates/rust-shark-app/src/tui/packet_list.rs:50-64 | the selected row is always among those drawn |
| PacketGestures.MovesAreClamped | crates/rust-shark-app/src/tui/mod.rs:427-532 | every key and wheel step moves the selection by its stride, clamped to the list |
| PacketGestures.OverlayScrolls | crates/rust-shark-app/src/tui/mod.rs:427-532 | under an overlay the same gestures scroll it instead |
| PacketGestures.EndsOfList | crates/rust-shark-app/src/tui/mod.rs:427-532 | the first and the last row by key |
| PacketGestures.TogglesUndo | crates/rust-shark-app/src/tui/mod.rs:464-551 | overlays and direction filters are undone by the same key |
| PacketGestures.ScrollbarCells | crates/rust-shark-app/src/tui/mod.rs:712-732 | the cells of the scrollbar |
| PacketGestures.ScrollbarSpansList | crates/rust-shark-app/src/tui/mod.rs:734-755 | its ends are the ends of the list and it never runs backward |
| PacketGestures.ScrollbarIsEven | crates/rust-shark-app/src/tui/mod.rs:734-755 | in between a cell stands for its share of the list, rounded down |
| PacketGestures.DragHolds | crates/rust-shark-app/src/tui/mod.rs:658-710 | a drag begun on the scrollbar keeps scrolling until released |
| PacketGestures.FilterEntered | crates/rust-shark-app/src/tui/mod.rs:553-597 | what Enter in the filter line does: lift the filter, replace it by a text typed or recalled by name, or nothing |
| PacketGestures.SearchEntered | crates/rust-shark-app/src/tui/mod.rs:618-632 | a search that compiles is kept, one that does not changes nothing |
| PacketGestures.UntouchedFollows | crates/rust-shark-app/src/tui/mod.rs:795-856 | until the first event nothing is filtered and the newest packet is selected |
| PacketRings.RingHoldsNewest | crates/rust-shark-core/src/storage/ring.rs:18-26 | the buffer holds the newest packets, as many as its capacity (one for capacity zero) |
| PacketRings.PacketRing.Push | crates/rust-shark-core/src/storage/ring.rs:18-26 | one push and what it evicts |
| FilterIndex.PassingPushed | crates/rust-shark-app/src/tui/mod.rs:815-841 | shifting the index and appending is recomputing it |
| FilterIndex.ShiftIsTail | crates/rust-shark-app/src/tui/mod.rs:818-830 | dropping the oldest packet shifts the index |
| FilterIndex.PassingExactly | crates/rust-shark-app/src/tui/mod.rs:858-873 | the recomputed index is increasing and exact |
| FilterIndex.Shift | crates/rust-shark-app/src/tui/mod.rs:820-829 | the in-place shift loop |
| PacketApp.App.Arrive | crates/rust-shark-app/src/tui/mod.rs:796-841 | one packet: buffer, shift and append |
| PacketApp.App.DrainPackets | crates/rust-shark-app/src/tui/mod.rs:795-856 | a batch, then follow or clamp |
| PacketApp.App.RebuildFilterIndices | crates/rust-shark-app/src/tui/mod.rs:858-873 | the index of the current filters |
| PacketApp.App.VisibleCount | crates/rust-shark-app/src/tui/mod.rs:209-214 | the number of rows |
| PacketApp.App.VisiblePacket | crates/rust-shark-app/src/tui/mod.rs:216-223 | the packet of a row |
| PacketApp.App.NextSearchMatch | crates/rust-shark-app/src/tui/mod.rs:179-196 | the search loop |
| PacketApp.App.ToggleDirection | crates/rust-shark-app/src/tui/mod.rs:464-495 | the direction toggles |
| PacketApp.App.Navigate | crates/rust-shark-app/src/tui/mod.rs:427-532 | the keys that move the selection |
| PacketApp.App.HandleKey | crates/rust-shark-app/src/tui/mod.rs:424-551 | a key in normal mode |
| PacketApp.App.HandleFilterEnter | crates/rust-shark-app/src/tui/mod.rs:553-597 | clear, recall, apply or reject a filter |
| PacketApp.App.HandleSearchEnter | crates/rust-shark-app/src/tui/mod.rs:618-632 | a search expression, if it compiles |
| PacketApp.App.ScrollToRow | crates/rust-shark-app/src/tui/mod.rs:734-755 | the scrollbar |
| PacketApp.App.SelectRowByMouse | crates/rust-shark-app/src/tui/mod.rs:758-793 | a click on a row |
| PacketApp.App.HandleMouse | crates/rust-shark-app/src/tui/mod.rs:658-710 | wheel, click and drag |
| PacketApp.App.Handle | crates/rust-shark-app/src/tui/mod.rs:405-856 | one turn: every event, or a batch of packets |
| PacketApp.App.HandleAll | crates/rust-shark-app/src/tui/mod.rs:362-388 | the event loop: view, buffer and list are those of the session |
| PcapngReader.ReadsBackIffLengthsFit | crates/rust-shark-core/src/output/pcapng_writer.rs:13-76 | a reference reader gets back every packet and the file parameters if and only if every block length fits its 32-bit field |
| PcapngReader.RoundTrip | crates/rust-shark-core/src/output/pcapng_writer.rs:13-76 | then walking backward by trailing lengths finds the same blocks as walking forward |
| PcapngReader.PacketRead | crates/rust-shark-core/src/output/pcapng_writer.rs:20-47 | one packet block: time clamped at the epoch, captured and original length, data without padding |
| PcapngOctets.FileSpelled | crates/rust-shark-core/src/output/pcapng_writer.rs:55-76 | the first 48 bytes of every file, written out |
| PcapngOctets.PacketSpelled | crates/rust-shark-core/src/output/pcapng_writer.rs:20-47 | a packet block, written out |
| PcapngOctets.TimesKept | crates/rust-shark-core/src/output/pcapng_writer.rs:20-47 | a packet is read back as it was, except that times before the epoch become the epoch |
| Pcapng.Writer.constructor | crates/rust-shark-core/src/output/pcapng_writer.rs:13-18 | the file starts with its section and interface blocks |
| Pcapng.Writer.WritePacket | crates/rust-shark-core/src/output/pcapng_writer.rs:20-47 | one packet appends its block and nothing else |
| Pcapng.Writer.WriteEpb | crates/rust-shark-core/src/output/pcapng_writer.rs:20-47 | the block, field by field |
| Pcapng.Writer.WriteShb | crates/rust-shark-core/src/output/pcapng_writer.rs:55-65 | the section header |
| Pcapng.Writer.WriteIdb | crates/rust-shark-core/src/output/pcapng_writer.rs:67-76 | the interface description |
| CaptureDiff.DiffAccountsForBoth | crates/rust-shark-core/src/diff/mod.rs:26-65 | both captures are accounted for, the common count is the intersection of the hashed multisets, and no content is listed on both sides |
| DiffExactness.ExactIffPairsAgree | crates/rust-shark-core/src/diff/mod.rs:19-65 | for any hash and any two captures the comparison is the one of the contents if and only if, of each hash, the first packets of either side, as many as both have, carry the same contents |
| DiffExactness.ExactWithoutCollision | crates/rust-shark-core/src/diff/mod.rs:19-65 | so it is when no two different contents of the two captures share a hash |
| DiffExactness.CollisionDependsOnOrder | crates/rust-shark-core/src/diff/mod.rs:36-58 | inputs on either side: of two packets that share a hash, the first one seen finds the partner |
| CaptureDiff.UnmatchedIsDifference | crates/rust-shark-core/src/diff/mod.rs:36-58 | the listed packets are the multiset difference |
| CaptureDiff.DiffByContent | crates/rust-shark-core/src/diff/mod.rs:26-65 | the two counting passes |
| CaptureDiff.Tally | crates/rust-shark-core/src/diff/mod.rs:27-34 | the count map of a capture |
| CaptureDiff.MatchUp | crates/rust-shark-core/src/diff/mod.rs:36-58 | the matching loop |

## Left out

- Floating point: RTT samples, volume statistics and z-scores are real numbers; the square root of the
  variance is squared away (`AlertBaseline.ScoreIsDeviations` ties the two forms together).
- Unsigned 64-bit overflow of byte, packet and sample counters; they are natural numbers.
- SQLite, its text and its migrations: tables are maps and sets, one transaction is all or nothing, and
  a failing statement is a numbered step of the evaluation, at the end of its signal, which the rollback
  makes all the same. `record_name`, `touch_pair`, the query
  methods and `delete_older_than` (which nothing calls) are not modelled.
- Alert titles and details, and alerts without a process: what the engine stores always has one.
- Packet capture, sockets, threads, signals, process lookup, code signing, GeoIP, name resolution,
  desktop notification: their answers are inputs of a step.
- Registrable domains: an input of an observation.
- Text as Unicode: names and headers are bytes in the decoders (no lossy UTF-8 conversion), characters
  in the filter language.
- The bytes of an HTTP/2 frame that is not looked into: `Http2.StreamInverts` holds whatever they are, given the
  representations the sender meant by them.
- Huffman-coded HPACK literals: the decoder's placeholder for them is modelled, their expansion is not.
- Snapshots of the live table taken in the middle of a worker turn; boundaries between turns are modelled.
- The inspector's rollups per process and per domain, and its free-text matching.
- Rendering, themes, panes, bookmarks, log saving, column configuration, and editing the filter line as
  UTF-8; the filter text arrives whole with the Enter key.
- Rectangles in screen coordinates are natural numbers, without 16-bit overflow.
- MD5, SHA-256, JA3 and JA4 hashing, JSON, regular expressions, and the fixed-layout header decoders.
- FilterRoundTrip.PrintInjective: the parentheses printed are never too few; that each pair is needed is not stated.
- Mixing both spellings of an operator inside one printed filter expression: a spelling is chosen per
  expression in `FilterRoundTrip.ParseInvertsPrint`.
- ThreatRuns.ScansAndSweepsExactly: states nothing for a source whose timestamps run backwards; its window
  is then what `ThreatRuns.WindowsAreSeparate` gives.
- ReassemblyOrder.OrderIndependence: is for streams of at most 2^30 bytes, the forward window, and for
  deliveries that do not hit the buffer cap; `ReassemblyOrder.EachPieceOnce` shows when none do.
- MonitorRuns.ReplicaAgreement: takes the bus as lossless; `EventBus.LosslessIffRoom` says when it is.
- VolumeLaws.PhaseIsCurrent: needs a clock that never runs backwards; `VolumeLaws.PhaseKept` does not.

# Verification of the market latency benchmark

This project models the stateful core of the latency collector and proves it, in Dafny 4.11.
`dafny verify dfyconfig.toml` checks everything.

The collector receives the same market events over several paths, joins them into cohorts, and
publishes how late each path was. Six state machines and parsers carry that:

* **The tap** (`SequenceSpace`, `Reassembler*`, `Framing`, `TapFlow`). A TCP byte stream is rebuilt
  from captured segments with wrapping 32-bit sequence numbers (section 3.4 of RFC 9293) and cut
  into frames. A sender's stream is an unbounded function from offsets to bytes; a segment is fair
  when it carries a cut of that stream less than half the number space from the reader. When a hole
  is given up, what that costs and when nothing is lost is in `ReassemblerWaits` and
  `ReassemblerHoles`; the frame layout on the wire is an encoder in `Framing`.
* **The ordering parser** (`Ordering*`). A structural parser for two layout epochs, an encoder
  written from the layout description, the layout as a grammar that the parser accepts exactly, and
  the backward search for a frame's own record.
* **The cohort engine** (`Model`, `Windows`, `Cohorts`, `Benchmark`, and their laws). Values and
  functions in `Cohorts`; the object with its maps, loops and in-place updates in `Benchmark`. What
  recording, settling and a tick mean, in terms of arrivals and clocks alone, is in `RecordMeaning`,
  `SettleMeaning` and `Retention`. Wherever the program iterates a hash map or breaks a tie by its
  order, the functions take that choice as an argument, so every law holds for every order; the
  methods return the choice they made as a ghost result.
* **Rounds and joins** (`Assembly*`, `Decoded*`, `Mempool*`, `Fills`). The specification functions of
  a step, and beside them which outcome or event each round or hash has over a run, told from the
  inputs of the run.
* **The outbox** (`FileNames`, `Outbox`, `OutboxStore`). Every rename, unlink and directory fsync is
  a step of its own; the two tasks interleave, and a crash may fall between any two steps, after
  which each update that was not followed by an fsync has happened or not.
* **Publication** (`Ledger`, `EngineBooks`, `Schedule`, `Publication`). The engine's publication
  accounting, `publish_window`, the outbox and restarts as one system.

Clock readings, file-system answers, decompression and decimal normalisation are parameters.

Eight places where the program differs from what one would expect are stated as theorems with the
exact condition: the reassembler's byte counter drifts above what is held exactly when a held
sequence number is sent again (`ReassemblerBounds.CounterStaysExactIff`); a longer copy of a held
segment is dropped with its further bytes, so the reader stops short exactly when such a copy goes
beyond it (`ReassemblerHoles.ShadowShowsIff`, `LongerCopyIsLost`); with a single provider the
processing order decides which content of a base is committed (`SingleProvider`), and its cohorts are
marked as reported while the published count is zero (`Ledger.PublishedCountIsNew`); a peering round
named again behind the horizon has a second outcome exactly when the drain after it stalls
(`AssemblyRuns.SecondOutcomeIffStalled`), and a decoded round likewise
(`DecodedAssembly.ClosesAgainIffStalled`); a round that lapsed before the feed named it is never
counted, even when it is named later, and every other named one that is still tracked after its
deadline is (`AssemblyOutcomes.NamedHasItsOutcome`); and feed lag, which the module comment of
`src/peering.rs` says never distorts a latency, does when a bundle outlives its 120 s retention while
the feed is late and is then served again (`AssemblyBoundary.FeedLagShowsIff`, `DroppedBundleShows`).
`find_block_records` holds only the slot's round to the window it is given, so a frame's own record may
be one past it; `OrderingRecords.OnlyTrueRecords` claims no more.

## Model

| member | source | states |
|---|---|---|
| SequenceSpace.SeqDiff | src/tap.rs:107-109 | The wrapped 32-bit difference read as a signed number is in range and is zero only for equal numbers. |
| SequenceSpace.DiffIsDistance | src/tap.rs:107-109 | For two stream offsets less than half the number space apart, the signed wrapped difference of their sequence numbers is their true distance. |
| SequenceSpace.DiffLocates | src/tap.rs:107-109 | A sequence number and its distance from a known position determine the stream offset it stands for. |
| Reassembly.Reassembler.Push | src/tap.rs:112-152 | In place: SYN, RST, FIN, empty and data segments take the state and the deliveries to what the specification function says, and the byte counter keeps covering what is held and staying under the cap. |
| Reassembly.Reassembler.Take | src/tap.rs:166-217 | Trimming an overlap, holding beyond a hole, giving up on a full buffer and delivering are the specification's four cases. |
| Reassembly.Reassembler.Deliver | src/tap.rs:192-216 | The pull loop, which removes the due segment with the least wire number each time round, never underflows the byte counter and computes the specification's recursive pull. |
| Reassembly.Reassembler.Expire | src/tap.rs:219-239 | A hole open for the reorder wait yields a `Reset` and a jump to the nearest held segment; otherwise nothing changes. |
| Reassembly.Reassembler.Tick | src/tap.rs:154-158 | A tick is exactly an expiry check. |
| ReassemblerSpec.Pull | src/tap.rs:196-211 | After the pull loop no held segment starts at or before the position, and the slack between counted and held bytes is unchanged. |
| ReassemblerLaws.AnyOrderFollows | src/tap.rs:196-211 | In whatever order segments that are due are taken, the loop delivers the sender's bytes up to the least position no held segment crosses, and keeps exactly the segments beyond it. |
| ReassemblerLaws.PullOrderIsInvisible | src/tap.rs:196-211 | Two orders of taking due segments deliver the same bytes and leave the same position, segments and byte count. |
| ReassemblerLaws.PullFollows | src/tap.rs:196-211 | So does the order of the program, least wire number first. |
| ReassemblerLaws.WallIsLatest | src/tap.rs:196-216 | The wall time handed on is the latest among the first segment and the held segments whose bytes are handed on with it, and is one of theirs. |
| ReassemblerLaws.TakeFollows | src/tap.rs:166-217 | On a segment cut from the sender's stream less than half the number space away, the bytes handed on are the stream from the old position to the new one, or follow a `Reset`. |
| ReassemblerRuns.StepFollows | src/tap.rs:112-158 | Every input, segment or tick, of any kind keeps the reader on the stream. |
| ReassemblerRuns.NeverASplice | src/tap.rs:112-240 | Over every run of segments cut from one unbounded stream, the bytes since the last `Reset` are exactly the stream up to the byte expected next, and a connection is left only with a `Reset`. |
| ReassemblerRuns.NoPrefixSplices | src/tap.rs:112-240 | The same after each single delivery, also between two deliveries of one segment. |
| ReassemblerWaits.GivesUpIff | src/tap.rs:219-228 | Over every run: a turn hands on the capture-loss `Reset` if and only if it is a tick or brings data, and the input that brought some segment still held came at least REORDER_WAIT before it. |
| ReassemblerWaits.ResetsIff | src/tap.rs:112-239 | A turn hands on a `Reset` if and only if a SYN, an RST or a bare FIN meets a known connection, a segment beyond the hole does not fit the byte cap, or a tick or data turn finds something held for REORDER_WAIT. |
| ReassemblerWaits.SwitchStartsOver | src/tap.rs:113-145 | A SYN, an RST or a bare FIN leaves nothing of the connection before it: after a SYN the byte behind its number and payload is expected, after the others the next data segment is the start. |
| ReassemblerWaits.OnlyTheHoleIsLost | src/tap.rs:225-238 | Giving up costs the bytes of the hole and no other: the reader goes on at the held segment nearest in the stream, and every held segment is handed on whole or is still held. |
| ReassemblerWaits.OverflowStartsOver | src/tap.rs:175-183 | A segment beyond the hole that would take the counter over the cap is delivered after a `Reset`, and nothing is held any more. |
| ReassemblerHoles.NothingLostIff | src/tap.rs:112-239 | From any state with nothing held, over every later run of data, bare acknowledgements and ticks: there is no `Reset` if and only if every turn comes less than REORDER_WAIT after each segment still beyond the hole and each such segment fits the byte cap; and then the bytes handed on are the stream up to the end of the contiguous bytes of the segments that count. |
| ReassemblerHoles.ShadowShowsIff | src/tap.rs:185-191 | A segment does not count when it starts beyond the hole where an earlier one starts. The reader then stands at the end of all contiguous bytes that came if and only if no segment goes beyond that position. |
| ReassemblerHoles.LongerCopyIsLost | src/tap.rs:185-191 | One can: a longer copy of a held segment is dropped, and its further bytes with it. |
| ReassemblerBounds.LateTicksDrain | src/tap.rs:154-158 | As many late ticks as there are held segments leave none held. |
| ReassemblerBounds.CounterStaysExactIff | src/tap.rs:185-191 | An exact byte counter stays exact if and only if the segment is not one whose number is already held: such a one is dropped but counted. |
| ReassemblerBounds.CounterOutlivesBuffer | src/tap.rs:185-191 | A concrete run leaves the counter above zero with nothing held. |
| Framing.ConsumeFrames | src/peering.rs:872-913 | The offset loop yields exactly the frames of the recursive parse, drains exactly their bytes, and reports an impossible header at the same place; on encoded frames, and whatever follows them, it yields those frames first. |
| Framing.ReaderInvertsEncoder | src/peering.rs:22-23 | Frames written as a big-endian u32 body length, a kind byte and the body read back in order, whatever bytes follow, for all frames whose body is within the cap. |
| Framing.StreamReads | src/peering.rs:872-913 | A stream of such frames, cut into chunks in any way, is consumed to its last byte and yields exactly them. |
| Framing.OversizeStops | src/peering.rs:880-891 | A length over the cap, written the same way, stops the reader where it stands. |
| Framing.ParseResumes | src/peering.rs:872-913 | Parsing is a stream computation: a longer buffer yields what the shorter one yields and then what its leftover and the new bytes yield. |
| Framing.RestIsStuck | src/peering.rs:872-913 | What is left over contains no whole frame. |
| Framing.ChunkingIsInvisible | src/peering.rs:872-913 | The frames, and whether and where the reader gives up, do not depend on how the bytes were cut into chunks. |
| Framing.FindFrameBoundary | src/peering.rs:543-578 | The search returns the first offset at which a trusted run of frames starts, and none only if there is none; on bytes that hold four encoded credible frames in a row, one of them data, it finds one no later than where they stand. |
| Framing.TrustedRunParses | src/peering.rs:536-578 | From a trusted offset the frame reader agrees: it yields at least that many frames, a data frame among them. |
| Framing.BoundaryParses | src/peering.rs:543-578 | From the boundary the search returns the reader yields at least four frames, a data frame among the first four. |
| Framing.FourFramesAreABoundary | src/peering.rs:543-578 | Four encoded non-empty frames of credible kinds in a row are a boundary wherever they stand, if and only if one of them is a data frame. |
| TapFlow.Flow.Deliver | src/peering.rs:463-513 | One delivery to a tapped flow: a `Reset` drops the buffer and the trust, bytes are appended, synchronised and consumed. |
| TapFlow.FlowIsReader | src/peering.rs:463-513 | While it stays synchronised a flow hands on exactly what the frame reader fed the same data would. |
| TapFlow.FlowSynchronises | src/peering.rs:486-505 | From an empty buffer, once the bytes that came hold four credible frames in a row, one of them data, that fit in the kept tail, some delivery has yielded frames, in however many deliveries the bytes came. |
| TapFlow.TrustLostIsEmpty | src/peering.rs:471-511 | A flow that loses its trust, by a `Reset` or at an impossible header, is left unsynchronised with an empty buffer. |
| TapFlow.TapEqualsDial | src/peering.rs:463-513 | From the delivery that synchronises a flow to any later one through which it stays synchronised, the flow has handed on exactly the frames, and holds exactly the bytes, of a dialed reader fed the sender's plain stream from a trusted boundary on, under any reordering, repetition and overlap of segments and any chunking; at the end of the run that stream ends where the reassembler stands. |
| TapFlow.TapBreaksWithDial | src/peering.rs:506-511 | When a delivery makes a synchronised flow drop its trust, the dialed reader fed the same stretch of the stream has handed on the same frames and has met the same impossible header. |
| OrderingParser.FindSlotStart | src/ordering.rs:68-79 | The varint-skipping loop computes the structural slot start. |
| OrderingParser.ReadTail | src/ordering.rs:106-162 | The certificate-tail loops compute the structural tail. |
| OrderingParser.CollectHashes | src/ordering.rs:187-200 | The hash loop reads exactly the listed 32-byte slices, or nothing when they do not fit. |
| OrderingParser.TailedRecords | src/ordering.rs:252-331 | The nested search loops, with every index in bounds, return exactly the slot's record and the record of the unique candidate. |
| OrderingCodec.ParserInvertsEncoder | src/ordering.rs:202-243 | For any proposer, up to 1024 hashes, any legal varints, 0 to 8 timeout certificates and legal small bytes, in both layout epochs and whatever follows: the parser recovers every field, the round being one past the highest timed-out round, or past the parent. |
| OrderingCodec.ReadsTail | src/ordering.rs:106-162 | An encoded certificate tail reads back wherever it stands. |
| OrderingGrammar.TailIff | src/ordering.rs:106-162 | On arbitrary bytes the tail parser accepts exactly the tails of the layout, with any legal varint widths, a count with that many timed-out rounds or none, and one to four small bytes, and says of each its activation, its round (one past the highest timed-out round, else past the parent) and its end. |
| OrderingGrammar.SlotIff | src/ordering.rs:202-243 | On arbitrary bytes the slot parser accepts exactly the payloads that begin with the tag, nine varints and a slot of the layout, in either epoch, and says of each what it says. |
| OrderingStability.SlotStable | src/ordering.rs:202-243 | A slot that parsed is unchanged by appending any bytes. |
| OrderingStability.TailStable | src/ordering.rs:106-162 | So is a certificate tail. |
| OrderingSearch.SearchIsUniqueCandidate | src/ordering.rs:287-314 | On arbitrary bytes the search settles on an index exactly when it is the only one in the payload that passes the structural check. |
| OrderingSearch.CandidateIff | src/ordering.rs:287-314 | The structural check at an index, byte by byte. |
| OrderingSearch.OwnRecordIff | src/ordering.rs:252-331 | On arbitrary bytes an own record is returned if and only if exactly one index passes and its count byte is not zero, and it then is the proposer, the next round and the hashes around that index. |
| OrderingSoundness.OwnIsCandidate | src/ordering.rs:287-314 | The true own record always passes the structural check. |
| OrderingSoundness.NeverAWrongRecord | src/ordering.rs:252-331 | The result is the slot's record and the true own record or nothing, never another; the own record exactly when it has hashes and no other index passes. |
| OrderingSoundness.FrameYieldsItsRecords | src/ordering.rs:252-331 | The same from the bytes of a whole encoded frame alone: slot record, then the true own record or nothing, the own record exactly when it has hashes and no other index passes. |
| OrderingRecords.ScanBlockRecords | src/ordering.rs:353-396 | The marker loop, with every index in bounds, computes the recursive scan. |
| OrderingRecords.ScanIsGreedy | src/ordering.rs:353-396 | The scan takes markers in payload order, never two whose records overlap, and passes over a marker that leads a record only when it lies inside a record already taken. |
| OrderingRecords.ScanKeepsWindow | src/ordering.rs:353-396 | Every scanned record is in the window and has 1 to 64 hashes. |
| OrderingRecords.OnlyTrueRecords | src/ordering.rs:336-350 | On an encoded current frame nothing but the slot's record and the frame's own record is ever returned, and neither when the slot's round is outside the window. |
| OrderingRecords.OldFramesAreScanned | src/ordering.rs:336-350 | A payload that parses as an old frame, or does not parse at all, is scanned from its first possible marker. |
| OrderingRecords.LegacyRecordsAreFound | src/ordering.rs:353-396 | Every encoded old record of such a payload, its round in the window and with 1 to 64 hashes, is returned unless its marker lies inside a record that an earlier marker led. |
| OrderingRecords.LegacySlotIsScanned | src/ordering.rs:202-243 | The slot of an encoded old frame is such a record. |
| Model.ConfigIsSound | src/benchmark.rs:118-195 | Every configuration has a provider, lists none twice, includes its reference, and races providers exactly when it has more than one. |
| Windows.AdmitKeeps | src/benchmark.rs:1078-1134 | A ring stays sorted by commit time and within its cap, and loses only its oldest entry, only when full. |
| Windows.AdmitCounts | src/benchmark.rs:1078-1134 | A commit adds one entry to each ring it touches, and counts an eviction with the time of the loss exactly when that ring was full. |
| Windows.UnreportedOutcomes | src/benchmark.rs:1239-1267 | The outcome loop computes the fold of strict wins and ties over the cohorts due, and counts as complete exactly the unreported cohorts committed by then. |
| Windows.MarkOutcomesReported | src/benchmark.rs:1269-1277 | The marking loop marks exactly the cohorts committed by then, leaves marks that were there, and changes nothing else. |
| Windows.RollingCoverage | src/benchmark.rs:1279-1294 | Matched and missing add up to the ring; matched and mismatch are the numbers of cohorts with that outcome. |
| Windows.OutcomesBalance | src/benchmark.rs:1231-1267 | In each publication the company columns and the ties add up to the complete cohorts, and the tied counts to at least twice the ties. |
| Windows.OutcomesMean | src/benchmark.rs:1239-1267 | The complete count is the number of cohorts due, and a provider's strict count the number of those in which it was faster than every other. |
| Windows.TiesMean | src/benchmark.rs:1239-1267 | The ties are the cohorts due in which two providers share the least latency, and a tied count the number of those in which the provider is one of them. |
| Engine.Benchmark.InsertSettledBase | src/benchmark.rs:1155-1169 | A full tombstone map loses an oldest entry, charged to that entry's coin. |
| Engine.Benchmark.InsertSettled | src/benchmark.rs:1139-1153 | The same for settled keys. |
| Engine.Benchmark.FinalizeCandidate | src/benchmark.rs:1036-1137 | Counters, coverage ring, latency ring and settled key move together as the specification says; no latency subtraction underflows. |
| Engine.Benchmark.Settle | src/benchmark.rs:964-1034 | The three passes over a base's candidates, in whatever order its map yields them, compute the engine's settle for that order, and cap pressure evicts an oldest entry each time. |
| Engine.Benchmark.RecordMarket | src/benchmark.rs:874-962 | Recording an event computes the engine's record for the map orders that occurred, and never looks up an unregistered coin. |
| RecordMeaning.RefusedMeans | src/benchmark.rs:874-894 | An event without a time, or more than the allowed skew ahead of its receipt, counts as future; one ahead by less as negative; both mark the coin's window and change nothing else; an event of a provider that is not run changes nothing. |
| RecordMeaning.SealedMeans | src/benchmark.rs:908-920 | An event for a sealed base counts as a duplicate if its content is remembered with its provider among those that delivered it in time, else as late, and changes nothing else. |
| RecordMeaning.DuplicateIff | src/benchmark.rs:908-920 | Over every run: it counts as a duplicate if and only if that is remembered, and then some earlier turn settled a base in which the provider had delivered that content in time; otherwise it counts as late. |
| RecordMeaning.PlaceMeans | src/benchmark.rs:931-957 | An event placed in its open base becomes its provider's arrival of that content, with its own receipt and wall time, unless there is one; the content is first seen at its earliest receipt; one content too many is not placed. |
| RecordMeaning.PlaceKeepsOthers | src/benchmark.rs:931-957 | Every other base and every other content stays as it was. |
| RecordMeaning.PlaceCounts | src/benchmark.rs:937-957 | One content too many counts as an overflow, a second copy from one provider as a duplicate, anything else nowhere yet. |
| RecordMeaning.OpenMeans | src/benchmark.rs:922-962 | An event for an open base is placed, after a base first seen earliest was settled if there were too many, and with a single provider the base is settled at once. |
| Engine.Benchmark.Tick | src/benchmark.rs:538-551 | A tick settles exactly the bases past their deadline, in whatever order they come, then prunes; `Retention` says what it keeps. |
| Retention.TickSettlesTheOverdue | src/benchmark.rs:538-551 | A tick settles exactly the bases first seen a cohort timeout ago or more; every other stays open with what it holds. |
| Retention.TickKeepsTheWindow | src/benchmark.rs:1171-1185 | After a tick each ring holds an entry as often as it did once the bases due were settled if its stamp is at most the rolling window old, and not at all otherwise; so do the tombstones and settled keys, and nothing else has changed. |
| Engine.Benchmark.WindowEvents | src/benchmark.rs:553-575 | Nothing is prepared or returned unless both clocks moved past the cursor; otherwise the interval and each coin's outcome counts are the specification's, taken from the rings as the tick left them. |
| Engine.Benchmark.CommitPreparedPublication | src/benchmark.rs:850-868 | Exactly when a prepared interval still advances the cursor, the cursor moves to its end and the outcomes up to then are marked; otherwise only the preparation is forgotten. |
| Engine.Benchmark.RejectPreparedPublication | src/benchmark.rs:870-872 | Rejecting only forgets the prepared interval. |
| SettleLaws.SettleTally | src/benchmark.rs:964-1077 | Settling a base accounts for exactly its arrivals of each provider and scores every active provider on the same number of canonical cohorts, in any candidate order. |
| SettleMeaning.SettleCredits | src/benchmark.rs:964-1077 | Settling a base credits each provider with exactly: a match for every accepted content it delivered in time, a miss or mismatch for every other accepted one, an orphan for each content that was not accepted, and a late arrival for everything it delivered too late. |
| SettleMeaning.SettleCommits | src/benchmark.rs:1078-1134 | Without cap pressure the ring gains exactly one cohort for each accepted content that every active provider delivered in time, with its latencies, commit time and delay. |
| SettleMeaning.SettleCovers | src/benchmark.rs:1036-1098 | And the coverage ring exactly one entry for each accepted content, with every provider's outcome. |
| SettleMeaning.SettleRemembers | src/benchmark.rs:1036-1153 | What a settle adds to the settled keys is what its base accepted, with the providers that delivered it in time; without cap pressure it adds all of it and takes nothing away. |
| Conservation.SettleDebt | src/benchmark.rs:964-1077 | Settling leaves observed minus accounted minus waiting unchanged. |
| Conservation.PlaceDebt | src/benchmark.rs:922-962 | Placing an observed event accounts for it once: it waits, is a duplicate, or is one content too many. |
| EngineRuns.EngineKeepsInvariant | src/benchmark.rs:874-1185 | Every reachable state, under any map order, receipt order and cap pressure, keeps the whole engine invariant. |
| EngineRuns.ObservationsConserved | src/benchmark.rs:874-1077 | In every reachable state: observed equals matched plus orphaned plus late plus duplicate plus signature overflow plus arrivals still pending, for each provider and coin. |
| EngineRuns.ScoredEvenly | src/benchmark.rs:990-1077 | Matched plus missing is the same for all active providers, mismatch is at most missing, and in reference mode the reference misses nothing. |
| EngineRuns.NoEventTwice | src/benchmark.rs:899-920 | Open and sealed bases are disjoint, and while a coin has had no state eviction its ring holds no event key twice and every cohort is under a tombstone at least as young. |
| EngineRuns.RingsStayInBounds | src/benchmark.rs:1078-1185 | The last cohort of a ring is the latest, commit delays are under the timeout, all maps and rings are within their caps, and any eviction has set the integrity mark. |
| Admission.CommitsInTime | src/benchmark.rs:974-1003 | A complete cohort commits at one of its own arrivals, not before its first sight, and less than the cohort timeout after it. |
| Admission.LatencyIsExact | src/benchmark.rs:1100-1110 | A cohort's latency is the receipt's wall time minus the event's, with no underflow. |
| Bounds.SettleShows | src/benchmark.rs:964-972 | Every tombstone, settled key or open base that cap pressure discards bumps its coin's eviction count. |
| Sealing.SettleSeals | src/benchmark.rs:964-1137 | Settling at the deadline or by eviction keeps every unevicted coin's ring covered by tombstones. |
| Sealing.PruneSeals | src/benchmark.rs:1171-1185 | A tombstone outlives every cohort it covers. |
| OrderIndependence.SettleView | src/benchmark.rs:964-1137 | Without cap pressure settling a base adds a fixed effect to counters and ring contents, in whatever order its candidates are visited. |
| OrderIndependence.TickOrderIsInvisible | src/benchmark.rs:538-551 | A tick may settle its bases in any order with the same counters and the same ring contents. |
| ProcessingOrder.BurstGathers | src/benchmark.rs:896-962 | After any order of a burst the open base holds exactly its events: earliest receipts and one arrival per provider and content. |
| ProcessingOrder.ProcessingOrderIsInvisible | src/benchmark.rs:874-1137 | Events of one base with distinct provider and content, at most four contents, received within the cohort timeout: every two processing orders followed by a tick give the same counters and the same multisets of cohorts and coverage. |
| SingleProvider.OneProviderShowsTheOrder | src/benchmark.rs:931-961 | With a single provider the base settles at its first event, and two processing orders leave the same cohorts if and only if they begin with the same event. |
| Ledger.BooksBalance | src/benchmark.rs:843-872 | Accepted publications count pairwise disjoint sets of cohorts; a cohort is in the ring, or left it by a counted rolling eviction, or by being older than the rolling window, exactly one of these; and one that is neither reported nor open left it in one of these two ways. |
| Ledger.PublishedCountIsNew | src/benchmark.rs:577-593 | The complete-cohort column of a publication is the number of cohorts it newly reports, and zero with one provider, whose cohorts are reported without being counted. |
| Ledger.LifetimeCount | src/benchmark.rs:1112-1134 | The running complete count is the ring plus the counted rolling evictions plus what aged out; and it is what was reported, plus what is open, plus what left the ring unreported. |
| EngineBooks.EngineKeepsBooks | src/benchmark.rs:561-592 | Over every engine run the committed publications of a coin report pairwise disjoint sets of cohorts, none of them still open; the running count equals the ring plus the counted rolling evictions plus the cohorts that grew older than the window, and equals what was reported plus what is open plus those that were evicted or aged out unreported. |
| Schedule.IntervalsAreContiguous | src/benchmark.rs:563-575 | Committed intervals are contiguous and strictly increasing from the start of the run to the cursor, each ends on a multiple of the publish interval, and one is flagged as on schedule exactly when it is not the first and spans one publish interval. |
| Schedule.DurationsAddUp | src/benchmark.rs:850-868 | Their durations add up to the time covered. |
| Percentiles.NearestRankIsLeast | src/benchmark.rs:1296-1299 | The percentile is the least sample v with 100 times the number of samples at most v at least p times the number of samples. |
| Percentiles.PercentileIgnoresOrder | src/benchmark.rs:1203-1225 | No percentile depends on the order of the samples. |
| Percentiles.PercentilesAscend | src/benchmark.rs:1216-1225 | min <= P50 <= P95 <= P99 <= max, and min and max bound every sample. |
| Outbox.OutboxKeepsInvariant | src/axiom.rs:234-377 | Every interleaving of the writer's and the worker's file operations, with crashes between any two, keeps the outbox invariant. |
| Outbox.AcceptedStaysDurable | src/axiom.rs:295-324 | Every accepted batch has been acknowledged, or is queued and would survive a crash. |
| Outbox.AcknowledgedInOrder | src/axiom.rs:524-611 | Acknowledgements follow admission order, only the head is ever acknowledged again, and no accepted batch is passed over. |
| Outbox.QueueStaysInBounds | src/axiom.rs:234-333 | Ordering keys strictly increase, the byte total is the sum of the files, and both caps hold. |
| Outbox.CrashRebuildsTheQueue | src/axiom.rs:127-197 | Whatever a crash leaves, sorting by ordering key rebuilds the admission order, fits the caps, and has every accepted batch not yet acknowledged. |
| Outbox.PoisonedAdmitsNothing | src/axiom.rs:295-333 | After an ambiguous fsync nothing is admitted until a restart. |
| FileNames.OrderReadsBack | src/axiom.rs:682-690 | The ordering key of every written name reads back, whatever the id contains. |
| FileNames.EventsReadBack | src/axiom.rs:674-680 | The event count reads back exactly when it is between 1 and 10000. |
| OutboxStore.Recover | src/axiom.rs:119-197 | Opening returns the listing sorted by ordering key and within the caps, and refuses only a file it cannot read or a listing over the caps. |
| OutboxStore.PersistentOutbox.PersistBody | src/axiom.rs:234-325 | The result, the queue, the poison flag and each of the drop, cap-rejection and write-failure counters are fixed by the checks and the file system's answers, in that order; the state changes only by the machine's own steps, and only a known-durable rename is accepted. |
| OutboxStore.PersistentOutbox.Acknowledge | src/axiom.rs:351-377 | An acknowledged file already unlinked still commits; the head is found by name, removed once, and the byte total cannot underflow. |
| Publication.NoCohortInTwoWindows | src/main.rs:434-467 | Over every run of recording, publishing, delivery and crashes: no cohort is reported in two windows of one process that were ever durable or delivered, and each window's complete column is the number of cohorts it reports, or zero where the process has one provider. |
| Publication.ReportedIsDurable | src/main.rs:441-458 | A cohort marked as reported is in a window that has been delivered or would survive a crash. |
| AssemblySpec.BoundaryIsLatest | src/peering.rs:200-216 | A sample's receipt is the latest of the first ordering arrival and the first recorded arrival of every referenced bundle, and is one of them. |
| AssemblySpec.VerdictIff | src/peering.rs:200-234 | From the maps and the clock: an undecided round is a sample if and only if its ordering, its reference and every named bundle are there; a gap for a missing ordering, or for a missing bundle, if and only if the feed named it, it was first heard of more than INCOMPLETE_DEADLINE ago and that is missing; and it lapses if and only if it is past that deadline and was never named. |
| PeeringAssembly.Assembly.TrackOrdering | src/peering.rs:124-134 | In place: the window check and the first copy of an ordering. |
| PeeringAssembly.Assembly.TrackReference | src/peering.rs:142-167 | An unreadable line changes nothing; a warm-up round is dropped; any other sets the round's reference. |
| PeeringAssembly.Assembly.DrainReady | src/peering.rs:172-243 | Exactly the whole undecided rounds are returned, each once with its boundary and time; the two reason counters grow by exactly the rounds past their deadline whose ordering, or one of whose bundles, is missing; and what is left is the specification's desk. |
| AssemblyRuns.AtMostOneOutcome | src/peering.rs:172-250 | Over every run, a round has at most one sample or gap if and only if no turn stalled on that round after it had its outcome, through any pruning and re-serving and whatever happened to other rounds. |
| AssemblyRuns.SecondOutcomeIffStalled | src/peering.rs:172-250 | After any run, a round that had an outcome gets exactly one more from a turn if that turn names it again behind the horizon and its drain comes after the deadline, and none otherwise. |
| AssemblyOutcomes.JudgedAsTold | src/peering.rs:172-243 | From the turns of the run alone: a scored round not behind the horizon that has had no outcome and was not dropped is a sample if and only if its ordering came in the window and every bundle the feed last named is on record; a gap for a missing ordering, or for a missing bundle, if and only if the feed named it, the run first heard of it more than INCOMPLETE_DEADLINE before the drain and that is missing; and it is dropped if and only if it is past that deadline and was never named. |
| AssemblyOutcomes.NamedHasItsOutcome | src/peering.rs:172-250 | Over every run, a round that the feed has named and that is still tracked after a drain past its deadline has had exactly one outcome, unless an earlier drain dropped it unnamed past its deadline: then it has none. |
| AssemblyRuns.StalledDrainCountsTwice | src/peering.rs:172-250 | A concrete run does. |
| AssemblyBoundary.SampleIsLatest | src/peering.rs:111-250 | Over every run, through any drains, pruning and retention, a sample's receipt is the latest of the run's first ordering arrival in the window and of the first recorded arrival of each bundle the feed names, and is one of them, whenever the feed named it. |
| AssemblyBoundary.RecordedIsFirstIff | src/peering.rs:136-140 | With clocks that do not run backwards, the record a turn judges by is the run's first copy of a bundle if and only if the drain before that turn came less than 120 s after that copy was recorded. |
| AssemblyBoundary.FeedLagNeverDistorts | src/peering.rs:17-20 | Two runs that agree up to the feed lines for a round, one perhaps longer, and that sample it from its first arrivals give it the same sample, whatever the drains in between. |
| AssemblyBoundary.FeedLagShowsIff | src/peering.rs:244-250 | Against a sample from first arrivals, another feed time gives the same receipt if and only if whatever replaced a first arrival, the round having been out of the window or a bundle dropped and recorded again, came no later than that receipt. |
| AssemblyBoundary.DroppedBundleShows | src/peering.rs:244-250 | A concrete pair of runs that differ only in when the feed names a round, three seconds apart, gives receipts 118000 and 120500. |
| AssemblyRuns.FirstArrivalsStay | src/peering.rs:124-140 | While a round or bundle is tracked its first arrival never moves. |
| AssemblyRuns.WarmupHasNoOutcome | src/peering.rs:102-107 | Over every run, a round produced before the scoring horizon is neither sample nor gap. |
| DecodedAssembly.ClosesOnce | src/peering.rs:673-717 | Over every run, a decoded round closes at most once if and only if no turn stalled on that round after it had closed. |
| DecodedAssembly.ClosesAgainIffStalled | src/peering.rs:673-717 | After any run, a round that has closed closes once more from a turn that stalls on it and from no other. |
| DecodedOutcomes.ClosesAsTold | src/peering.rs:673-717 | From the turns of the run alone: a round not behind the horizon is sampled by a turn if and only if it had no outcome before and the first complete line and the last reference name the same bundles, with that line's arrival and that reference's time; and it is a gap if and only if they differ, or one is missing and the run first heard of the round more than INCOMPLETE_DEADLINE before the drain. |
| DecodedAssembly.DecodedRounds.DrainReady | src/peering.rs:673-717 | Exactly the undecided rounds whose line and reference agree are returned, and exactly those that differ, or that are past their deadline with one missing, are counted as gaps. |
| VpcMempool.LegsShareOneReference | src/vpc_mempool.rs:63-109 | All legs of an entry share one key whose time is not later than any leg, so the engine never counts a negative latency for them. |
| VpcMempool.EmittedOnceWhileRemembered | src/vpc_mempool.rs:128-197 | Open and done hashes are disjoint, every emission has a leg, and two emissions of one hash are at least the retention apart. |
| VpcMempool.GapsAreUnseen | src/vpc_mempool.rs:172-197 | The gaps charged to the box's node are exactly the emissions without a leg from it. |
| VpcMempool.MempoolJoin.Offer | src/vpc_mempool.rs:128-168 | Both legs' events come the moment the second arrives and at no other time. |
| VpcMempool.MempoolJoin.Expire | src/vpc_mempool.rs:172-197 | Exactly the overdue entries are emitted with the leg they have, and the gaps counted, in whatever order the map yields them. |
| MempoolEvents.OfferReturns | src/vpc_mempool.rs:128-168 | Over every run: an offer returns nothing, unless its hash has not been emitted yet and both sides have delivered it by now; then one QUICKNODE_GRPC event with the receipt and wall time of the first gRPC message and one QUICKNODE_VPC event with those of the first bundle line since the hash was last forgotten, under the earliest sight of the two. |
| MempoolEvents.ExpireReturns | src/vpc_mempool.rs:172-197 | An expiry returns exactly one event for each hash not emitted and first heard of a join deadline ago or more: the VPC's with the first bundle line's receipt and wall time if there was one, else the gRPC side's. |
| MempoolEvents.GapsHaveNoVpcEvent | src/vpc_mempool.rs:172-197 | The gaps charged to the box's node are exactly the hashes an expiry emits without a QUICKNODE_VPC event. |
| MempoolEvents.BothSidesInTime | src/vpc_mempool.rs:128-168 | A hash that both sides deliver before any expiry finds it overdue gets exactly one event of each, the moment the second side comes. |
| MempoolEvents.RememberedIff | src/vpc_mempool.rs:172-197 | After an expiry a hash is remembered if and only if it was emitted less than the retention ago. |
| Fills.ParseFillBatch | src/streams.rs:1258-1308 | The pairing loop returns exactly the keys that the first ask and first bid of some slot rebuild, at most one for each slot and none twice. |
| Fills.FirstIsEarliest | src/streams.rs:1262-1273 | The fill a slot is paired from is its earliest of that side in the batch, and there is none only when the batch has none. |
| Fills.CanonicalIff | src/streams.rs:1562-1599 | A trade has a key exactly when its price and size are positive decimals and no field is left out; the key is its own terms in canonical spelling. |
| Fills.FillsRebuildTrades | src/streams.rs:1245-1308 | Any interleaving of the two fills of trades with distinct coin, time and id rebuilds exactly their canonical keys. |
| Fills.NeverACrossedPair | src/streams.rs:1279-1306 | In any batch a rebuilt trade is backed by an ask and a bid of one slot that agree on price, size and hash, exactly one of them the taker. |

## Left out

- Sockets, WebSocket, gRPC and HTTP clients, packet capture, clock sampling, file tailing and task scheduling: only the step each one drives is modelled.
- LZ4 and JSON decoding, URLs and time parsing: `decompress_data_frame` is an arbitrary function, decoded records are the inputs.
- canonical_positive_decimal: an arbitrary idempotent function.
- Row formatting, labels, readiness strings, clock assessment, endpoint validation, reconnect backoff: single-branch code.
- Mean and standard deviation: floating point.
- `bpf_program`, `parse_ipv4_tcp` and `PeeringSource::taps`: straight-line code.
- `bundle_first_sig`, `validate_length_index` and the two integer readers behind it: only weak soundness is true of them, as a prelude can hold a false index.
- ordering_rounds: a window computed around `find_block_records`.
- TapFlow.TapBreaksWithDial: a single delivery that both synchronises a flow and breaks it again is not part of it.
- TapFlow.Flow.Deliver: which port a delivery belongs to is not modelled; each flow stands alone.
- OrderingRecords.ScanIsGreedy: says which markers the scan takes, not that they lead true records, because the scan is a declared heuristic that may return records that are not there.
- OrderingSoundness.NeverAWrongRecord: is about own records of the current layout with a single-byte count and a tail of 20 to 69 bytes, the ones the search is built for.
- Reconnect, sequence-gap and replay counters of `record`: plain additions.
- EngineRuns.RingsStayInBounds: the time of the last integrity loss is only claimed to be set, because a settled key's eviction stamps an older time.
- SettleMeaning.SettleCommits: cap pressure is excluded, here and in `SettleMeaning.SettleCovers`; what a full ring loses is `Windows.AdmitKeeps`.
- ReassemblerHoles.NothingLostIff: a SYN, an RST or a bare FIN in the stretch is excluded, as each ends the connection with a `Reset` of its own.
- ProcessingOrder.ProcessingOrderIsInvisible: cap pressure is excluded; under it the evicted entry depends on the order.
- ReassemblerRuns.NeverASplice: a segment half the number space or more away from the reader is outside it, as its sequence number then means another offset.
- A post whose acknowledgement was lost may be sent again; `Outbox.AcknowledgedInOrder` orders acknowledgements, not posts.
- Outbox.CrashRebuildsTheQueue: the caps are those of the process that crashed; a restart with smaller ones is refused by `OutboxStore.Recover`.
- Temporary files, the process lock and reading a batch back are not modelled; a batch is its name and its size.
- Publication.NoCohortInTwoWindows: is about one coin; windows of different coins have different identities.
- Percentiles.NearestRankIsLeast: the library sort is an insertion sort here, shared with recovery (`Sorting`).
- emitted_high_water: written and never read.
- DecodedAssembly.DecodedRounds.DrainReady: the two sorted hash lists are multisets, which are equal exactly when the lists are.

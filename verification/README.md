# Passive path, shadow cache, read scheduler and deduplicator of the eBUS gateway

This project models the four state machines at the heart of the Helianthus eBUS gateway and proves
what they promise over whole runs. `dafny verify dfyconfig.toml` checks all of it.

**The passive transaction reconstructor** (`Protocol`, `WireLog`, `BusTap`, `Reconstructor`,
`Synchronisation`, `RoundTrip`, `WireRoundTrip`, `Soundness`, `Completeness`, `Diagnosis`, `Ledger`,
`LinkLaws`, `ReconstructorObject`) reads raw bus bytes through an escape decoder and recognises broadcasts,
initiator/initiator frames and initiator/target transactions. `Reconstructor` gives one step per tap
event on values. `ReconstructorObject` is the object: its phase, both byte buffers, the parsed frames,
the timestamps and the gate are fields updated one by one, beside its counters, and an abstraction
function ties them to the value. The results: it inverts the wire encoding, one SYN synchronises it,
an exchange is reported if and only if a contiguous stretch of symbols after an open gate spells it in
time, whatever read timeouts fall into it, no symbol serves two reports, every reason it ever gives
for abandoning a request is true of the symbols since the gate was opened, an abandoned event carries
exactly what those symbols amount to, every request it starts is closed by exactly one event, the
discontinuities it reports are exactly the link changes, and its counters sum up to the requests it
abandoned.

**The shadow cache** (`ShadowCache`, `ShadowInvariants`, `ShadowViews`, `ShadowAdmission`,
`ShadowBudget`, `ShadowOrder`, `WriteOrder`, `ShadowRecency`, `ShadowEligibility`, `Compaction`,
`ShadowQueue`, `ShadowResults`, `ShadowStore`) keeps
values under keys with pins, an eviction list, a compactor list with a cursor, per-key generations,
tombstones and lock-free snapshots.
`ShadowCache` gives every operation as a function of a value; `ShadowStore.Store` is the object, and
each of its methods is proved to perform that function. The results: the lists, the entries and the
snapshots agree in every reachable state, writes are accepted exactly when they should be, a captured
generation detects every later invalidation, polled keys keep their entries, the budget of entries
pinned to confirm writes holds in every run that demotes no static pin, stamps stay in order exactly
when invalidations do, writes can go back exactly behind an early invalidation, the two freshness tests agree exactly when the descriptor is the one
of the last write, eviction takes the entry whose last use is longest ago, one compaction pass covers
everything, the compactor's list is in order of arrival, and callers are told exactly why and at which
generation.

**The semantic read scheduler** (`SemanticReads`, `ReadSafety`, `ReadFlight`, `PlainReads`,
`ReadProgress`, `ReadCooldown`, `ReadRecompute`, `ReadSlots`) is a system of concurrent calls. Its atomic steps are the shadow lookup,
the rejection of a candidate, the decision under the scheduler's lock, the capture of the generation,
the fetch, the shadow write and the commit; cache operations by anyone may come in between. The
locked decision reads the lock-free snapshot up to twice, so rejecting the candidate is a step of its
own and the copy may be judged by a later snapshot. The system keeps a history of
invalidations, acceptances and fetches, which no decision looks at. What a fetch returns is fixed
when it starts, so a fetched value is as old as it can be. The results hold in every interleaving.

**The active/passive deduplicator** (`Identity`, `Deduplicator`, `DedupLaws`, `DedupMatching`,
`DedupSkew`, `DedupRecovery`, `DedupEpochs`, `DedupObject`, `OwnTraffic`) matches the gateway's own reports with the
passive copies that the reconstructor emits. The results: per-identity conservation of reports and
copies, matches that do not depend on the order of arrival, the exact skew up to which a pair is
matched, the gate in front of third-party traffic, and the injective identity encoding. `OwnTraffic`
joins both ends: raw wire bytes of an own exchange come out as a matched copy, whichever comes first.

Conventions. Times are integers and come with the inputs; the zero time is `None`. CRC, hash, source
table, frame types and the classes of responses with data are parameters, so every result holds for all of
them. The local address known at a symbol, the family policy of a passive event, and the catalog,
activations and pinned-budget flag of the cache are inputs. Integers are unbounded; the LEN byte and
the length prefixes of the identity encoding wrap as in the code. Machines are run by `Runs`.

Where the code does not do what one would expect, the model does what the code does:

- A raw SYN in the middle of an escape sequence is a decode fault for the tap, so one SYN opens the
  gate if and only if no escape sequence was open (`RawSynOpensGate`); otherwise the exchange that
  follows is lost (`ReportedExactly`), and two SYNs always suffice. The decoder of the wire log needs
  only one.
- The closing SYN of an acknowledged frame is told by its value alone: a data byte with that value
  opens the gate if and only if no request and no response is being collected
  (`EscapedSynOpensExactly`), and closes an exchange if and only if it is no broadcast
  (`EscapedSynReportsExactly`).
- The second half of the target-address test, the overrun test of the response and the test of an
  accepted entry for a missing generation never fire.
- The admission test for pins that confirm writes lets every pinned entry pass, so an entry that loses
  its static pin to one of these can exceed the cap (`CapCanFail`). One synchronisation exceeds it if
  and only if the cap is reached and that entry is demoted (`SyncExceedsExactly`); without such a
  demotion the cap holds in every run (`CapHolds`).
- An invalidation stamped before a key's latest stamp re-creates an evicted entry without its time
  and lets in a write that is older than one accepted before (`StampsCanGoBack`). For a key with an
  entry as well, a confirmed write with the stamp of an early invalidation is accepted whatever was
  written before (`ReopensExactly`).
- A read without a watch key leaves a copy without a generation under the same key string. A watched
  read returns it unchecked, exactly while it is recent (`OldCopyReturnedExactly`), and a run from the
  start gets there (`StaleReadHappens`), so the promise about invalidations holds when all reads of a
  key are watched (`WatchedReadsAreCurrent`).
- The retry envelope compares the sums of retries before it clamps negative ones, so it is the longest
  request for non-negative counts (`EnvelopeIsLongest`) and can fall short otherwise
  (`NegativeRetriesMislead`).
- While any copy is pending, a report counts as two pieces of recovery evidence.
- The half-open refusal of the circuit breaker and the release inside the pending-capacity loop are
  unreachable.

## Model

| member | source | states |
|---|---|---|
| Protocol.OnlyReservedTargetsRefused | passive_transaction_reconstructor.go:716-746 | the target test of a request refuses exactly SYN and ESC; its second half is dead |
| WireLog.CanonicalRoundTrip | active_passive_deduplicator.go:809-815 | both frame parsers invert the canonical encoding if and only if the data has at most 255 bytes, for any checksum |
| WireLog.ParseIsCanonical | wire_log.go:238-259 | the parser accepts nothing but canonical encodings |
| WireLog.FrameDecoder.Push | wire_log.go:193-228 | one byte through the wire-log decoder: next state and completed frame |
| WireLog.FrameDecoder.Reset | wire_log.go:230-236 | clears escape flag and buffer |
| WireLog.DecodesEscaped | wire_log.go:193-228 | stuffed bytes fill the buffer with exactly the bytes they stand for and report nothing |
| WireLog.DecoderRoundTrip | wire_log.go:193-259 | from any state, after one SYN, a stuffed frame closed by a SYN is reported once, as it was sent |
| WireLog.BufferIsSuffix | wire_log.go:193-228 | over every stream the buffer holds exactly what the raw bytes since the last SYN or broken escape sequence stand for |
| WireLog.ReportedFrameIsOnWire | wire_log.go:193-259 | a frame is reported only at a SYN, and the raw bytes since the last boundary are its stuffed encoding |
| BusTap.EscapeDecoder.Push | passive_bus_tap.go:646-664 | one byte through the tap's escape decoder, with the escaped flag or the fault |
| BusTap.EscapeDecoder.Reset | passive_bus_tap.go:666-668 | closes an open escape sequence |
| BusTap.Observe | passive_bus_tap.go:204-298 | one stream event becomes the tap events the machine calls for, and moves the decoder |
| BusTap.ReadLoop | passive_bus_tap.go:204-298 | the read loop emits exactly the output of the tap machine over the whole stream |
| BusTap.TapDecodesEscaped | passive_bus_tap.go:204-298 | stuffed bytes become exactly the symbols they stand for, each marked escaped or not |
| LinkLaws.MarksPass | passive_bus_tap.go:204-298 | resets and timeouts go through the tap once each and in order, whatever the bytes and the decoding |
| LinkLaws.ResetCutsEscape | passive_bus_tap.go:240-246 | a reset is preceded by a fault exactly when it cuts an escape sequence, and what follows is decoded as from the beginning |
| LinkLaws.LogicalRoundTrip | passive_bus_tap.go:247-296 | over a stream that is not decoded again the flags of the bytes are kept, so that every well-formed exchange in time is reported |
| Synchronisation.RequestSynKeepsWf | passive_transaction_reconstructor.go:837-996 | a SYN in the request phase keeps the invariant; only broadcasts and unknown types can be complete there |
| Synchronisation.ResponseKeepsWf | passive_transaction_reconstructor.go:1226-1326 | a response symbol keeps the invariant, which leaves the overrun branch unreachable |
| Synchronisation.RunKeepsWf | passive_transaction_reconstructor.go:446-638 | every reachable state satisfies the phase invariant on buffers, frames, flags and times |
| Synchronisation.SelfSynchronisation | passive_transaction_reconstructor.go:529-619 | after any history one unescaped SYN leaves the reconstructor idle with the gate open and no resync pending |
| Synchronisation.EscapedSynOpensExactly | passive_transaction_reconstructor.go:529-619 | after any history an escaped SYN leaves the reconstructor idle with the gate open if and only if, once the watchdog has been applied, no request and no response is being collected |
| Synchronisation.SynForgetsThePast | passive_transaction_reconstructor.go:1580-1611 | after that SYN the future depends on the future inputs alone |
| RoundTrip.ReadRequest | passive_transaction_reconstructor.go:621-996 | the bytes of an acceptable request lead through the request phase to its commit, with no event |
| RoundTrip.HearAnswer | passive_transaction_reconstructor.go:1226-1326 | the bytes of an acceptable answer lead through the response phase to its acceptance, with no event |
| RoundTrip.ExchangeRoundTrip | passive_transaction_reconstructor.go:529-1412 | from the open gate any well-formed exchange within the watchdog, closed by a symbol of the value of SYN that for a broadcast must be a real one, yields exactly its one event and the open gate again |
| WireRoundTrip.RawSynOpensGate | passive_bus_tap.go:646-664 | a raw SYN opens the gate after any history if and only if no escape sequence was open |
| WireRoundTrip.RawRoundTrip | passive_transaction_reconstructor.go:529-1412 | after any history one raw SYN and the raw bytes of any well-formed exchange add exactly the exchange's event and leave the gate open |
| WireRoundTrip.TwoSynsAlwaysSuffice | passive_bus_tap.go:204-298 | two raw SYNs synchronise tap and reconstructor from every state |
| WireRoundTrip.OpenEscapeLosesExchange | passive_bus_tap.go:646-664 | when the SYN completes an escape sequence, no event added by the exchange reports it, whatever the exchange, and the gate is open after it; without a SYN-valued byte nothing is added |
| WireRoundTrip.ReportedExactly | passive_bus_tap.go:646-664 | after any history and one raw SYN, a well-formed exchange in time is reported if and only if no escape sequence was open |
| WireRoundTrip.EscapedCloserExactly | passive_transaction_reconstructor.go:1359-1412 | from the open gate a well-formed payload in time and a data byte of the value of SYN are reported if and only if the exchange is no broadcast |
| WireRoundTrip.EscapedSynReportsExactly | passive_transaction_reconstructor.go:1359-1412 | the same from raw wire bytes after any history and one decoded SYN |
| Soundness.GateWasOpened | passive_transaction_reconstructor.go:529-619 | the gate is open only directly after a SYN-valued symbol, or after a NACK in time that directly follows the contiguous symbols of a complete addressed request, itself read from an opening |
| Soundness.StepSoundness | passive_transaction_reconstructor.go:1056-1412 | a success event is spelled by the contiguous symbols since that opening |
| Soundness.EventSoundness | passive_transaction_reconstructor.go:505-1412 | every success event of a history has a stretch of symbols that spells a well-formed exchange with valid checksums, bounded lengths and no pause or read timeout beyond the watchdog, directly after a SYN or the NACK of an addressed request, where the gate is open |
| Completeness.TimeoutsAreSkipped | passive_transaction_reconstructor.go:505-518 | read timeouts within the watchdog change neither the state nor the events of a stretch |
| Completeness.StretchIsReported | passive_transaction_reconstructor.go:505-1412 | the converse of soundness: from the open gate every stretch of symbols and read timeouts that spells a well-formed exchange in time yields exactly its event and the open gate |
| Completeness.ReportedIffAccountedFor | passive_transaction_reconstructor.go:446-1412 | over every history a success event was emitted if and only if, from a point with the gate open, a stretch accounts for it |
| Completeness.ReportsAreDisjoint | passive_transaction_reconstructor.go:1580-1611 | reports at different points of a history are accounted for by disjoint stretches |
| Completeness.InterruptedRoundTrip | passive_bus_tap.go:204-298 | the raw round trip with read timeouts anywhere between the wire bytes, none beyond the watchdog |
| Diagnosis.SymbolDiagnosed | passive_transaction_reconstructor.go:529-1412 | in every phase the reason of an abandonment is true of the bytes seen and of the symbol that caused it: which part was truncated, corrupt, overlong, unanswered or unclosed, and whether it was own or a scan |
| Diagnosis.AbandonSoundness | passive_transaction_reconstructor.go:1421-1479 | after any history the reason of every abandonment, by a symbol, by silence beyond the watchdog, by the link or by closing, is true of the contiguous symbols since the gate was opened and of the input that ended them; the event carries the request and the response those symbols complete, the acknowledge seen unless the reason strips it, the times of the symbols, and the symbol to blame |
| Diagnosis.AbandonsAreSound | passive_transaction_reconstructor.go:1421-1479 | every abandoned event ever emitted has such a stretch of the history and an input at which it was emitted, with its reason and its whole content |
| Diagnosis.StateRecords | passive_transaction_reconstructor.go:1421-1479 | a request in progress is recorded as its symbols tell it: frame type, request, response, announced length, acknowledge and times |
| Ledger.StepBalance | passive_transaction_reconstructor.go:458-518 | one step keeps the balance of started, closed, dropped and running requests |
| Ledger.AtMostTwoEvents | passive_transaction_reconstructor.go:458-503 | one tap event emits at most two events |
| Ledger.OneClosingEventPerRequest | passive_transaction_reconstructor.go:446-638 | over any history requests started equal requests closed by one event, dropped by a reconnect, or in progress |
| LinkLaws.LinkChangesReported | passive_transaction_reconstructor.go:458-503 | over every history the discontinuities reported are exactly the link changes, in order and with their times |
| LinkLaws.LinkChangeClosesGate | passive_transaction_reconstructor.go:484-503 | a link change is the last event of its step, after the abandonment it causes, and closes the gate |
| LinkLaws.SourceRefused | passive_transaction_reconstructor.go:553-572 | at the open gate a symbol that is no source closes the gate and marks the rest as garbage, without an event |
| LinkLaws.GarbageUntilSyn | passive_transaction_reconstructor.go:542-555 | garbage stays garbage until a SYN-valued symbol |
| LinkLaws.RepeatedAfterNack | passive_transaction_reconstructor.go:1189-1199 | from the open gate a refused request is reported as refused, and an exchange that follows at once is reported in full |
| ReconstructorObject.TotalCountsEveryReason | passive_transaction_reconstructor.go:1421-1479 | one more abandonment of any reason raises the sum of the counters by one |
| ReconstructorObject.BookedMatches | passive_transaction_reconstructor.go:1421-1479 | booking an event keeps every counter, their sum, the recoveries and the pending trouble equal to what the events emitted call for |
| ReconstructorObject.PassiveReconstructor.constructor | passive_transaction_reconstructor.go:340-351 | starts idle with a closed gate and empty books |
| ReconstructorObject.PassiveReconstructor.ResetState | passive_transaction_reconstructor.go:1580-1600 | the state between frames with a closed gate |
| ReconstructorObject.PassiveReconstructor.ResetStateAfterSyn | passive_transaction_reconstructor.go:1608-1611 | the state between frames with an open gate |
| ReconstructorObject.PassiveReconstructor.Abandon | passive_transaction_reconstructor.go:1421-1479 | builds the abandoned event from the fields and books it; what the event means for the symbols seen is stated by Diagnosis.AbandonSoundness |
| ReconstructorObject.PassiveReconstructor.Succeed | passive_transaction_reconstructor.go:1759-1767 | a success settles the pending trouble and counts one recovery from it |
| ReconstructorObject.PassiveReconstructor.CountDiscontinuity | passive_transaction_reconstructor.go:484-503 | a reset or a decode fault leaves its trouble pending; no counter of abandonments moves |
| ReconstructorObject.PassiveReconstructor.StartRequest | passive_transaction_reconstructor.go:621-638 | the request phase with the first byte |
| ReconstructorObject.PassiveReconstructor.HandleIdleSymbol | passive_transaction_reconstructor.go:529-597 | the idle phase's step |
| ReconstructorObject.PassiveReconstructor.DispatchParsedRequest | passive_transaction_reconstructor.go:1056-1118 | a parsed request ends, waits for its acknowledge or is abandoned, by frame type |
| ReconstructorObject.PassiveReconstructor.HandleRequestSymbol | passive_transaction_reconstructor.go:656-996 | the request phase's step |
| ReconstructorObject.PassiveReconstructor.CheckCollected | passive_transaction_reconstructor.go:700-836 | target, length byte, overflow and completion are tested where the byte landed; the second target test is shown dead |
| ReconstructorObject.PassiveReconstructor.CommitRequest | passive_transaction_reconstructor.go:1024-1038 | a request complete by its LEN byte is parsed and dispatched |
| ReconstructorObject.PassiveReconstructor.HandleAckSymbol | passive_transaction_reconstructor.go:1173-1224 | the step on the request's acknowledge |
| ReconstructorObject.PassiveReconstructor.HandleResponseSymbol | passive_transaction_reconstructor.go:1226-1326 | the response phase's step |
| ReconstructorObject.PassiveReconstructor.CollectAnswer | passive_transaction_reconstructor.go:1226-1326 | the first byte fixes the length of the answer, every other byte is appended |
| ReconstructorObject.PassiveReconstructor.CheckAnswered | passive_transaction_reconstructor.go:1226-1326 | an answer is complete exactly at its length; the overrun is shown dead |
| ReconstructorObject.PassiveReconstructor.HandleFinalAckSymbol | passive_transaction_reconstructor.go:1328-1357 | the step on the response's acknowledge |
| ReconstructorObject.PassiveReconstructor.HandleTerminalSymbol | passive_transaction_reconstructor.go:1359-1412 | the step on the closing symbol |
| ReconstructorObject.PassiveReconstructor.HandleAnySymbol | passive_transaction_reconstructor.go:529-619 | one symbol in any phase |
| ReconstructorObject.PassiveReconstructor.ExpireIfStale | passive_transaction_reconstructor.go:505-518 | the watchdog abandons a request without progress |
| ReconstructorObject.PassiveReconstructor.HandleInterruption | passive_transaction_reconstructor.go:484-503 | a link event abandons what is in progress and reports the discontinuity |
| ReconstructorObject.PassiveReconstructor.HandleTapEvent | passive_transaction_reconstructor.go:458-482 | one tap event performs one step of the machine and keeps the books |
| ReconstructorObject.PassiveReconstructor.Observe | passive_transaction_reconstructor.go:446-456 | the fields are those of the machine over the whole history, the events are the machine's, each abandon and recovery counter is the count of its events, and the abandon counters summed over all reasons are the number of abandoned events |
| ShadowCache.NormalizedOptions | shadow_cache.go:269-314 | normalised options are positive where they must be, the hard lifespan covers the retain window, the write-confirm cap fits |
| ShadowInvariants.ApplyPinKeeps | shadow_cache.go:1044-1066 | giving an entry a pin restores that exactly the unpinned entries are on the eviction list, once each |
| ShadowInvariants.RemoveKeeps | shadow_cache.go:1254-1273 | removing an entry keeps lists, cursor and snapshots in agreement and every generation |
| ShadowInvariants.CapacityKeeps | shadow_cache.go:1079-1095 | making room evicts at most the first of the eviction list, an unpinned entry, and there is room afterwards exactly when there was room or something to evict |
| ShadowInvariants.WriteKeeps | shadow_cache.go:474-573 | a write, accepted or not, keeps the invariant and all generations and evicts at most one entry, never a pinned one |
| ShadowInvariants.InvalidateKeeps | shadow_cache.go:575-654 | an invalidation keeps the invariant and strictly advances its key's generation, whether or not the key gets an entry |
| ShadowInvariants.CompactKeysKeeps | shadow_cache.go:1117-1153 | a compacted batch keeps the invariant and no generation goes back |
| ShadowInvariants.StepKeeps | shadow_cache.go:397-832 | every operation keeps the invariant and no generation goes back |
| ShadowInvariants.ReachableIsWf | shadow_cache.go:243-1273 | in every reachable state each snapshot is the projection of the entry map, generations agree and are at least one for every entry, the lists hold exactly their keys once each, the cursor is on the list or nowhere, and no more entries are resident than fit |
| ShadowInvariants.CaptureDetectsInvalidation | shadow_cache.go:397-403 | a generation captured without the lock is behind for ever once the key was invalidated, whatever comes before and after |
| ShadowInvariants.EntriesStay | shadow_cache.go:1079-1095 | apart from compaction only an insertion takes entries away, at most one and never a pinned one |
| ShadowViews.WriteViews | shadow_cache.go:474-573 | an accepted write was admissible and leaves exactly its value, time, expiry and source under its key; a rejected one, and every other key, keeps its content or loses it to eviction |
| ShadowViews.InvalidateViews | shadow_cache.go:575-654 | an invalidation stamps its key, voids or creates its entry, and leaves other keys as they were or evicted |
| ShadowViews.CompactKeyFades | shadow_cache.go:1117-1153 | compaction only buries or removes what was invalidated, and keeps the stamps |
| ShadowAdmission.PrecedenceExactly | shadow_cache.go:952-995 | the precedence rules refuse a write exactly when the key's stamps, the entry's time or, at the same time, its source and value have the better claim |
| ShadowAdmission.CapacityExactly | shadow_cache.go:1079-1095 | room is made exactly when there is room or something to evict; the write-confirm check after the eviction never fails once the pin was admitted |
| ShadowAdmission.AcceptedExactly | shadow_cache.go:474-573 | a write is accepted if and only if the policy allows it, its generation holds, its time and source have the better claim, and its key has an entry or may get one |
| ShadowAdmission.InvalidationEntersExactly | shadow_cache.go:602-632 | an invalidated key has an entry afterwards if and only if it had one or may get one |
| ShadowAdmission.PolledEntriesStay | shadow_cache.go:935-950 | once pins are synchronised, the entry of a polled key outlasts every run of writes, invalidations, lookups and synchronisations, statically pinned throughout; only compaction or a change of catalog, activations or budget could remove it |
| ShadowBudget.SyncExceedsExactly | shadow_cache.go:1029-1042 | synchronising one entry exceeds the cap on pins that confirm writes if and only if the cap is reached and the entry turns from a static pin to such a pin |
| ShadowBudget.SyncsExceedExactly | shadow_cache.go:1023-1042 | synchronising all entries in any order stays within the cap throughout if and only if that never happens on the way |
| ShadowBudget.InvalidateExceedsExactly | shadow_cache.go:575-654 | an invalidation exceeds the cap if and only if the cap is reached and it turns a static pin into one that confirms writes |
| ShadowBudget.WriteExceedsExactly | shadow_cache.go:474-573 | a write exceeds the cap if and only if the cap is reached and it does so, by its synchronisation or by being accepted |
| ShadowBudget.StepBudgeted | shadow_cache.go:397-832 | every operation keeps the cap and keeps statically pinned entries away from write confirmation, unless a reconfiguration demotes one |
| ShadowBudget.CapHolds | shadow_cache.go:1097-1115 | over every run in which no reconfiguration takes the poller from a statically pinned entry and leaves it to write confirmation, no more entries are pinned to confirm writes than the cap allows |
| ShadowBudget.CapCanFail | shadow_cache.go:1097-1102 | a run of one write and one reconfiguration that ends with one pin above a cap of zero |
| ShadowOrder.TimeOrder | shadow_cache.go:952-995 | over every run, across eviction, compaction and re-creation, the stamps of a key never go back if and only if no invalidation is stamped before the key's latest stamp; then every passive write is strictly later than every invalidation before it; the high-water mark is always the latest stamp |
| ShadowOrder.EarlyInvalidationReopens | shadow_cache.go:593-646 | for a key without an entry, an invalidation and a later-stamped write are both accepted whatever the high-water mark |
| ShadowOrder.StampsCanGoBack | shadow_cache.go:952-995 | a concrete run in which a write at 6 is accepted after a write at 10 |
| WriteOrder.WritesStayInOrder | shadow_cache.go:952-995 | over every run in which no invalidation of a key comes first since its latest write and is stamped before it, the accepted writes of the key never go back, and what the checks see is not before the latest write |
| WriteOrder.ReopensExactly | shadow_cache.go:952-995 | for a key whose writes are in order, resident or not, a write from before the latest one can be accepted right after an invalidation if and only if the invalidation is such an early one |
| ShadowRecency.StepMovesUsed | shadow_cache.go:1044-1077 | every operation moves exactly the keys it uses, by an eligible lookup or by making them evictable, to the back of the eviction list and leaves the others in their order |
| ShadowRecency.ListIsByLastUse | shadow_cache.go:1068-1077 | over every run the eviction list is in the order of last use, where uses are told from the operations |
| ShadowRecency.EvictedIsLeastRecentlyUsed | shadow_cache.go:1079-1095 | over every run an evicted entry was evictable, the cache was full, and no evictable entry has an older last use |
| ShadowEligibility.SameVerdict | shadow_cache.go:1006-1021 | locked and lock-free test agree on an entry that carries the lifetime it was written with |
| ShadowEligibility.TestsAgreeExactly | semantic_read_scheduler.go:620-632 | while shadowing is on, the two tests agree at every age limit and instant if and only if the entry's descriptor has the lifetime of its last write |
| ShadowEligibility.TestsAgreeSinceWrite | shadow_cache.go:405-458 | after any run without an upgrade of the key's descriptor since its last accepted write the two tests agree |
| Compaction.AdvanceRotates | shadow_cache.go:1161-1183 | taking a batch moves it from the front of the cyclic walk to its end |
| Compaction.CompactKeyFate | shadow_cache.go:1117-1153 | a visit buries an overdue invalidated entry, removes an overdue tombstone, and changes no other entry |
| Compaction.PassLeavesNothingOverdue | shadow_cache.go:817-832 | a pass started with the cursor anywhere terminates and leaves no entry past the retain window and no starting tombstone past the hard lifespan |
| Compaction.PassKeepsPresent | shadow_cache.go:817-832 | a pass keeps every entry whose value was not invalidated |
| ShadowQueue.RemovalKeepsPlace | shadow_cache.go:1254-1273 | whoever is removed, the compactor walks on as before without that key, also when the cursor stands on it |
| ShadowQueue.QueueIsByArrival | shadow_cache.go:532-542 | over every run the compactor list is in the order in which its keys became resident |
| ShadowResults.ToldExactly | shadow_cache.go:474-541 | a rejected write is told exactly the first reason that applies, with the generation of its key when time or generation decided |
| ShadowResults.AcceptedIsTold | shadow_cache.go:543-573 | an accepted write is told the generation and the write generation its key has afterwards |
| ShadowResults.WritesCounted | shadow_cache.go:1185-1201 | over every run, across eviction and re-creation, the write generation of a key counts its accepted writes, invalidations and burials, and its entry shows it |
| ShadowResults.UpgradeTakesCatalog | shadow_cache.go:682-815 | a reconfiguration gives the upgraded entry the descriptor of the catalog and leaves all other contents alone |
| ShadowStore.Store.constructor | shadow_cache.go:243-267 | an empty cache satisfying the invariant |
| ShadowStore.Store.ApplyPin | shadow_cache.go:1044-1066 | pins an entry and moves it on or off the eviction list |
| ShadowStore.Store.CountWriteConfirm | shadow_cache.go:1104-1115 | counts the entries pinned to confirm writes |
| ShadowStore.Store.CanAdmit | shadow_cache.go:1097-1102 | whether one more may be pinned to confirm writes; a pinned entry always may |
| ShadowStore.Store.SyncPin | shadow_cache.go:1029-1042 | gives an entry the pin its descriptor, the activations and the budgets call for |
| ShadowStore.Store.SyncAll | shadow_cache.go:1023-1027 | synchronises all entries in whatever order they are visited |
| ShadowStore.Store.RemoveEntry | shadow_cache.go:1254-1273 | takes an entry out of the map and both lists, moves the cursor past it and stores the absent snapshot |
| ShadowStore.Store.EnsureCapacity | shadow_cache.go:1079-1095 | the eviction loop ends after at most one round because of the invariant |
| ShadowStore.Store.Touch | shadow_cache.go:1068-1077 | the key becomes the most recently used; what that means for eviction is stated by ShadowRecency.ListIsByLastUse |
| ShadowStore.Store.Lookup | shadow_cache.go:432-458 | synchronises the pin, gives the entry and its eligibility, and touches it when eligible and unpinned |
| ShadowStore.Store.EnsureKeyState | shadow_cache.go:1203-1214 | a key state exists |
| ShadowStore.Store.AdvanceGeneration | shadow_cache.go:1185-1188 | the next generation in key state and entry |
| ShadowStore.Store.Accept | shadow_cache.go:543-565 | the accepted value in entry, key state, eviction list and snapshot; the branch for an entry without a generation is shown dead |
| ShadowStore.Store.WriteAdmitted | shadow_cache.go:512-573 | generation check, precedence, lifetime, capacity and acceptance, in this order |
| ShadowStore.Store.Write | shadow_cache.go:474-573 | the whole write with its result; keeps the invariant |
| ShadowStore.Store.MarkInvalid | shadow_cache.go:595-601 | the key state remembers the latest invalidation and the latest stamp |
| ShadowStore.Store.InvalidateAbsent | shadow_cache.go:1190-1196 | without an entry only the generation records the invalidation |
| ShadowStore.Store.InvalidateEntry | shadow_cache.go:634-647 | the entry becomes invalidated, or a tombstone when it holds no value |
| ShadowStore.Store.InvalidateMissing | shadow_cache.go:605-648 | a missing entry is made when pin cap and capacity allow |
| ShadowStore.Store.Invalidate | shadow_cache.go:575-654 | the whole invalidation; keeps the invariant and advances the generation |
| ShadowStore.TakeFrom | shadow_cache.go:1173-1182 | the loop walks from the cursor and takes exactly the next elements, and ends on the one after them or nowhere |
| ShadowStore.Store.NextBatch | shadow_cache.go:1161-1183 | the loop takes the next batch from the cursor and leaves the cursor after it |
| ShadowStore.Store.CompactKey | shadow_cache.go:1117-1153 | one key of a batch |
| ShadowStore.Store.Bury | shadow_cache.go:1134-1139 | an invalidated entry becomes a tombstone without a value |
| ShadowStore.Store.CompactBatch | shadow_cache.go:1117-1153 | a whole batch, key by key |
| ShadowStore.Store.CompactOnce | shadow_cache.go:817-832 | the pass as a loop; it terminates and performs exactly the pass the coverage result is about |
| SemanticReads.Normalized | semantic_read_scheduler.go:150-174 | the breaker is on exactly for a positive budget, with a cooldown of at least zero and at least one probe |
| ReadFlight.GrantKeepsBreaker | semantic_read_scheduler.go:441-497 | a fetch is granted exactly unless the circuit is open and was opened less than the cooldown ago; a half-open circuit never refuses; the entry after the grant |
| ReadFlight.DecideKeepsBreaker | semantic_read_scheduler.go:252-330 | the locked decision keeps the breaker's books |
| ReadFlight.SettleKeepsBreaker | semantic_read_scheduler.go:374-420 | an outdated fetch changes neither circuit nor failures, drops the copy and returns its probe; a success closes and leaves its copy; a failure opens exactly when budget or probes are used up, at the time of the commit |
| ReadFlight.SingleFlight | semantic_read_scheduler.go:206-439 | in every interleaving at most one fetch per key is in flight, a key is running exactly then, the breaker's books hold, no call fetches more than twice, and a call is exhausted only after its second fetch |
| ReadFlight.CooldownDecides | semantic_read_scheduler.go:321-331 | in every interleaving a fetch is granted to an open circuit only when the cooldown has passed since it was opened, and a call is refused only before that |
| ReadCooldown.OpenedByFailure | semantic_read_scheduler.go:499-520 | in every run an open circuit was opened by the commit of a failed fetch of its key, and its opening time is the time of that commit |
| ReadCooldown.CooldownHolds | semantic_read_scheduler.go:441-470 | while every decision comes less than the cooldown after the opening, the circuit stays open and nobody fetches the key |
| ReadCooldown.NoFetchDuringCooldown | semantic_read_scheduler.go:441-520 | in every run no fetch of a key is under way after a failure opened its circuit, as long as the decisions since then come within the cooldown |
| ReadSafety.AcceptedGeneration | shadow_cache.go:512-573 | an accepted write of a fetched value proves its start generation was current and reports the generation after it |
| ReadSafety.PresentBefore | shadow_cache.go:397-832 | a value is present after an operation only if it was before or was just accepted |
| ReadSafety.WitnessKept | shadow_cache.go:397-403 | a captured generation that is still current proves the key untouched, through every step |
| ReadSafety.ConsultSafe | semantic_read_scheduler.go:591-604 | a candidate found in the shadow carries a witness for its value |
| ReadSafety.DecideSafe | semantic_read_scheduler.go:274-330 | what the locked decision returns or adopts is witnessed |
| ReadSafety.StoreSafe | semantic_read_scheduler.go:350-371 | offering the fetched value to the shadow keeps the fetch's witness |
| ReadSafety.SettleSafe | semantic_read_scheduler.go:374-420 | what the commit returns or stores is witnessed |
| ReadSafety.NoReadSurvivesInvalidation | semantic_read_scheduler.go:206-439 | in every interleaving of calls and cache operations a value returned after a generation check was accepted by the shadow, or its fetch began, after every invalidation of its key before that check |
| PlainReads.WatchedReadsAreCurrent | semantic_read_scheduler.go:274-319 | if all reads of a key are watched, every value returned for it was checked and is newer than every invalidation before the check |
| PlainReads.OldCopyReturnedExactly | semantic_read_scheduler.go:295-319 | from any reachable state, at any time and age limit, a watched read right after an invalidation returns a value at once if and only if nobody fetches and the scheduler has a recent copy without a generation; it is that copy, unchecked and older than the invalidation |
| PlainReads.PlainCallFetches | semantic_read_scheduler.go:180-183 | from any state and at any time a plain read comes to its fetch if and only if nobody fetches, no copy is recent and the breaker allows it |
| PlainReads.PlainCallLeavesCopy | semantic_read_scheduler.go:391-407 | whatever a plain read fetches, whenever it is stored and committed, stays as a copy without a generation |
| PlainReads.StaleReadHappens | semantic_read_scheduler.go:295-319 | for every key, value, age limit and invalidation there is a run from the start in which a watched read returns what was fetched before the invalidation |
| PlainReads.UncheckedIsPlain | semantic_read_scheduler.go:295-319 | over every run a value returned unchecked to a watched call was fetched by a plain call of the same key, which committed it at an earlier step, and was served no later than the age limit after that |
| ReadProgress.ShadowAnswers | semantic_read_scheduler.go:247-288 | a watched call on an idle key whose value is fresh gets exactly that value, without a fetch |
| ReadProgress.OfferKeepsPace | semantic_read_scheduler.go:380-390 | right after a call's own shadow write, accepted or not, the key is at the generation the commit expects |
| ReadProgress.UndisturbedFetchReturns | semantic_read_scheduler.go:339-438 | an undisturbed fetch returns what it fetched, keeps it as the copy, ends the flight and closes the circuit, unless the shadow knows something newer |
| ReadRecompute.RecomputedFetchReturns | semantic_read_scheduler.go:206-439 | from any state, a watched call whose first fetch is overtaken by an invalidation fetches again and returns the second value, which is the copy it leaves |
| ReadRecompute.CommitTells | semantic_read_scheduler.go:374-438 | what a commit tells the call: the error of a failed fetch, the value of one that stands, another try after the first outdated one, exhaustion after the second |
| ReadRecompute.DecisionTells | semantic_read_scheduler.go:252-335 | what a decision tells the call, in this order, and the entry it leaves: wait, serve the candidate and keep it, look again, serve the copy, refuse during a cooldown, fetch |
| ReadRecompute.ConsultTells | semantic_read_scheduler.go:591-604 | a look at the shadow finds exactly the present and eligible value, with its generation and source |
| ReadRecompute.WakesExactly | semantic_read_scheduler.go:263-272 | a waiting call is released exactly when the fetch it waits for is over |
| ReadRecompute.WaitsUntilWoken | semantic_read_scheduler.go:263-272 | nothing else but its cancellation moves a waiting call |
| ReadRecompute.OnlyTheseEnd | semantic_read_scheduler.go:206-439 | only a decision, a commit or a cancellation ends a call, and an ended call stays ended |
| ReadSlots.ReadSlot.constructor | semantic_read_scheduler.go:254-258 | a new entry is closed and has nothing |
| ReadSlots.ReadSlot.Transition | semantic_read_scheduler.go:522-555 | the circuit's transitions |
| ReadSlots.ReadSlot.Guard | semantic_read_scheduler.go:441-497 | lets a fetch start or counts a suppressed call; the half-open refusal is shown unreachable |
| ReadSlots.ReadSlot.RecordFailure | semantic_read_scheduler.go:499-520 | a failure counts and may open the circuit |
| ReadSlots.ReadSlot.Grant | semantic_read_scheduler.go:321-335 | the guarded start of a fetch takes a probe when half-open |
| ReadSlots.ReadSlot.Decide | semantic_read_scheduler.go:252-335 | the locked decision; keeps the breaker's books |
| ReadSlots.ReadSlot.Settle | semantic_read_scheduler.go:374-420 | the commit; keeps the breaker's books and ends the flight |
| Identity.PreimageInjective | active_passive_deduplicator.go:817-837 | the hashed bytes determine class, addresses, response class, outcome and both payloads below 65536 bytes |
| Identity.LongPayloadsCollide | active_passive_deduplicator.go:831-837 | at 65536 bytes two different identities have the same bytes |
| Identity.SameDigestSameFrames | active_passive_deduplicator.go:809-829 | with a digest that tells pre-images apart, equal digests of exchanges with or without a response mean the same identity and the same frames in the same roles |
| Deduplicator.FirstMatchIs | active_passive_deduplicator.go:839-864 | the matched entry is the first of the current epoch with the identity |
| DedupLaws.StepBalanced | active_passive_deduplicator.go:513-623 | one step accounts for every report and every eligible copy of an identity: matched, kept, lost, released, overflowed or flushed |
| DedupMatching.ReportInv | active_passive_deduplicator.go:550-565 | a retained report and its match keep reports and waiting copies of an identity exclusive |
| DedupMatching.RunInv | active_passive_deduplicator.go:513-623 | in every run no identity has a retained report and a waiting copy, and waiting copies are of the current epoch and fit |
| DedupMatching.Conservation | active_passive_deduplicator.go:513-623 | over every run and identity reports equal matched, retained and lost ones; eligible copies equal matched, grace-released, overflowed, waiting and flushed ones |
| DedupMatching.MatchesAreMinimum | active_passive_deduplicator.go:839-864 | in every run matches never exceed reports or copies, and with nothing lost, released, overflowed or flushed they equal the smaller of the two, whatever the order |
| DedupMatching.PendingBounded | active_passive_deduplicator.go:602-620 | pending never exceeds its capacity, is of the current epoch, and has no report waiting for it |
| DedupSkew.BudgetsNest | active_passive_deduplicator.go:263-307 | the derived envelope is never empty, publish and delivery budgets are below the grace, the grace below the retention, and the derived budgets are acceptable |
| DedupSkew.EnvelopeIsLongest | active_passive_deduplicator.go:222-307 | for non-negative retry counts the envelope is the longest request of either kind, and budgets are acceptable if and only if each is at least that plus its slack, with room for 256 copies |
| DedupSkew.NegativeRetriesMislead | active_passive_deduplicator.go:292-307 | with negative counts the envelope can be shorter than a request |
| DedupSkew.StrangerKeeps | active_passive_deduplicator.go:513-623 | an event of another identity leaves copies waiting until their time and reports retained until theirs |
| DedupSkew.CopyThenReport | active_passive_deduplicator.go:222-261 | with acceptable budgets a lone copy and its report at most the derived publish budget later are matched, whatever strangers do in between |
| DedupSkew.ReportThenCopy | active_passive_deduplicator.go:596-601 | with acceptable budgets a report and a copy at most the derived delivery budget later are matched, whatever strangers do in between |
| DedupSkew.ReportTakesExactly | active_passive_deduplicator.go:872-889 | a report meets a lone waiting copy if and only if the copy's grace is not over |
| DedupSkew.CopyThenReportExactly | active_passive_deduplicator.go:872-889 | for any budgets, with only strangers in between, a lone copy and a later report are matched if and only if the report comes less than the grace after the copy |
| DedupSkew.ReportThenCopyExactly | active_passive_deduplicator.go:1180-1201 | for any budgets, with only strangers in between, a report and a later copy are matched if and only if the copy comes less than the retention after the report |
| DedupRecovery.RunSums | active_passive_deduplicator.go:1203-1228 | in every run the recovery record sums up the evidence since the last degradation |
| DedupRecovery.HealthyExactlyWhenEarned | active_passive_deduplicator.go:1203-1228 | in every run the deduplicator is healthy if and only if, since the last degradation, evidence reached the threshold and spanned the hysteresis window; a report from another nonzero address than the known one is a degradation |
| DedupRecovery.ThirdPartyIsEarned | active_passive_deduplicator.go:917-928 | a third-party output appears only then |
| DedupRecovery.ReleasedAsEarned | active_passive_deduplicator.go:872-928 | a copy whose grace is over comes out at the next event or tick, as a third party's exactly when that was earned and its policy allows it |
| DedupEpochs.ReportMovesEpoch | active_passive_deduplicator.go:534-537 | a report from a nonzero address other than the known one starts the next epoch with nothing but its own evidence and report; any other report keeps the epoch; the address is known from then on |
| DedupEpochs.StepEpoch | active_passive_deduplicator.go:1124-1178 | every step keeps track of the own address, and starts an epoch, with exactly one notice, exactly for a move, a discontinuity or a reset |
| DedupEpochs.EpochsCounted | active_passive_deduplicator.go:513-623 | over every run the known address is the source of the last report that names one, the epoch counts the inputs that start one, and so do the notices |
| DedupEpochs.HeardAs | active_passive_deduplicator.go:568-695 | every passive event gets its verdict by its kind and the own address at once, or is matched, waits its grace or overflows |
| DedupObject.ActivePassiveDeduplicator.constructor | active_passive_deduplicator.go:222-261 | starts in epoch one, degraded and empty |
| DedupObject.ActivePassiveDeduplicator.ReleaseExpired | active_passive_deduplicator.go:872-889 | the loop keeps what still waits and releases the rest, both in order |
| DedupObject.ActivePassiveDeduplicator.Prune | active_passive_deduplicator.go:1180-1187 | the loop keeps exactly the reports that have not expired |
| DedupObject.ActivePassiveDeduplicator.Consume | active_passive_deduplicator.go:1189-1201 | uses up one retained report, if there is one |
| DedupObject.ActivePassiveDeduplicator.Degrade | active_passive_deduplicator.go:1203-1210 | degraded, with no evidence |
| DedupObject.ActivePassiveDeduplicator.RecordEvidence | active_passive_deduplicator.go:1212-1228 | counts evidence while degraded and recovers when it suffices |
| DedupObject.ActivePassiveDeduplicator.Reset | active_passive_deduplicator.go:1124-1148 | a new epoch, emptied and degraded, with its notice |
| DedupObject.ActivePassiveDeduplicator.MatchPending | active_passive_deduplicator.go:839-864 | the loop takes out the first matching copy, consumes the report and leaves the others in order |
| DedupObject.ActivePassiveDeduplicator.OldestReleasable | active_passive_deduplicator.go:891-904 | none exactly when nothing is releasable; otherwise a releasable entry with the earliest release time |
| DedupObject.ActivePassiveDeduplicator.MakeRoom | active_passive_deduplicator.go:603-612 | releases one output per entry until there is room; right after expiry it releases nothing and tells whether there was room |
| DedupObject.ActivePassiveDeduplicator.UpdateLocalAddress | active_passive_deduplicator.go:1159-1178 | notes the gateway's address and tells whether it changed; the law of the change is stated by DedupEpochs.ReportMovesEpoch |
| DedupObject.ActivePassiveDeduplicator.Report | active_passive_deduplicator.go:550-565 | retains a report, matches it and counts the evidence |
| DedupObject.ActivePassiveDeduplicator.HandleBus | active_passive_deduplicator.go:513-566 | performs the bus step with its outputs and keeps the invariant; its epochs are stated by DedupEpochs.StepEpoch |
| DedupObject.ActivePassiveDeduplicator.Copy | active_passive_deduplicator.go:596-622 | an eligible copy is matched, overflows or waits |
| DedupObject.ActivePassiveDeduplicator.HandlePassive | active_passive_deduplicator.go:568-623 | performs the passive step with its outputs and keeps the invariant |
| DedupObject.ActivePassiveDeduplicator.HandleTick | active_passive_deduplicator.go:866-870 | performs the expiry step |
| DedupObject.ActivePassiveDeduplicator.HandleCriticalReset | active_passive_deduplicator.go:1150-1157 | performs the reset step |
| OwnTraffic.SameIdentity | observe_first_family_policy.go:50-88 | the copy and the report of one exchange have the same digest, because one function classifies both |
| OwnTraffic.CopyMatchesOnlyItsReport | active_passive_deduplicator.go:625-807 | with a digest that tells pre-images apart, a copy has the digest of a report if and only if both are of the same exchange |
| OwnTraffic.BroadcastReportMatchesNothing | active_passive_deduplicator.go:762-807 | the report of a broadcast has the digest of nothing that is heard |
| OwnTraffic.UnansweredClass | observe_first_family_policy.go:70-80 | a success without a response counts as acknowledged only between initiators |
| OwnTraffic.OwnExchangeIsMatched | active_passive_deduplicator.go:513-623 | an own exchange that is reported and then heard as raw wire bytes, after any history of the tap, comes out as a matched copy |
| OwnTraffic.OwnExchangeIsMatchedLater | active_passive_deduplicator.go:513-623 | an own exchange that is heard as raw wire bytes first and reported within the publish budget comes out as a matched copy |

## Left out

- Dialing, transports, reconnect loops, subscriber channels, fan-out, goroutines, expvar counters and logs: input and output only.
- The forensic log, the fan-out overflow counters and the counters of skipped prefix bytes and rejected source bytes of the reconstructor: further counters without influence on the state.
- The reason and source of an invalidation, the confidence tier and the invalidation generation of an entry, and the last-updated time: stored and shown, never read by an operation; a write with no confidence is refused as in the code.
- Nil receivers, nil keys and blank fields, which are refused before anything happens.
- The computation of the pinned-budget flag from the catalog: the flag is an input, so the results hold for every value of it. The check of the flag for a static pin inside the write is dead, because the write has already been refused, and is not repeated.
- Replacing the shadow cache or the breaker options of a running scheduler, the breaker's callbacks, execution statistics, and reads with an empty key, which only call the fetch.
- The scheduler reads its clock several times within one locked decision and the cache reads its own; the model uses one instant per step. Other calls may step between the rejection of a candidate and the rest of its decision, which the lock forbids; the results hold for these runs too.
- The choice of family policy, the watch observation that retained reports feed into it, and the family-specific classes of responses with data: inputs of the deduplicator.
- Suppression flags of adjudicated events, which are functions of the disposition.
- Durations that overflow 64 bits in the retry envelope.
- Observability store and API, admission escalation, watch catalog, feature flags, GraphQL, MCP, portal, discovery and dumps: they surround the four machines; what the machines take from them is an input here.

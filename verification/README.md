# OpenSidebar tooling: a verified model

This project models the parts of the repository's scripts whose correctness is decided by code:
the release archive writer, the trace server's caches, paging, rotation and database leases, the
benchmark's subset selection, the browser bridge protocol, the insights aggregator, the trace
archiver, the snapshot projections and the RFC decision parser. `dafny verify dfyconfig.toml`
checks all of it.

| file | models |
|---|---|
| `Wrappers.dfy` | options and results, shared by all |
| `Words.dfy`, `Bytes.dfy`, `Crc32.dfy` | the table-driven CRC-32, against the bit-serial form of section 8 of RFC 1952 |
| `Zip.dfy` | the stored-method ZIP writer and two independent readers (PKWARE APPNOTE sections 4.3.7, 4.3.12, 4.3.16) |
| `SessionCache.dfy` | the trace-session cache as steps at its `await` points |
| `Paging.dfy`, `Sorting.dfy` | keyset, fallback and offset forms of the session search |
| `Rotation.dfy` | log rotation, with a file operation that may throw |
| `Leases.dfy` | reference-counted SQLite writers |
| `Shuffle.dfy`, `Stratified.dfy` | the seeded shuffle and largest-remainder selection |
| `Bridge.dfy` | the WebSocket bridge: calls, responses, aborts, timeouts, superseding and close |
| `InsightRows.dfy`, `Insights.dfy`, `InsightGroups.dfy`, `InsightsProgram.dfy` | the single-pass aggregator: its rows, its touches and summary, its facets and runs, its loops |
| `InsightsReference.dfy` | the same response said without loops, as counts and sums over lists |
| `Archive.dfy` | planning and applying a trace archive, with a stop after any step |
| `Overlay.dfy`, `Utf16.dfy`, `RunExport.dfy` | snapshot plus live overlay, surrogate repair, export by day and read-back |
| `RfcDecision.dfy` | the decision stamp of an RFC in Markdown |

Code that changes state step by step is a class or a method with loops, each proved equal to a
specification on values (`View() == Next(old(View()), event)`, `shown == Unfenced(Closed, lines)`).
What the code promises is then proved about that specification: over every run for the state
machines, over every input elsewhere.

## Results worth knowing

Several properties one would expect fail in corner cases. Each is stated with its exact condition,
and a lemma gives an input at which it fails.

- A bridge call whose `send` throws is rejected at once but stays in `pending`, with its timer,
  until something settles it (`WaitingIffPending`; `ThrownCallStaysPending`); aborted, it sends a
  cancel frame for a request that never went out (`CancelFollowsRequest`; `CancelWithoutRequest`).
- A message that is the JSON text `null`, and no other, makes the bridge's listener throw; it settles
  nothing (`OnMessage`, `NullSettlesNothing`).
- A read that joins a load in flight is served the rows of that load's source time, which may be
  older than the reader's own (`SameSourceIff`; `JoinMayBeStale`).
- The offset form of the search starts over when the cursor's row is gone (`OffsetAgreesIff`,
  `OffsetRestarts`; `OffsetDiffers`); the server's fallback allows pages of up to 5000 rows where
  the index stops at 500 (`FallbackAgreesIff`; `FallbackDiffers`).
- Levels of a benchmark subset are not checked for repetitions. A level listed twice can make the
  subset larger than asked (`SizeIff`; `RepeatedLevel`), and even at the right size a task can be
  taken twice: of tasks listed once, exactly when two listings of one level both have a seat
  (`TasksTakenOnceIff`; `RepeatedTask`).
- An opening that throws after its connection exists leaks it (`OpenIffMapped`; `LeakHappens`).
- Without the header row in the snapshot, turns older than the snapshot are dropped; with it, they
  come back repaired, which is not as they are if they hold a lone surrogate (`OverlayIsLiveIff`;
  `HeaderlessTurnIsLost`, `RepairedTurnDiffers`). So does the header (`HeaderIsLiveIff`).
- A run file read live is not repaired, so the same events read differently before and after an
  export if one of their strings holds a lone surrogate (`LiveReadAgreesIff`; `LiveReadDiffers`).
- Past 4 GiB of local records the end record's offset wraps (`EndRecordIffBelowLimit`;
  `EndRecordWraps`).
- A session without an id counts in an insights row at every visit (`CountedOnceIff`;
  `CountedTwice`).
- A truthy session id that is not a string is planned for but its line is never taken out of the
  index, so every further plan asks for it again (`SecondPlanEmptyIff`; `SecondPlanRepeats`).
- Stopped between the two writes of one index, an archive run archives those lines twice; stopped
  between the two indexes, it leaves run lines behind for good unless the sessions that remain
  still ask for all of them (`ResumedAfterWritesIff`; `ResumingFails`, `ResumingIsPlanned`).
- Archiving a session takes screenshots of a hot session along if their names start with the archived
  id and `-T` (`HotFilesStayIff`, `HotShotsStayIff`; `HotScreenshotMoves`).
- A bullet with only white space after its dash counts as an item, a blank one, so required evidence
  or edits can be there and say nothing (`ReturnedBlankIff`, `BlankBulletIff`;
  `BlankEvidenceAccepted`). A returned stamp prints back exactly when each item fits on a bullet
  line, which a blank one does not (`ReturnedStampPrintsIff`).
- A `Status:` line with only white space after the colon gives neither an error nor a stamp
  (`StampMissingIff`, `BlankStatusUnreported`; `BlankStatusHappens`), although the decision process
  says all fields are required. With nothing at all after the colon it is reported
  (`BareStatusIsReported`).

## Assumptions

- Each class method, rename, unlink and file write is one step. A run starts from the initial state.
- Rotation: a rename or unlink that throws has changed nothing.
- Cache: source times are integers; loading succeeds or fails as an event, with any rows.
- Bridge: the `ws` library accepts no connection once the server is closing, and a frame is
  recorded only when its socket is open. What the host process does with an exception out of a
  listener is not modelled.
- Paging: start times are numbers other than 0, which the store writes as NULL, and ids have one
  strict order (ids are ranks); a cursor is its row.
- Shuffle: `Math.floor(next() * (i + 1))` is exact arithmetic, which doubles give for lists of fewer
  than 2^21 items. Shares of bands are exact rationals; task ids are ranks.
- Insights: turns, costs, durations and token counts are integers, already read with 0 for a
  missing number; the filter, the order of ids, the price estimate of a request, the domain of a
  session's address and whether its handoff shows useful progress are parameters.
- Archive: the calendar and the JSON parser are parameters; an index is a list of raw lines; ids
  are plain file names, none of them `index`.
- Overlay: the snapshot was taken of the directory read, and no turn file was deleted since. As the
  source says, DuckDB rejects a file with a lone surrogate among its string values, so what is older
  than the snapshot was captured repaired; where nothing needs repair the repair changes nothing.
- RFC text: letter case is that of A to Z; white space is the set that `\s` matches. Fences follow
  the code, which trims a line before looking for one where section 4.5 of CommonMark limits the indent.

## Model

| member | source | states |
|---|---|---|
| Crc32.BuildTable | scripts/package-release.js:91-98 | the nested loops leave in slot v the register after eight serial steps from v |
| Crc32.Checksum | scripts/package-release.js:100-106 | the table loop computes the bit-serial reflected CRC-32 of every byte string |
| Crc32.KnownChecksums | scripts/package-release.js:91-106 | the checksum of the empty message is 0 and that of the letter a 0xe8b7be43 |
| Crc32.StepsXor | scripts/package-release.js:94-96 | any number of steps is linear over exclusive or |
| Crc32.StepsByLookup | scripts/package-release.js:103 | eight steps are one lookup of the low byte and one shift |
| Crc32.BurstDetected | scripts/package-release.js:92-106 | inputs that differ inside a window of up to 32 bits leave equal registers only if they are equal |
| Crc32.WindowDetected | scripts/package-release.js:100-106 | damage within four consecutive bytes always changes the checksum |
| Crc32.ResidueIffChecksum | scripts/package-release.js:100-106 | appending a little-endian word leaves the residue 0xdebb20e3 exactly when it is the checksum |
| Zip.GetU16 | scripts/package-release.js:108-112 | a printed 16-bit field reads back |
| Zip.GetU32 | scripts/package-release.js:114-118 | a printed 32-bit field reads back modulo 2^32, as `>>> 0` wraps it |
| Zip.MakeZip | scripts/package-release.js:120-191 | the writer fails exactly when a name or the file count needs more than 16 bits, and otherwise prints locals, directory and end record with the running offset |
| Zip.ParseLocalPrinted | scripts/package-release.js:131-146 | a printed local header and its content parse back, whatever follows |
| Zip.OffsetIsTrue | scripts/package-release.js:166-171 | the offset stored for the i-th file is where its local record starts |
| Zip.LocalThroughOffset | scripts/package-release.js:166-171 | following that offset reads the i-th file back |
| Zip.HeadersAgree | scripts/package-release.js:131-171 | each directory entry, and the local header its offset leads to, say in their literal fields the version, flags 0x0800, method 0, time, date, checksum, two equal sizes and the name that they should, and so agree |
| Zip.ScanRoundTrip | scripts/package-release.js:120-191 | a reader that scans local headers from byte 0 recovers the ordered names, contents and checksums |
| Zip.DirectoryRoundTrip | scripts/package-release.js:148-191 | a reader that follows the end record and the directory recovers the same list |
| Zip.EndRecordSays | scripts/package-release.js:175-184 | the end record names one disk, twice the number of files, the directory's size and offset modulo 2^32, and no comment |
| Zip.EndRecordIffBelowLimit | scripts/package-release.js:175-184 | the end record points at the directory if and only if the locals stay below 4 GiB |
| Zip.EndRecordWraps | scripts/package-release.js:175-184 | three files of just under 2 GiB make it point elsewhere |
| SessionCache.TraceSessionsCache.Invalidate | scripts/log-server.ts:171-174 | clears the slot and bumps the version, nothing else |
| SessionCache.TraceSessionsCache.ReadAllTraceSessions | scripts/log-server.ts:314-375 | a read up to its await: hit with a copy, join of the load in flight, or a new load that keeps the stale rows |
| SessionCache.TraceSessionsCache.OnLoaded | scripts/log-server.ts:332-354 | a finished load fills, restores or clears the slot only under its own version and promise |
| SessionCache.TraceSessionsCache.OnLoadFailed | scripts/log-server.ts:355-369 | a failed load restores or clears the slot under the same guard |
| SessionCache.TraceSessionsCache.AfterAwait | scripts/log-server.ts:377-378 | a reader goes on with a copy, or with the load's failure |
| SessionCache.TraceSessionsCache.Slice | scripts/log-server.ts:320 | a copy is a new array with the same rows |
| SessionCache.StepKeepsInv | scripts/log-server.ts:314-379 | every step of every interleaving keeps the cache invariant |
| SessionCache.CacheSoundInEveryState | scripts/log-server.ts:331-375 | always: one live load per version, the slot's promise is a live load of the current version, a cached pair was loaded whole under its source time |
| SessionCache.FreshAfterInvalidation | scripts/log-server.ts:171-174 | a read begun after an invalidation never returns rows of a load begun before it: its array comes from a later load and, when returned, holds row for row what that load produced |
| SessionCache.AwaitedIsExact | scripts/log-server.ts:377-378 | a reader that awaited a load gets, row for row, what that load produced, or its failure |
| SessionCache.NoReaderSharesAnArray | scripts/log-server.ts:320-325 | no returned array is the cached one or another reader's, so what callers write into array slots leaves loaded arrays as the load made them |
| SessionCache.HitIsExact | scripts/log-server.ts:316-321 | a hit returns what one load produced under the source time the reader saw, equal at that load's start and end |
| SessionCache.LoadFills | scripts/log-server.ts:332-354 | a load that ends under the source time it began with leaves its rows in the slot; under another, the rows that were there |
| SessionCache.CachedUntilChanged | scripts/log-server.ts:314-321 | from then on, until the source changes or an invalidation, every read is answered at once from those rows and no load begins |
| SessionCache.FailureRestores | scripts/log-server.ts:355-369 | over every run, a load that fails with no invalidation since it began leaves the slot with what the read found there when it began the load |
| SessionCache.SameSourceIff | scripts/log-server.ts:316-326 | a reader is served a load begun under the source time it saw, unless and only unless it joins one begun under another |
| SessionCache.JoinMayBeStale | scripts/log-server.ts:323-326 | such a run exists: a read begun after the source changed returns the older rows |
| SessionCache.NeverStuck | scripts/log-server.ts:314-379 | a read can always begin, and a reader whose load has settled can go on |
| Bridge.WebSocketBridge.OnConnection | scripts/browser-mcp/ws-bridge.ts:69-71 | a new connection supersedes the old as the client |
| Bridge.WebSocketBridge.OnSocketClose | scripts/browser-mcp/ws-bridge.ts:73-75 | a closed socket is forgotten only if it is still the client |
| Bridge.WebSocketBridge.OnMessage | scripts/browser-mcp/ws-bridge.ts:94-105 | a message settles the pending call it names, or does nothing; exactly the JSON text null throws |
| Bridge.WebSocketBridge.SettleCall | scripts/browser-mcp/ws-bridge.ts:121-129 | the first settle decides the promise and releases entry, timer and listener; later ones do nothing |
| Bridge.WebSocketBridge.MakeACall | scripts/browser-mcp/ws-bridge.ts:107-147 | a call is refused when aborted or not connected, and otherwise takes a fresh id and is pending, even if its send throws |
| Bridge.WebSocketBridge.OnAbort | scripts/browser-mcp/ws-bridge.ts:130-139 | a cancel frame if the socket is open, then the call settles as canceled |
| Bridge.WebSocketBridge.OnTimeout | scripts/browser-mcp/ws-bridge.ts:140-142 | the call settles as timed out |
| Bridge.WebSocketBridge.CloseBridge | scripts/browser-mcp/ws-bridge.ts:149-157 | every pending call settles and the client is closed |
| Bridge.SettleIs | scripts/browser-mcp/ws-bridge.ts:122-129 | everything a first settle changes |
| Bridge.StepKeepsInv | scripts/browser-mcp/ws-bridge.ts:69-157 | every event keeps the protocol invariant |
| Bridge.ResolvedAtMostOnce | scripts/browser-mcp/ws-bridge.ts:121-129 | over every run a decided promise never changes and no call is decided twice |
| Bridge.PendingOwnsTheResources | scripts/browser-mcp/ws-bridge.ts:122-144 | pending is exactly the accepted unsettled calls, and exactly those own a timer and, if they came with a signal, a listener |
| Bridge.WaitingIffPending | scripts/browser-mcp/ws-bridge.ts:120-146 | a caller waits exactly while its call is pending, if and only if its request was sent or the call has settled |
| Bridge.ThrownCallStaysPending | scripts/browser-mcp/ws-bridge.ts:144-145 | a call rejected by a throwing send is still pending |
| Bridge.NullSettlesNothing | scripts/browser-mcp/ws-bridge.ts:94-101 | when the listener throws, every pending call stays pending, with its timer still to run out |
| Bridge.ResponseReachesOnlyItsCall | scripts/browser-mcp/ws-bridge.ts:101-104 | a message changes only the pending call it names, and resolves it with its response |
| Bridge.LateResponseDropped | scripts/browser-mcp/ws-bridge.ts:102-103 | at any later time a response to a settled call changes nothing |
| Bridge.IdsNeverReused | scripts/browser-mcp/ws-bridge.ts:118 | a new call's id was unknown at every earlier moment |
| Bridge.CancelFollowsRequest | scripts/browser-mcp/ws-bridge.ts:130-145 | at most one cancel frame per call, preceded by its request on the same socket if and only if that was sent |
| Bridge.CancelWithoutRequest | scripts/browser-mcp/ws-bridge.ts:130-145 | aborting the call whose send threw leaves a cancel frame alone |
| Bridge.AbortCancels | scripts/browser-mcp/ws-bridge.ts:130-139 | over every run, an abort sends exactly one cancel frame over the call's own socket if that is open, and an undecided call is canceled |
| Bridge.TimeoutSettles | scripts/browser-mcp/ws-bridge.ts:140-142 | over every run, a timeout sends nothing, and an undecided call is timed out |
| Bridge.CloseSettlesAll | scripts/browser-mcp/ws-bridge.ts:149-157 | over every run, a close tells exactly the undecided calls that the bridge was closed, and closes the client's socket alone |
| Bridge.CallIsSent | scripts/browser-mcp/ws-bridge.ts:107-147 | over every run, when a call is refused without a trace, and otherwise the call, timer, listener and request frame it leaves |
| Bridge.ClientIsNewest | scripts/browser-mcp/ws-bridge.ts:69-75 | over every run, the client is the newest connection until that closes, whatever older ones do |
| Bridge.NothingAfterClose | scripts/browser-mcp/ws-bridge.ts:149-157 | after close nothing is pending, no caller waits and no call is accepted, for ever |
| Shuffle.StateAfterNext | scripts/bench/loader.ts:146-149 | the generator's state after n draws is seed + n * 0x6d2b79f5 modulo 2^32 |
| Shuffle.FullPeriod | scripts/bench/loader.ts:148-149 | two draws share a state if and only if they are a multiple of 2^32 apart |
| Shuffle.FirstWords | scripts/bench/loader.ts:144-153 | the first words drawn from seeds 0, 1 and 42 are those of mulberry32 |
| Shuffle.ScaleInRange | scripts/bench/loader.ts:155 | the drawn index stays in [0, i] |
| Shuffle.DrawsAre | scripts/bench/loader.ts:144-157 | the choice for position i > 0 of n is floor(w * (i + 1) / 2^32) of the word w of the (n - i)-th counter value |
| Shuffle.SeededShuffle | scripts/bench/loader.ts:144-159 | the in-place loop is the Fisher-Yates shuffle of the drawn choices, a permutation of the input |
| Shuffle.Placed | scripts/bench/loader.ts:154-157 | the step at i fixes that position for good |
| Shuffle.ChoicesDetermined | scripts/bench/loader.ts:154-157 | on a list without repetitions distinct choice vectors give distinct orders |
| Shuffle.EveryOrderReached | scripts/bench/loader.ts:154-157 | every order is reached by some choice vector |
| Stratified.AllocateSeats | scripts/bench/loader.ts:202-222 | the leftover loop ends with largest-remainder seats and takes neither its wrap-around nor its early exit |
| Stratified.LeftoverBands | scripts/bench/loader.ts:207-218 | fewer seats are left than bands with a fraction, each of which has room |
| Stratified.QuotaRule | scripts/bench/loader.ts:202-218 | a band gets its exact share rounded down or up and never more than it has |
| Stratified.LargestRemaindersFirst | scripts/bench/loader.ts:208-210 | a band with an extra seat has no smaller remainder than one without |
| Stratified.SeatsSum | scripts/bench/loader.ts:207-222 | seats sum to the size, or to the rounded-down shares where those exceed it |
| Stratified.CountsCover | scripts/bench/loader.ts:190-206 | bands cover the pool and partition it when no level is listed twice |
| Stratified.DrawBands | scripts/bench/loader.ts:224-228 | as many of each shuffled band as it has seats, in the order of the levels |
| Stratified.SelectStratifiedSubset | scripts/bench/loader.ts:176-235 | the selection with its defaults, its early returns and its final order |
| Stratified.SubsetIsExact | scripts/bench/loader.ts:176-235 | with distinct levels: exactly size tasks of the pool, none twice, sorted, each band with its seats |
| Stratified.TakenFromTheFront | scripts/bench/loader.ts:190-230 | with distinct levels, what is selected of a band is the beginning, as long as its seats, of the band as the seed shuffles it |
| Stratified.SortedIff | scripts/bench/loader.ts:229-234 | sorted means easy before medium before hard, and by id within a level |
| Stratified.PoolIsFiltered | scripts/bench/loader.ts:182 | the pool is the tasks of the levels asked for, in their order |
| Stratified.DefaultLevels | scripts/bench/loader.ts:180 | the default levels are distinct and leave no task out |
| Stratified.SmallAndLargeSizes | scripts/bench/loader.ts:184-188 | all of the pool comes back unsorted for no size or one that covers it, and nothing for a size below one |
| Stratified.SelectionLength | scripts/bench/loader.ts:207-228 | the length for any levels, repeated ones included |
| Stratified.SizeIff | scripts/bench/loader.ts:207-228 | the size asked for is met if and only if the rounded-down shares do not exceed it |
| Stratified.RepeatedLevel | scripts/bench/loader.ts:180-206 | with a level listed twice, two tasks come back where one was asked for |
| Stratified.TasksTakenOnceIff | scripts/bench/loader.ts:176-235 | whatever the levels, no task is taken more often than the pool holds it if, and for a pool without repetitions only if, no two listings of one level both have a seat |
| Stratified.RepeatedTask | scripts/bench/loader.ts:180-228 | of three tasks asked for, two are the same one |
| Sorting.SortIgnoresOrder | scripts/trace-insights.ts:606-609 | without ties a sorted list does not depend on the input's order |
| Paging.PageIsWindow | scripts/trace-sqlite-store.ts:2026-2078 | a keyset page holds exactly the rows between its cursor and its next cursor, in order |
| Paging.NewestComeFirst | scripts/trace-sqlite-store.ts:2022-2078 | in a page start times fall, ids rise among equal ones, and all come after the cursor |
| Paging.WindowsDisjoint | scripts/trace-sqlite-store.ts:2022-2078 | the windows of a walk do not overlap |
| Paging.WindowOf | scripts/trace-sqlite-store.ts:2022-2078 | the windows of a finished walk leave no gap |
| Paging.WalkIsExact | scripts/trace-sqlite-store.ts:2022-2078 | over a table that changes between requests, a finished walk returns no row twice, every row present throughout, and none never there |
| Paging.FixedWalkIsListing | scripts/trace-sqlite-store.ts:2022-2078 | over a fixed table the pages spell out the sorted listing |
| Paging.FallbackAgreesIff | scripts/log-server.ts:1164-1194 | the fallback answers as the index does if and only if the limit or the rows left are at most 500 |
| Paging.FallbackDiffers | scripts/log-server.ts:1164-1194 | they differ over 501 rows asked for at once |
| Paging.SizesAgreeIff | scripts/trace-sqlite-store.ts:2032-2055 | when two page sizes give the same page |
| Paging.OffsetAgreesIff | scripts/obs/repository.ts:137-165 | the offset form agrees with the keyset form if and only if the cursor's place is known and the page is within the index's limit |
| Paging.OffsetDiffers | scripts/obs/repository.ts:146-154 | they differ over two rows and a cursor between them whose row is gone |
| Paging.OffsetRestarts | scripts/obs/repository.ts:146-154 | when the cursor's row is gone the offset form answers with the first page |
| Paging.OffsetRowsLost | scripts/obs/repository.ts:146-154 | without its place it starts with a row the cursor had passed |
| Rotation.LogDirectory.Rename | scripts/log-server.ts:505 | a rename needs a source and lands on a free name, or throws and changes nothing |
| Rotation.LogDirectory.Unlink | scripts/log-server.ts:498-500 | the oldest slot goes, or the call throws and changes nothing |
| Rotation.LogDirectory.RotateIfNeeded | scripts/log-server.ts:490-513 | when due, slot k + 1 becomes old slot k, present or absent, and nothing else changes; a file operation that throws ends it with the slots above moved up, its own slot as it was and the lower ones untouched; every rename lands on a free name |
| Rotation.ShiftedUnique | scripts/log-server.ts:496-509 | that relation determines the directory |
| Rotation.RotationLosesOnlyTheOldest | scripts/log-server.ts:490-513 | whichever operation throws, every old segment but slot 5's is still in its slot or the next |
| Rotation.SlotsHoldNewestFirst | scripts/log-server.ts:490-513 | from an empty directory, while nothing throws, slot k always holds the k-th most recently rotated segment, and is absent when fewer exist |
| Rotation.FiveNewestKept | scripts/log-server.ts:490-513 | so the five newest segments are kept, one in each slot, and there is no sixth slot |
| Rotation.SlotsStayOrdered | scripts/log-server.ts:490-513 | over every run, whatever throws and when, each slot holds a rotated segment and a lower slot a newer one |
| Rotation.RotatesFromFiftyMebibytes | scripts/log-server.ts:490-513 | a log below 52,428,800 bytes stays; from there on it becomes slot 1 |
| Rotation.SegmentsAreFull | scripts/log-server.ts:490-513 | over every run no segment was rotated before it had that size |
| Leases.SqliteWriters.OpenDatabase | scripts/trace-sqlite-store.ts:388-398 | opening yields a connection, throws before it exists, or throws after and leaks it |
| Leases.SqliteWriters.CloseDatabase | scripts/trace-sqlite-store.ts:379-385 | closing removes the connection and records it |
| Leases.SqliteWriters.RetainWriter | scripts/trace-sqlite-store.ts:363-372 | a retain reuses or opens the path's writer and adds one lease and one handle |
| Leases.SqliteWriters.ReleaseHandle | scripts/trace-sqlite-store.ts:373-381 | the first release drops a lease, the last closes and unmaps; repeats do nothing |
| Leases.SqliteWriters.WriteThrough | scripts/trace-sqlite-store.ts:414-471 | a write borrows the retained connection, or opens and closes its own |
| Leases.LeasesCountHandles | scripts/trace-sqlite-store.ts:359-382 | over every run a writer's lease count is its number of unreleased handles, and its path is mapped exactly while that is positive |
| Leases.OpenIffMapped | scripts/trace-sqlite-store.ts:363-398 | between calls the open connections are the mapped ones, if and only if no opening threw with its connection already made |
| Leases.LeakHappens | scripts/trace-sqlite-store.ts:388-398 | one retain whose opening threw late leaves a connection that no path maps |
| Leases.ClosedOnceAndNeverUsed | scripts/trace-sqlite-store.ts:373-386 | no connection is closed twice and no write uses a closed one |
| Leases.WritesGoThrough | scripts/trace-sqlite-store.ts:414-471 | over every run a write to a retained path goes through that path's one open connection and leaves it open, another opens and closes its own, and nothing else uses one |
| Leases.ReleaseTwice | scripts/trace-sqlite-store.ts:374 | releasing a handle again changes nothing |
| InsightsProgram.InsightsPass.Visit | scripts/trace-insights.ts:474-530 | one visit to a row: made if new, the session recorded with its amounts only the first time, counters added |
| InsightsProgram.InsightsPass.TouchNames | scripts/trace-insights.ts:752-759 | one visit for each name in a list |
| InsightsProgram.InsightsPass.PassExecutions | scripts/trace-insights.ts:866-890 | the loop over tool executions: its visits, its summary counts, its counts of the run and its sample errors |
| InsightsProgram.InsightsPass.PassEntries | scripts/trace-insights.ts:785-901 | the loop over turns: tokens, costs and price estimates of the request, executions and events of each, in order |
| InsightsProgram.InsightsPass.CollectEscalations | scripts/trace-insights.ts:364-397 | the nested loop counts the escalations and outcomes of the turns' events, then the session's |
| InsightsProgram.InsightsPass.AddSessionFacets | scripts/trace-insights.ts:688-783 | the facets one session adds |
| InsightsProgram.InsightsPass.CountSkills | scripts/trace-insights.ts:768-771 | a session's skills are counted in its run |
| InsightsProgram.InsightsPass.PassSession | scripts/trace-insights.ts:682-920 | the loop body for one session: visits, summary with handoffs and escalations, facets, counts of its run |
| InsightsProgram.InsightsPass.LastVerdict | scripts/trace-insights.ts:915-933 | the last classified task_completed event of a run |
| InsightsProgram.InsightsPass.HasLabel | scripts/trace-insights.ts:944-946 | whether a session of the run carries the label already |
| InsightsProgram.InsightsPass.ChargeRun | scripts/trace-insights.ts:941-954 | a failed run nobody labelled adds a facet, visits its failure row with every session and counts once |
| InsightsProgram.InsightsPass.PassVerdicts | scripts/trace-insights.ts:940-955 | the second loop over the runs' verdicts |
| InsightsProgram.InsightsPass.Run | scripts/trace-insights.ts:682-955 | the whole pass leaves the rows of its list of touches, the summary, the facets, the sample errors and the runs |
| InsightRows.CachedTokens | scripts/trace-insights.ts:213-234 | cached tokens are between 0 and the prompt's |
| Insights.SessionMade | scripts/trace-insights.ts:743-920 | what a session's touches bring to each row is its executions, requests, events, names and failure |
| Insights.RowIsPerSession | scripts/trace-insights.ts:682-955 | every row: its sessions are those that visit it, turns and cost count each once through however many loops, counters are the sums over sessions |
| Insights.CountedOnceIff | scripts/trace-insights.ts:515-529 | each session counts once in a row if and only if none without an id, and with something to count, visits it twice |
| Insights.CountedTwice | scripts/trace-insights.ts:515-529 | one turn counts twice in an event's row |
| InsightRows.TableAddsUp | scripts/trace-insights.ts:474-507 | a table's rows add up to all that was put in, and each key has one row |
| Insights.RowsBalance | scripts/trace-insights.ts:743-920 | in every row, and every table, successes and failures make the calls, and cached tokens do not exceed prompt tokens |
| Insights.ToolRowsMakeTheSummary | scripts/trace-insights.ts:869-885 | tool rows sum to the summary's tool calls and tool failures |
| Insights.SummaryCached | scripts/trace-insights.ts:809-816 | in the summary cached tokens do not exceed prompt tokens |
| Insights.SignalsAddUp | scripts/trace-insights.ts:694-717 | in the summary, sessions out of turns are those without useful progress and those handing some over; handoffs and escalated sessions are bounded by the sessions, escalated sessions by escalations |
| InsightGroups.FacetsNameRows | scripts/trace-insights.ts:743-955 | facets of tools, skills, failures and event types are exactly the names of those rows, although gathered by other loops; those of models are among the model rows |
| InsightGroups.GroupSessions | scripts/trace-insights.ts:726-741 | a run is there exactly when a selected session names it, with the sessions that do, in order |
| InsightGroups.RunCountsCalls | scripts/trace-insights.ts:866-890 | a run counts a tool as often as its sessions call it |
| InsightGroups.ToolRowIsShared | scripts/trace-insights.ts:726-890 | a tool row's calls are what the runs count, each run once, and the calls of sessions without a run |
| InsightGroups.SampleIffFailures | scripts/trace-insights.ts:866-885 | a tool row has a sample error if and only if it counts a failure, and it is what the first failed execution said |
| Insights.EventRow | scripts/trace-insights.ts:892-920 | an event row counts the events of turns and sessions, and those of each selected run once |
| Insights.RunsOnce | scripts/trace-insights.ts:913-914 | the runs so counted are those of the selection, each once |
| Insights.SelectedIs | scripts/trace-insights.ts:597-609 | the sessions that pass the filter, newest first, and by id within one start time |
| Insights.FailureRow | scripts/trace-insights.ts:743-955 | a failure row counts the sessions with the label and the runs charged with it |
| InsightsReference.RowIsWhatItSays | scripts/trace-insights.ts:743-955 | every counter of every row is a count or sum over a list: calls of a tool with their successes, failures and time; requests of a model; listings of a model or skill, successes in sessions whose outcome is "completed" or "success" and failures in the others; carriers of a failure and runs charged with it; events of turns, sessions and runs |
| InsightsReference.SummaryIsWhatItSays | scripts/trace-insights.ts:682-920 | so is every number of the summary, the completed sessions, tokens, money and escalation signals among them |
| InsightsReference.CarriesIff | scripts/trace-insights.ts:277-284 | a session carries its failure code, else its category, else an outcome that is no success |
| InsightsReference.VerdictIs | scripts/trace-insights.ts:922-934 | a run's verdict is what its last classified task_completed event says |
| InsightsReference.ChargedIff | scripts/trace-insights.ts:940-954 | a run is charged exactly when its verdict is a failure that none of its sessions carries |
| InsightsReference.FacetIsWhatItSays | scripts/trace-insights.ts:682-955 | for every kind of facet, by what a selected session is found, and which failures come from runs |
| InsightsReference.GroupIsWhatItSays | scripts/trace-insights.ts:726-741 | a run has the query of its first session and the outcome of the last that ended badly, or "completed" |
| InsightsReference.SkillsOfRun | scripts/trace-insights.ts:761-772 | a run counts a skill as often as its sessions list it |
| InsightRows.SamplesAre | scripts/trace-insights.ts:509-523 | a row's runs are those its visitors name, and its samples the first id and the first run among them |
| Insights.SelectionIgnoresOrder | scripts/trace-insights.ts:597-609 | any rearrangement of sessions with distinct ids selects the same list in the same order |
| InsightGroups.ResponseIgnoresOrder | scripts/trace-insights.ts:597-1069 | so the response's rows, summary, facets, samples and runs depend only on the set of sessions |
| Archive.TraceStore.MovePath | scripts/trace-archive.ts:73-80 | a move of a missing source does nothing; onto a taken destination it fails and changes nothing |
| Archive.TraceStore.PlanSession | scripts/trace-archive.ts:124-159 | the moves of one cold session: trace, log and screenshots that are there |
| Archive.TraceStore.PlanRuns | scripts/trace-archive.ts:161-172 | the moves of the archived runs' files, to the month of the first session naming each |
| Archive.TraceStore.BuildPlan | scripts/trace-archive.ts:82-197 | the plan: cold ids, runs without a hot session, the first move of each file, the index moves |
| Archive.TraceStore.MoveFiles | scripts/trace-archive.ts:205-211 | the file moves fail exactly when a destination is taken, with the files before it moved |
| Archive.TraceStore.MoveIndex | scripts/trace-archive.ts:213-234 | one index move is its two writes |
| Archive.TraceStore.ApplyPlan | scripts/trace-archive.ts:199-235 | a plan is carried out whole, or stops at a taken destination with no index touched |
| Archive.Partition | scripts/trace-archive.ts:217-225 | every index line is archived or retained, as often as it occurs |
| Archive.LinesKept | scripts/trace-archive.ts:217-225 | which are archived: those whose id is a string of the set; a line that does not parse is retained |
| Archive.NoLineIsLost | scripts/trace-archive.ts:213-234 | stopped after any write, no index line is lost, the old archive is a prefix, and only between the two writes of one index is a line there twice |
| Archive.LinesApplied | scripts/trace-archive.ts:213-234 | a whole plan leaves each index its retained lines and adds the archived ones to its archive |
| Archive.SecondPlanEmptyIff | scripts/trace-archive.ts:97-107 | a second plan at the same time is empty if and only if every cold session's id is a string |
| Archive.SecondPlanRepeats | scripts/trace-archive.ts:97-107 | one number for an id: its plan is made again and again, and leaves the disk as it was |
| Archive.ResumedAfterMoves | scripts/trace-archive.ts:209-211 | stopped after any file move, planning and applying again reaches the same disk |
| Archive.ResumedAfterWritesIff | scripts/trace-archive.ts:213-234 | stopped after k of the index writes, planning and applying again reaches the same disk if and only if k lies between the writes of an index without lines to archive, or between the indexes with the same run lines still asked for, or at either end |
| Archive.ResumingFails | scripts/trace-archive.ts:213-234 | with one session line and its run line, no stop but before the first and after the last write reaches it |
| Archive.ResumingIsPlanned | scripts/trace-archive.ts:213-234 | at those stops there is a plan: after the first write the same one, after the second the empty one |
| Archive.RunArchivedIff | scripts/trace-archive.ts:108-121 | a run is archived if and only if a cold session names it and no line that stays in the index does, but for lines whose id is archived and no string |
| Archive.ScreenshotSharedIff | scripts/trace-archive.ts:148-151 | two ids can claim one screenshot if and only if one of them starts with the other and "-T" |
| Archive.FileMovesIff | scripts/trace-archive.ts:124-178 | a plan moves a file exactly when it is the trace or log of an archived id, a screenshot whose name starts with one and "-T", or the file of an archived run |
| Archive.DestinationIs | scripts/trace-archive.ts:124-178 | and it goes to the month in which the first cold line that claims it was started, under its own kind and name |
| Archive.IdsAre | scripts/trace-archive.ts:97-107 | the archived ids are those, as strings, of the lines started before nowMs - hotDays * 86,400,000 |
| Archive.HotFilesStayIff | scripts/trace-archive.ts:101-172 | of a hot session's trace, log, run and screenshots a plan moves exactly the screenshots that an archived id claims too |
| Archive.HotShotsStayIff | scripts/trace-archive.ts:148-151 | some screenshot name of a hot id is so claimed if and only if an archived id starts with the hot one and "-T" or the hot one with it and "-T" |
| Archive.HotScreenshotMoves | scripts/trace-archive.ts:148-157 | archiving session s moves the first screenshot of the hot session s-T2 |
| Overlay.OverlayFiles | scripts/obs/duck-read.ts:111-119 | the loop over live turn files overlays the younger ones and fails on an invalid one |
| Overlay.ReadSessionData | scripts/obs/duck-read.ts:75-126 | the read with its header replacement, its limits and its errors, a header or turn of another session among them |
| Overlay.PutAllMembers | scripts/obs/duck-read.ts:108-118 | of several entries for a turn the last one put stays |
| Overlay.OverlaidMembers | scripts/obs/duck-read.ts:108-118 | the map holds the younger files' entries and the kept rows of other turns |
| Overlay.ReadFailsIff | scripts/obs/duck-read.ts:75-126 | the read fails exactly beyond 5000 rows or turns, or over a young header or turn file of another session |
| Overlay.HeadersRead | scripts/obs/duck-read.ts:75-106 | without a live directory the snapshot is read as it is, but for rows without a header; with one, a young header takes the snapshot's place |
| Overlay.OverlayIsLiveIff | scripts/obs/duck-read.ts:78-125 | one entry per turn, ascending, equal to the live directory's if and only if, with the header in the snapshot, no older file needed repair, and without it, no file is older |
| Overlay.HeaderIsLiveIff | scripts/obs/duck-read.ts:97-103 | the header comes back as the live one if and only if that is younger than the snapshot or needed no repair |
| Overlay.HeaderlessTurnIsLost | scripts/obs/duck-read.ts:88-94 | a captured turn is not read, for want of the header |
| Overlay.RepairedTurnDiffers | scripts/obs/duck.ts:137-159 | an older turn with a lone surrogate comes back repaired |
| Utf16.WellFormedIffNoneLone | scripts/obs/duck.ts:119 | the expression matches nothing exactly in well-formed strings (section 3.9 of the Unicode Standard) |
| Utf16.PairIff | scripts/obs/duck.ts:119 | a high with a low surrogate is exactly the two units of a code point from U+10000 to U+10FFFF |
| Utf16.RepairIs | scripts/obs/duck.ts:119-123 | each lone unit becomes U+FFFD and every other stays |
| Utf16.RepairIdentityIff | scripts/obs/duck.ts:119-123 | the repair leaves a string alone if and only if it is well formed |
| Utf16.RepairWellFormed | scripts/obs/duck.ts:119-123 | repaired strings are well formed, so the repair is idempotent |
| Utf16.RepairedJson | scripts/obs/duck.ts:121-126 | in a document every string value is repaired and keys are not |
| Utf16.StringByString | scripts/obs/duck.ts:121-126 | a document's string values are repaired one by one, and its keys and structure stay |
| RunExport.StageFile | scripts/obs/duck.ts:198-223 | a file's lines go to the stages of their days with ordinal, type and role, or the first wrong run id fails the export; and whether a string was repaired |
| RunExport.ExportRunEvents | scripts/obs/duck.ts:198-226 | all files in order, with the number of rows and of files that needed repair |
| RunExport.ScanAll | scripts/obs/duck.ts:215-222 | splitting by day neither loses nor invents a row |
| RunExport.RowsSay | scripts/obs/duck.ts:198-223 | every staged row stands for a line: it names the file's run and the line's number, and its columns say what the repaired event says |
| RunExport.ExportReadBack | scripts/obs/duck-read.ts:43-54 | reading an exported run back gives its non-blank lines in file order, repaired, or is refused beyond 5000 |
| RunExport.ReadBackUnknown | scripts/obs/duck-read.ts:43-54 | a run without a file reads back empty |
| RunExport.LiveReadAgreesIff | scripts/obs/duck-read.ts:29-54 | a run file as young as the snapshot, read live, gives what the partitions give if and only if it is beyond the limit or needed no repair |
| RunExport.LiveReadFailsIff | scripts/obs/duck-read.ts:29-39 | a live file is refused exactly beyond 5000 events or with an event of another run |
| RunExport.LiveReadDiffers | scripts/obs/duck-read.ts:29-39 | one event with a lone surrogate reads differently |
| RfcDecision.LinesReadBack | scripts/rfc-decision.ts:148 | joining lines and splitting them gives the lines |
| RfcDecision.SpacesAre | scripts/rfc-decision.ts:123 | the code points of white space, one by one |
| RfcDecision.TrimIs | scripts/rfc-decision.ts:123 | trimming takes exactly the white space off both ends |
| RfcDecision.OpeningIff | scripts/rfc-decision.ts:123-132 | a fence opens where a trimmed line begins with exactly n, at least three, back quotes or tildes |
| RfcDecision.ClosesIff | scripts/rfc-decision.ts:134-139 | and closes where one is at least as many of the same marker and white space |
| RfcDecision.RemoveFencedCode | scripts/rfc-decision.ts:119-142 | the fence loop blanks opening, content and closing lines |
| RfcDecision.UnfencedTwice | scripts/rfc-decision.ts:119-142 | removing fences keeps the line count, shows each line whole or blank, and is idempotent |
| RfcDecision.FencedBlockIgnored | scripts/rfc-decision.ts:119-170 | a closed fenced block of any content, anywhere outside a fence, can be left out of a document without changing its validation |
| RfcDecision.ShownWithBlank | scripts/rfc-decision.ts:144-318 | a blank line anywhere among the lines left by fence removal changes nothing |
| RfcDecision.BlanksIgnored | scripts/rfc-decision.ts:144-318 | any number of blank lines together change nothing |
| RfcDecision.DecisionIff | scripts/rfc-decision.ts:149-153 | which lines are Decision headings |
| RfcDecision.HeadingIff | scripts/rfc-decision.ts:163-165 | which lines end the section |
| RfcDecision.SectionIs | scripts/rfc-decision.ts:149-170 | whatever stands before the one Decision heading, and from the next heading on, the validation is that of the lines between |
| RfcDecision.OnlyTheSectionCounts | scripts/rfc-decision.ts:144-170 | the same of a document, with fenced code anywhere outside the section |
| RfcDecision.NoSection | scripts/rfc-decision.ts:155-157 | no Decision heading is one error and no stamp |
| RfcDecision.TwoSections | scripts/rfc-decision.ts:158-160 | two of them are another |
| RfcDecision.BulletIff | scripts/rfc-decision.ts:90-94 | which lines read as a bullet with a given text |
| RfcDecision.ContinuesIff | scripts/rfc-decision.ts:95-98 | which lines continue a bullet |
| RfcDecision.PlaceholderIff | scripts/rfc-decision.ts:57-71 | an item is a placeholder exactly when it is a word of the list, in any case, with a full stop, a semicolon or neither after it, or dots alone |
| RfcDecision.CollectItems | scripts/rfc-decision.ts:84-102 | the loop over bullets, continuation lines and other lines |
| RfcDecision.ReadBulletItems | scripts/rfc-decision.ts:77-117 | a field's items without placeholders, and its errors in order |
| RfcDecision.ValidateRfcDecisionMarkdown | scripts/rfc-decision.ts:144-318 | the validation, with every error in order |
| RfcDecision.StampIff | scripts/rfc-decision.ts:144-317 | a document gives a given stamp if and only if it has one Decision section with one status line, then each label once and in canonical order, whose status names the stamp's and whose fields hold its items, bullet by bullet, and the stamp is consistent |
| RfcDecision.ErrorIff | scripts/rfc-decision.ts:172-302 | each error of a section is reported if and only if what it says is so: how many status lines and labels there are, which stand out of order, what a field's lines hold, and how status, edits, evidence and action fit |
| RfcDecision.LabelIff | scripts/rfc-decision.ts:193-199 | the six labels, in any case |
| RfcDecision.StatusIff | scripts/rfc-decision.ts:186-188 | the five statuses, in any case |
| RfcDecision.ActionIff | scripts/rfc-decision.ts:272-276 | the four actions, in any case, with a full stop or semicolon after them or not |
| RfcDecision.FieldIsBetween | scripts/rfc-decision.ts:229-240 | a field's lines are those between its label and the next label of a later field |
| RfcDecision.ActionFitsTable | scripts/rfc-decision.ts:284-302 | which next actions fit each status |
| RfcDecision.StampConsistent | scripts/rfc-decision.ts:250-317 | a returned stamp comes without errors, its action fits its status, its edits and evidence are items other than none where they must be, and no item is a placeholder |
| RfcDecision.StampMissingIff | scripts/rfc-decision.ts:172-191 | without errors the stamp is missing if and only if the status text is blank |
| RfcDecision.BlankStatusUnreported | scripts/rfc-decision.ts:172-191 | a complete section whose status line has only white space after the colon gives no error and no stamp |
| RfcDecision.BlankStatusHappens | scripts/rfc-decision.ts:172-191 | one such document |
| RfcDecision.BareStatusIsReported | scripts/rfc-decision.ts:172-183 | a section whose status lines all end at the colon is reported to lack one |
| RfcDecision.PrintReadsBack | scripts/rfc-decision.ts:144-318 | printing any well-formed stamp in canonical layout and validating the text returns no error and the same stamp |
| RfcDecision.PrintsBackIff | scripts/rfc-decision.ts:144-318 | of all consistent stamps with items of one line, exactly those whose items fit on bullet lines print and read back |
| RfcDecision.ReturnedStampPrintsIff | scripts/rfc-decision.ts:306-317 | a returned stamp prints and reads back as itself if and only if each item fits on a bullet line: not blank, trimmed, no line separator |
| RfcDecision.BlankBulletIff | scripts/rfc-decision.ts:89-93 | which bullet lines read as a blank item |
| RfcDecision.BlankItemIff | scripts/rfc-decision.ts:84-102 | an item is blank if and only if a bullet is and no line continues it before the next bullet |
| RfcDecision.ReturnedBlankIff | scripts/rfc-decision.ts:84-113 | a field of a returned stamp has a blank item if and only if its section has such a bullet |
| RfcDecision.BlankEvidenceAccepted | scripts/rfc-decision.ts:89-113 | an approved RFC whose required evidence is one blank item gives a stamp and no error |

## Left out

- HTTP routes, CORS, the MCP and browser drivers, process spawning, command lines and console output.
- The SQL text and what SQLite and DuckDB do with it; a query is the list of rows it selects.
- JSON parsing and printing, `Date`, hashing, and `localeCompare`; ids have one strict order.
- Zip: reading the files and their names from disk; names and contents are byte strings.
- Session cache: the body of the load and the computation of the source time, which are events.
- Paging: the text of cursors, rows with no start time, and a raw record that overrides its columns.
- Leases: two paths that resolve to one file; a path is its resolved form.
- Insights: the final sort of rows and facets, the limits on facets and runs, rates and averages, and the fields of a run row derived from its sessions and verdict.
- Archive: white space around an archived index's first and last line, which the program trims; an archive root or live path with unusual names; the sorted order of the ids in a plan.
- Run export: the day of an event, computed from its time, is part of the event; the errors for an unsafe run id, an old snapshot format and output that exists already.
- RfcDecision: letters outside A to Z in case-insensitive comparisons.

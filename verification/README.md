# Moesekai server: verified models

A Dafny model of the protocols and checks of the Moesekai lyrics server that
carry real invariants, with proofs about whole runs. Each module follows one
source component:

| module | component |
|---|---|
| RoomNames, CollabPersistence, CollabOutcomes | collaboration tables, their transactions, and exactly when each succeeds |
| CollabHistory, CollabBumps | runs of those transactions, and what a bump forgets |
| CollabCheckpoint, CollabCheckpointCalls, CollabCheckpointService | the checkpoint protocol under interference, what a call of it is, and the call with others acting between its stages |
| CollabSaves, CollabQuietCheckpoint | exactly when a save commits, and what an undisturbed checkpoint does |
| CollabResidency | what a resident room's live document has to do with the tables |
| EditorGate, EditorGateObject | the editor/producer gate as a step machine and as an object |
| CollabTickets, CollabAdmission, CollabTicketService | issuing and admission as interleaved locked sections, what they guarantee, and the service's methods |
| CollabBearers | what lies behind every connection, and every ticket operation told by its events |
| CollabRegistries | the registries of open connections |
| SharedDocument | seeding the shared document from JSON and stripping it back |
| SeedPublication, SeedRecovery, SeedPublisher | crash-safe publication of a migrated database, and what a failed run leaves behind |
| BackupBytes, BackupEnvelope, BackupStream | the encrypted backup envelope and its streaming loops |
| AttemptTable, AttemptHistory, AttemptLimiter | the attempt limiter as a plain table, as a history of calls and answers, and as map plus heap |
| ImportGrants, ImportGrantHistory, ImportGrantService | import grants under concurrent saves, what lies behind every claim, and the save handler |
| Accounts, AccountRecords, AccountService | accounts and tokens over runs, what each operation stores and answers, and the operations on the table |
| SeedBundle | the exact-cover check of the embedded seed |
| JsonPreflight, JsonDecoder, NewlineWriter | the token preflight and the newline-trimming writer |
| Settings, SettingsTable, SettingsStore | setting spellings, table and cache, and the settings object |
| PercentPath | repeated percent decoding of retired paths |
| Decimal, Wrappers, Sets | printed integers, optional values and results, finite sets |

Code that updates state in place is written as classes and loops whose
contracts equate the new state with a specification function; theorems about
whole runs are stated over those functions.

## What is assumed

SQLite transactions are atomic and serialised. A CRDT update is the set of its
operations with an encoded length; merging is union, and closing a room flushes
its pending updates before evicting it. SHA-256 is injective, AES-GCM opens
exactly what it sealed, random tokens and ids are new, AUTOINCREMENT ids are
not reused. A password opens exactly the hash that bcrypt made of it. A failed
directory sync leaves its operations pending, and a crash keeps any subset of
pending operations. Clocks are arbitrary: the time of every event is a parameter.

## Where the code does not do what its documentation suggests

- Bumping epochs keeps the snapshot. An operation accepted under the retired
  epoch is in the room afterwards if and only if that epoch began with it or a
  compaction or checkpoint of the room moved it in before the bump
  (`CollabBumps.BumpKeepsExactlyTheMoved`), and every later load of the new
  epoch returns those and what the new epoch brings, nothing else
  (`CollabBumps.LaterLoadsForgetTheRest`). Two runs from an empty database show
  both fates of one update (`CollabBumps.BumpMayKeepARetiredUpdate`). Reseeding
  and replacing start from their seed alone.
- A connection can be counted in a room whose epoch is already over: replacing
  a document moves the epoch in its own transaction, without the operation
  mutex (`CollabAdmission.StaleAdmission` is a whole run that does it). From the
  moment the room is read under the slot to the moment the connection is
  counted, the room stays current if and only if no such transaction of the
  song commits in between (`CollabAdmission.CurrentAtTrackExactlyUnfenced`). A
  replacement finds these connections too and closes them
  (`CollabAdmission.ReplacementFindsEveryRoom`).
- The check for a retiring room in authorize never refuses anyone: whoever
  retires a room holds the operation mutex until it is done
  (`CollabAdmission.NothingRetiresDuringAnAdmission`).
- A load is read before its room becomes resident. What the room's log or a
  checkpoint gains in between is missing from the live document, and exactly
  that (`CollabResidency.AdmittedCopyMissesWhatWasBrought`).
- Replacing a song at the int64 maximum wraps and starts again at epoch 1, so
  the epoch falls there and nowhere else
  (`CollabHistory.ReplaceLowersEpochExactlyAtMaximum`). Runs are therefore
  stated for epochs below the maximum.
- The gate's generation bound is never the one that matters: the revision runs
  out first, at generation 2^52-1 (`EditorGate.ExhaustedExactly`).
- A limit below one still lets a key's first attempt through
  (`AttemptTable.LimitIsKeptExactlyFromOne`).
- `untrack` called for a pair that was not tracked breaks the agreement of the
  two registries unless the room had no connection
  (`CollabRegistries.UntrackKeepsSumExactlyWhenTracked`); the server never does so.
- Legacy documents of the embedded seed are not checked for duplicates; their
  cover is exact only because exactly one is expected
  (`SeedBundle.LegacyCoverItems`).
- A document with its own `schemaVersion` field would overwrite the room's
  (`SharedDocument.DocumentRoundTrip` has that as one of its three conditions).
- A backup source announced as empty is not read at all. A successful
  encryption vouches for the announced size, for every source, if and only if
  that size is above zero (`BackupStream.SizeIsCheckedExactlyAboveZero`); a
  source of one byte announced as none succeeds as the empty payload
  (`BackupStream.EmptySizeHidesBytes`).
- The fail-closed invalidations of import grants find nothing to delete in any
  reachable state (`ImportGrants.InvalidationFindsNothing`).

## Model

| member | source | states |
|---|---|---|
| RoomNames.ParseExactlyRoomNames | server/internal/collab/persistence.go:40-58 | a string parses to a room identity exactly when it is the printed name of that valid identity, for every string |
| RoomNames.ParseOfRoomName | server/internal/collab/persistence.go:40-58 | printing then parsing a valid room identity gives it back |
| RoomNames.ParseOfAnyRoomName | server/internal/collab/persistence.go:40-58 | an identity out of range has a name that does not parse |
| RoomNames.RoomNameOfParsed | server/internal/collab/persistence.go:40-58 | a parsed room name prints back unchanged, so no two spellings name one room |
| Decimal.AtoiOfItoa | server/internal/config/config.go:381-387 | reading back a printed 64-bit integer gives that integer |
| CollabPersistence.SqlitePersistence.LoadDoc | server/internal/collab/persistence.go:64-127 | the load that the code performs is the specified one for every error path: unknown room, retired epoch, corrupt row, oversized merge |
| CollabPersistence.SqlitePersistence.StoreUpdateContext | server/internal/collab/persistence.go:158-207 | tables and result after a store; a refused store leaves all three tables alone |
| CollabPersistence.SqlitePersistence.CompactRoom | server/internal/collab/persistence.go:209-280 | tables and result after a compaction, including every failure that must change nothing |
| CollabPersistence.SqlitePersistence.EnsureRoomRow | server/internal/collab/persistence.go:282-347 | a baseline comes back if and only if the id is positive, the authoritative document exists, and the song's row, there before or inserted from a non-empty seed, carries that document's fingerprint and revision; it is then that row's own; drift comes back exactly when an existing row disagrees |
| CollabPersistence.SqlitePersistence.BumpAllEpochs | server/internal/collab/persistence.go:657-681 | every row's epoch grows by one and the names returned are those of the old epochs, one for each row, in whatever order the rows come |
| CollabPersistence.SqlitePersistence.CommitCheckpointInOwnTx | server/internal/collab/persistence.go:377-399 | a checkpoint in its own transaction writes all three tables or none |
| CollabPersistence.SqlitePersistence.ReplaceFromAuthoritative | server/internal/collab/persistence.go:605-655 | the replaced row, the emptied log and the pair of room names, with the 64-bit wrap of the epoch |
| CollabPersistence.AppendLog | server/internal/collab/persistence.go:95-126 | the row loop yields the snapshot followed by every logged update exactly when every row is intact |
| CollabPersistence.CommitCheckpointTx | server/internal/collab/persistence.go:401-508 | the loop's merged updates and cutoff give the specified rows; a partly written transaction is never reported as success |
| CollabPersistence.ReseedCheckpointTx | server/internal/collab/persistence.go:536-582 | a reseed moves the row to the next epoch, drops the song's log and appends one ledger row, or fails |
| CollabOutcomes.EnsureSucceedsExactly | server/internal/collab/persistence.go:282-347 | ensureRoom succeeds if and only if the song's row, old or inserted, carries the authoritative document's fingerprint and revision; the baseline is that row's; an existing row stays as it is |
| CollabOutcomes.EnsureRefusesExactly | server/internal/collab/persistence.go:282-332 | each refusal has its own condition: drift exactly when an existing row disagrees with the document |
| CollabOutcomes.ReplacementEndsDrift | server/internal/collab/persistence.go:605-655 | after a successful replacement with the authoritative document ensureRoom succeeds, at that document's revision and fingerprint in the new epoch |
| CollabOutcomes.EnsureIsStable | server/internal/collab/persistence.go:282-332 | a second look without a change in between gives the same baseline and changes nothing |
| CollabOutcomes.LoadSucceedsExactly | server/internal/collab/persistence.go:64-127 | a load succeeds if and only if the room is its song's current one and snapshot and every logged row are readable and within bounds together |
| CollabOutcomes.StoreSucceedsExactly | server/internal/collab/persistence.go:158-207 | a store is accepted if and only if the update is within bounds and the room current; it appends that one row above all others |
| CollabOutcomes.CompactSucceedsExactly | server/internal/collab/persistence.go:209-280 | a compaction succeeds exactly on a current room within bounds, and one that merges leaves a readable snapshot and an empty log |
| CollabOutcomes.CommitSucceedsExactly | server/internal/collab/persistence.go:401-508 | a checkpoint commits if and only if the row still carries the baseline's epoch, revision and fingerprint and everything is within bounds; the row then carries the new revision and fingerprint |
| CollabOutcomes.ReseedSucceedsExactly | server/internal/collab/persistence.go:536-582 | the same for the reseed of a first save, which enters the next epoch with the seed as snapshot |
| CollabOutcomes.ReplaceSucceedsExactly | server/internal/collab/persistence.go:605-655 | a replacement asks only for a document and a seed, and starts the next epoch below the maximum |
| CollabHistory.RunKeepsInvariant | server/internal/collab/persistence.go:158-681 | over every interleaving: logs ordered and intact, no log row above its song's epoch, contents equal to what was promised, ledger chained and ending at the row |
| CollabHistory.LoadReturnsEverythingAccepted | server/internal/collab/persistence.go:64-127 | after any run, a load of the current room returns exactly what the epoch began with joined with every update accepted since, and succeeds exactly when the sizes allow |
| CollabHistory.CompactKeepsContents | server/internal/collab/persistence.go:209-280 | compacting never changes what a load returns |
| CollabHistory.StoreAddsItsUpdate | server/internal/collab/persistence.go:158-207 | a store adds exactly its own operations to the room |
| CollabHistory.CommitAddsItsUpdate | server/internal/collab/persistence.go:401-508 | a checkpoint commit adds exactly its own operations, whatever was stored or compacted since its update was encoded |
| CollabHistory.CutoffCoversTheLog | server/internal/collab/persistence.go:440-504 | deleting up to the highest sequence seen removes exactly the rows that were merged |
| CollabHistory.EpochNeverFalls | server/internal/collab/persistence.go:536-681 | no admissible transaction lowers a song's epoch or removes its row |
| CollabHistory.EpochsOnlyGrow | server/internal/collab/persistence.go:536-681 | over whole runs a song's epoch never decreases |
| CollabHistory.ReplaceLowersEpochExactlyAtMaximum | server/internal/collab/persistence.go:630-633 | a replacement lowers the epoch if and only if it stood at the int64 maximum |
| CollabHistory.RetiredRoomStaysShut | server/internal/collab/persistence.go:64-207 | once an epoch is over, no later run lets anyone store into, compact, load or checkpoint its room |
| CollabHistory.ReseedStartsFromTheSeed | server/internal/collab/persistence.go:536-582 | the first load after a reseed holds the seed alone |
| CollabHistory.ReplaceStartsFromTheSeed | server/internal/collab/persistence.go:605-655 | the first load after a replacement holds the seed alone |
| CollabHistory.BumpStartsFromTheSnapshot | server/internal/collab/persistence.go:657-681 | the first load after a bump holds the snapshot and nothing from the log |
| CollabBumps.PromisesAreHistory | server/internal/collab/persistence.go:158-681 | over every run from an empty database: what an epoch has accepted and what has been moved into its snapshot are exactly what the events of that epoch stored, and what a compaction or checkpoint came after |
| CollabBumps.BumpKeepsExactlyTheMoved | server/internal/collab/persistence.go:657-681 | an operation is in the room after a bump if and only if the old epoch began with it or an event of that epoch brought it and a compaction or checkpoint moved it in before the bump |
| CollabBumps.LaterLoadsForgetTheRest | server/internal/collab/persistence.go:64-127 | every later load of the new epoch returns what the bump kept and what the new epoch's own events brought, nothing else |
| CollabBumps.BaseStays | server/internal/collab/persistence.go:158-280 | what an epoch began with stays the same while the epoch lasts |
| CollabBumps.BumpMayKeepARetiredUpdate | server/internal/collab/persistence.go:657-681 | two runs from an empty database: a bump forgets a stored update, and keeps it when the log was compacted first |
| CollabHistory.LedgerRowsFormChains | server/internal/collab/persistence.go:584-603 | consecutive ledger rows of one epoch chain: each base pair is the previous new pair |
| CollabHistory.LedgerEndsAtTheRow | server/internal/collab/persistence.go:401-508 | the newest ledger row of the current epoch carries the document row's revision and fingerprint |
| CollabHistory.RefusedChangesNothing | server/internal/collab/persistence.go:158-681 | a refused transaction leaves every table as it was |
| CollabCheckpoint.RunKeepsInvariant | server/internal/collab/checkpoint.go:24-183 | over every interleaving of one checkpoint with peers, flushes, compactions, other saves and bumps: what peers wrote is durable or pending, a frozen room is empty of residents, the baseline stays true |
| CollabCheckpoint.SaveMovesBothOrNeither | server/internal/collab/checkpoint.go:94-165 | a save changes neither the lyrics nor the tables, or moves both so that row, ledger and authoritative document agree |
| CollabCheckpoint.FirstSaveMissesNothing | server/internal/collab/checkpoint.go:45-85 | a first save is made from everything the old room's peers ever wrote, and every later store into that room is refused |
| CollabCheckpoint.FrozenRoomHearsNothing | server/internal/collab/service.go:384-395 | while a first save holds its room frozen, no event adds anything to it |
| CollabCheckpoint.OnlyResidentRoomsHear | server/internal/collab/service.go:384-417 | a room that is not resident receives nothing, whatever happens |
| CollabCheckpoint.LaterSaveKeepsTheRoom | server/internal/collab/checkpoint.go:134-180 | a checkpoint of a live room adds its document and envelope to what the room holds at commit time |
| CollabCheckpoint.FirstSaveIsLegacy | server/internal/collab/checkpoint.go:110-132 | a save from base revision zero is always a single-edition document, in every reachable state |
| CollabCheckpoint.NothingStaysRetiring | server/internal/collab/checkpoint.go:45-53 | whatever way a checkpoint ended, in every reachable state with none under way no room is marked |
| CollabSaves.SaveCommitsExactly | server/internal/collab/checkpoint.go:94-165 | in every reachable state a save commits if and only if the draft is valid and of the revision read earlier, the store still holds that revision and takes the draft, the kind is the baseline's, the row still stands as it was read, and there is room for what is written |
| CollabSaves.TransactionCommitsExactly | server/internal/collab/checkpoint.go:109-143 | once the store has taken the draft, the transaction commits if and only if kind, row and bounds are as asked |
| CollabSaves.SaveRefusesExactly | server/internal/collab/checkpoint.go:98-108 | each refusal of the draft and of the store has its own condition, a revision conflict exactly when the draft's revision is not the one read earlier |
| CollabSaves.FirstSaveRefusesExactly | server/internal/collab/persistence.go:536-582 | each refusal of a first save's room transaction has its own condition |
| CollabSaves.LaterSaveRefusesExactly | server/internal/collab/persistence.go:401-508 | and each refusal of a later save's |
| CollabSaves.SaveLeaves | server/internal/collab/checkpoint.go:109-165 | a save that commits leaves lyrics, row and the newest ledger entry at the chosen document |
| CollabSaves.SaveLeavesContents | server/internal/collab/checkpoint.go:109-165 | after a first save the room holds the seed alone, after a later one what it held by then and what the save wrote |
| CollabQuietCheckpoint.UndisturbedCheckpoint | server/internal/collab/checkpoint.go:24-182 | nine stages with nothing in between and everything within bounds succeed if and only if the row carries its lyrics, the draft is of that revision and valid and the store takes it; the answer is the chosen final document, with row, ledger and lyrics at it; otherwise nothing a save would move has moved and no document is answered |
| CollabQuietCheckpoint.FlushesAll | server/internal/collab/service.go:403-417 | closing a room within bounds stores everything pending, in order, and nothing but the room's log has grown |
| CollabQuietCheckpoint.LiveRoomAdoptsExactly | server/internal/collab/checkpoint.go:166-178 | whatever others did since the save, the live document takes the envelope if and only if a later save committed and wrote; nothing else in any room changes |
| CollabCheckpointService.Service.Baseline | server/internal/collab/persistence.go:349-367 | the row and the load under its room name, with every error |
| CollabCheckpointService.Service.CompareAuthority | server/internal/collab/checkpoint.go:31-43 | the checkpoint goes on exactly when the authoritative document has the baseline's fingerprint and revision |
| CollabCheckpointService.Service.CloseRetiredRoom | server/internal/collab/service.go:403-417 | pending updates are stored in order until none is left or one is refused; then the room is gone, or the checkpoint on its way out |
| CollabCheckpointService.Service.RebaseFrozen | server/internal/collab/checkpoint.go:56-63 | the second baseline of a first save, refused when the epoch or base revision moved |
| CollabCheckpointService.Service.ReadStored | server/internal/collab/checkpoint.go:65-83 | without a live document the stored one is taken, unless the row moved since |
| CollabCheckpointService.Service.CommitRoom | server/internal/collab/checkpoint.go:109-143 | reseed or commit inside the store's transaction; success exactly when the kind is the baseline's and the room's transaction succeeds |
| CollabCheckpointService.Service.SaveDraft | server/internal/collab/checkpoint.go:94-170 | in every reachable state it answers a document exactly when the conditions of CollabSaves.SaveCommitsExactly hold; a revision conflict or an immutable draft is answered exactly when that is so; lyrics, row, log and ledger move together or not at all |
| CollabCheckpointService.Service.Leave | server/internal/collab/checkpoint.go:171-182 | a live room adopts the stored envelope, and the mark of a first save is taken back |
| CollabCheckpointService.Service.Checkpoint | server/internal/collab/checkpoint.go:24-182 | a whole call, whatever others do before each stage, is a run of the protocol with exactly the nine stages; it answers a document exactly when its save was committed, and leaves no room marked; left alone and within bounds it succeeds if and only if row, draft and store are as they must be, and answers the chosen final document |
| CollabCheckpointCalls.UnansweredKeepsTheRows | server/internal/collab/checkpoint.go:24-170 | a stage whose save does not commit leaves the lyrics, the rows and the ledger alone |
| CollabResidency.LiveIsDurableOrPending | server/internal/collab/persistence.go:64-207 | in every reachable state a resident room of the current epoch holds only what is in the tables or pending |
| CollabResidency.ContentsAreBrought | server/internal/collab/persistence.go:158-508 | while a room stays current its contents are what they were and exactly what flushes and saves brought |
| CollabResidency.AdmittedCopyMissesWhatWasBrought | server/internal/collab/service.go:384-395 | a load that becomes resident is up to date if and only if nothing new was stored since it was read, and otherwise misses exactly that |
| EditorGate.RunKeepsInvariant | server/internal/editorgate/gate.go:111-238 | in every reachable state the counter relations, the handle count and the producer's exclusion hold |
| EditorGate.EditorsAndProducersExclude | server/internal/editorgate/gate.go:111-230 | editor count equals unreleased handles, no editor is admitted while a producer runs, at most one producer runs, and none holds while an editor does |
| EditorGate.ReleaseIsOneShot | server/internal/editorgate/gate.go:145-161 | a release gives back exactly one slot the first time and nothing ever after |
| EditorGate.Counters | server/internal/editorgate/gate.go:178-238 | revision is twice the generation minus one while running, completed generation trails by one while running, and both stay within 2^53-1 |
| EditorGate.ExhaustedExactly | server/internal/editorgate/gate.go:178-189 | a producer is refused for exhausted counters if and only if the idle gate has reached generation 2^52-1 |
| EditorGate.EditorAdmittedExactly | server/internal/editorgate/gate.go:111-127 | an ordinary editor is admitted if and only if its context is live and no producer runs, with a slot of its own and nothing else changed |
| EditorGate.ProducerBeginsExactly | server/internal/editorgate/gate.go:173-198 | a producer is announced if and only if the gate does not drain, none runs and the counters have room; editors are refused from then on, and it holds the gate at once exactly when no editor is in |
| EditorGate.CancelEndsTheWait | server/internal/editorgate/gate.go:196-218 | a context that ends before or during the wait ends it with its generation completed, except when the first look finds no editor: then the producer holds the gate, cancelled or not |
| EditorGate.DrainedForGood | server/internal/editorgate/gate.go:90-97 | draining leaves an admitted producer alone and no later run begins another |
| EditorGate.NoWakeIsLost | server/internal/editorgate/gate.go:200-218 | in every reachable state a parked producer still has editors to wait for and a context that can still wake it, or a broadcast is on its way to it |
| EditorGate.CancelledWaitCompletes | server/internal/editorgate/gate.go:206-216 | a wait whose context is done completes the generation it published and returns cancelled at its next wake-up, whatever the others do before it |
| EditorGate.LastEditorAdmitsTheProducer | server/internal/editorgate/gate.go:145-161 | the wake-up after the last editor's release admits a wait that is not cancelled |
| EditorGate.WaitingSurvives | server/internal/editorgate/gate.go:197-218 | nothing other callers do ends the wait or changes the published status |
| EditorGate.SameRevisionIsQuiet | server/internal/editorgate/gate.go:173-238 | two statuses share a revision if and only if no producer began or finished in between |
| EditorGate.StatusMovesWithItsRevision | server/internal/editorgate/gate.go:173-238 | the status changes exactly when the revision grows by one |
| EditorGate.StrictEditorIsFresh | server/internal/editorgate/gate.go:131-143 | an editor presenting an earlier status is admitted if and only if that status was idle and nothing began or finished since |
| EditorGateObject.GateObject.BeginEditorContext | server/internal/editorgate/gate.go:111-127 | cancelled, refused beside a running producer, or admitted with a new slot, exactly so; and the new state |
| EditorGateObject.GateObject.BeginStrictEditor | server/internal/editorgate/gate.go:131-143 | admission and new state of a strict editor, with the status it was compared against |
| EditorGateObject.GateObject.Release | server/internal/editorgate/gate.go:145-161 | a release closure's effect; its panic on a zero count cannot happen |
| EditorGateObject.GateObject.FinishProducerLocked | server/internal/editorgate/gate.go:232-238 | the status a finished producer leaves |
| EditorGateObject.GateObject.ReleaseProducerOnce | server/internal/editorgate/gate.go:220-230 | the producer's release finishes at most once |
| EditorGateObject.GateObject.BeginProducerContext | server/internal/editorgate/gate.go:173-230 | a whole call, whatever others do between the announcement and the first look and before every wake-up: refused without a trace, each refusal exactly for its reason; admitted with no editor inside, and at once when none was; or cancelled with its generation completed |
| EditorGateObject.GateObject.AwaitEditors | server/internal/editorgate/gate.go:200-218 | the condition-variable loop, from the first look at the editor count, is a run of the gate and keeps its invariant through every wake-up |
| CollabTickets.RunKeepsInvariant | server/internal/collab/service.go:141-359 | over every interleaving of the locked sections of issues, admissions, maintenance, fences, restores and gate calls: each drawn ticket is in one place, grants name epochs their songs have had and statuses the gate has had, every request has a slot of its own, and both registries count the connections |
| CollabAdmission.TicketsAdmitOnce | server/internal/collab/service.go:212-284 | over every run, however requests that present it are interleaved, a ticket admits at most one connection |
| CollabAdmission.CurrentAtTrackExactlyUnfenced | server/internal/collab/service.go:270-281 | the room read under the slot is still the song's current one when the connection is counted if and only if no document replacement of the song committed in between |
| CollabAdmission.StaleAdmission | server/internal/store/lyrics_document.go:1034-1044 | a run from a new server to a connection in a room whose epoch is over, every check passed |
| CollabAdmission.AdmittedSinceIsCurrent | server/internal/collab/service.go:243-283 | connections that took their slot after a moment at which no admission held the mutex are to the song's current room for as long as its epoch stands still |
| CollabAdmission.ReplacementFindsEveryRoom | server/internal/collab/service.go:419-465 | a replacement finds the room of every connection of its song, stale ones too |
| CollabAdmission.EpochsOnlyGrow | server/internal/store/lyrics_document.go:1034-1044 | no step lowers the epoch of a song or takes its row away |
| CollabAdmission.SlotIsStrict | server/internal/collab/service.go:255-263 | the slot is taken exactly under the status the ticket was issued for, idle and unchanged |
| CollabAdmission.EverySlotHasItsRequest | server/internal/collab/service.go:258-283 | a slot an admission took and that is still held belongs to the admission under way or to one open connection |
| CollabAdmission.NoProducerHoldsBesideASlot | server/internal/collab/service.go:258-283 | from the slot to the connection no producer holds the gate, whatever runs in between |
| CollabAdmission.NothingRetiresDuringAnAdmission | server/internal/collab/service.go:243-250 | no room is retiring while an admission holds the operation mutex |
| CollabAdmission.IssuedCurrentExactlyUnmoved | server/internal/collab/service.go:141-202 | the room a ticket is issued for was current when its row was read, and still is at insertion if and only if neither a replacement nor a restore moved the epoch in between |
| CollabAdmission.NoProducerBetween | server/internal/collab/service.go:255-263 | no producer began or finished between the status a ticket was issued under and the slot its request takes, whatever ran in between |
| CollabAdmission.RefusalGivesBackItsSlot | server/internal/collab/service.go:243-273 | a section that refuses an admission ends it, gives back exactly the slot it took, and leaves its ticket spent |
| CollabAdmission.HangupReleasesOneSlot | server/internal/collab/service.go:297-308 | the end of a connection gives back exactly its own slot, then its counts |
| CollabAdmission.RegistriesAgree | server/internal/collab/service.go:329-359 | over every run active[room] is the sum over all users, and both registries count the connections |
| CollabAdmission.ListedExactlyWhileConnected | server/internal/collab/service.go:329-359 | over every run a room, a user, and a room under a user are listed if and only if a connection counted there has not been forgotten |
| CollabBearers.EveryBearerWasVerifiedAgain | server/internal/collab/service.go:141-283 | behind every connection of every run, told by its events: its ticket was issued to a caller whose bearer was good for exactly the caller's claims; it was presented alone, on its song's path and before its end; and under the very hold of the mutex that counted the connection, after the ticket was consumed, its bearer was verified again and found good for exactly those claims |
| CollabBearers.OnlyTheSameClaimsGoOn | server/internal/collab/service.go:251-254 | a request goes on if and only if its bearer is found good for the ticket's claims; any other answer gives up the mutex, changes nothing else and leaves the ticket spent in every later run |
| CollabBearers.MispresentedIsSpent | server/internal/collab/service.go:213-242 | a ticket presented late, on another song's path, beside another value or in a malformed query admits nothing in any later run |
| CollabBearers.PresentedExactly | server/internal/collab/service.go:213-242 | a ticket waits for the mutex if and only if it is presented alone, well-formed, without blanks, on its song's path and in time; presented in any way it is a ticket no more |
| CollabBearers.HandedOutExactly | server/internal/collab/service.go:178-202 | handing out removes exactly the expired tickets and succeeds if and only if fewer than 1024 are left; the ticket carries the caller's claims and bearer, the epoch read, the accepted status and 45 seconds |
| CollabBearers.WithdrawnExactly | server/internal/collab/service.go:470-489 | retiring a room, replacing a song or retiring all leaves the tickets concerned spent in every later run; any other ticket stays unless presented or expired |
| CollabRegistries.UntrackKeepsSumExactlyWhenTracked | server/internal/collab/service.go:341-359 | on its own, untrack keeps that sum law if and only if the pair was tracked or the room had no connection |
| CollabTicketService.Service.TrackConnection | server/internal/collab/service.go:329-339 | both registries after a connection is counted |
| CollabTicketService.Service.UntrackConnection | server/internal/collab/service.go:341-359 | both registries after a connection is discounted, empty entries removed |
| CollabTicketService.Service.BeginRetiringRoom | server/internal/collab/service.go:480-489 | retiring marks the room and drops the song's tickets |
| CollabTicketService.Service.FindRow | server/internal/collab/service.go:164-177 | the row a ticket is issued against: read, replaced on drift, tickets cleared, read again, with others acting before each step; left alone it is found exactly when the reads and the replacement succeed, at the epoch read or begun |
| CollabTicketService.Service.Issue | server/internal/collab/service.go:141-202 | a whole issue, whatever others do before each of its sections, is a run of the model; a grant is in the map with the draft's claims and idle status; left alone it is granted if and only if the bearer is the caller's, the one accepted status is idle and still the gate's, the row is found and there is room |
| CollabTicketService.Service.ConsumeTicket | server/internal/collab/service.go:213-242 | the loop under the ticket lock consumes every named ticket and goes on with one only when it stood alone and the checks without a lock pass |
| CollabTicketService.Service.TakeStrictSlot | server/internal/collab/service.go:258-263 | the strict slot and the comparison after it; a slot under another status is kept by nobody |
| CollabTicketService.Service.AdmitUnderSlot | server/internal/collab/service.go:258-283 | from the slot on, with others acting: the row is read again, and the deferred release gives the slot back unless the connection is counted; left alone it is counted exactly when status and room still stand |
| CollabTicketService.Service.Authorize | server/internal/collab/service.go:212-284 | a whole authorization, from the consumed ticket through the wait for the mutex to the answer, with others acting before every section, is a run of the model; it is admitted only if the second verification gave exactly the ticket's claims; left alone it is admitted if and only if the ticket is presented properly, the bearer, the status and the room are still those it was issued for |
| CollabTicketService.Service.HangUpConnection | server/internal/collab/service.go:302-304 | the connection's release closure runs |
| CollabTicketService.Service.ForgetConnectionAt | server/internal/collab/service.go:305-307 | the connection is discounted from both registries |
| SharedDocument.DocumentRoundTrip | server/internal/collab/document.go:64-195 | seeding a document and materialising it gives it back if and only if it is null-free, has no schemaVersion field and every segments or ruby array holds only objects without reserved keys |
| SharedDocument.NestedRoundTripsExactlyWhenClean | server/internal/collab/document.go:94-129 | for any JSON tree under any key, seeding then walking succeeds with the same tree if and only if its structured arrays are clean |
| SharedDocument.StructuredArrayRoundTrips | server/internal/collab/document.go:102-125 | one structured array round-trips if and only if each item is an unreserved object that does |
| SharedDocument.SeedIdsDiffer | server/internal/collab/document.go:102-112 | ids given to two items of one array never collide |
| SharedDocument.RootRoundTrips | server/internal/collab/document.go:64-82 | the same if and only if at the root, under the lyrics path |
| SharedDocument.ScanDecides | server/internal/collab/document.go:243-298 | scanning items one by one and the two checks after the loop accept exactly arrays of objects with unique ids, no mix of legacy and identified items, and one generation per origin |
| SharedDocument.Walk | server/internal/collab/document.go:226-301 | the recursive walk succeeds exactly on acceptable trees and leaves the stripped tree |
| SharedDocument.WalkItems | server/internal/collab/document.go:243-298 | the loop over a structured array, with both checks after it |
| SharedDocument.CheckItem | server/internal/collab/document.go:248-283 | one item's checks and bookkeeping in the code's order |
| SharedDocument.WalkMembers | server/internal/collab/document.go:228-233 | an object's members in any order |
| SharedDocument.FillNested | server/internal/collab/document.go:94-129 | filling containers member by member and item by item gives the specified tree of containers |
| SharedDocument.MaterializeDocument | server/internal/collab/document.go:149-175 | schema version, walk and null check in order; nothing is returned when any refuses |
| SeedPublication.RunKeepsInvariant | server/cmd/migrate/main.go:70-227 | over every run of steps, crashes, failures and foreign files: every possible binding of the target is a verified and synced database or foreign, and what the server accepts is settled on disk |
| SeedPublication.TargetIsAlwaysVerified | server/cmd/migrate/main.go:167-222 | at every moment, and after a crash that keeps any subset of the pending directory changes, the target name is bound only to a verified and synced database or another program's file |
| SeedPublication.AcceptedTargetIsDurable | server/seed.go:20-28 | whenever a published target is visible without its marker, a crash at that moment leaves the same verified file under the name |
| SeedPublication.ExistingTargetStays | server/cmd/migrate/main.go:71-91 | without a crash a target that is there while no run is past its check is never replaced or removed, and no run reports success beside it |
| SeedPublication.StepKeepsTarget | server/cmd/migrate/main.go:195-212 | in every reachable state each call, failure or other program's step leaves a visible target bound to the same unchanged file, except the one step in which a run takes back its own |
| SeedPublication.ForeignTargetStays | server/cmd/migrate/main.go:195-202 | another program's target, whenever it appears, keeps its binding and its file through every crash-free continuation of every run |
| SeedPublication.SettledForeignStays | server/cmd/migrate/main.go:195-202 | once settled, another program's target stays through crashes as well |
| SeedPublication.TargetKeepsItsBinding | server/cmd/migrate/main.go:195-212 | over every crash-free continuation a visible target keeps its binding if and only if no step takes it back |
| SeedPublication.SettledTargetStays | server/cmd/migrate/main.go:71-91 | a settled target stays bound to the same file through crashes as well |
| SeedPublication.SuccessIsForever | server/cmd/migrate/main.go:195-227 | after a run that returned no error the server accepts the same verified target through all later runs, failures, crashes and foreign programs |
| SeedPublication.FaultFreeRunPublishes | server/cmd/migrate/main.go:70-227 | a run in which nothing fails publishes if and only if it finds no target; a stale marker alone never stops it |
| SeedPublication.VisibleIsDurablePlusPending | server/cmd/migrate/main.go:371-378 | what programs see is always the disk with every pending operation applied in order |
| SeedPublication.SettledSurvivesCrash | server/cmd/migrate/main.go:371-378 | a name whose entry is on the disk with nothing pending against it looks the same after every crash |
| SeedRecovery.RefusedRenameTakesBackTheMarker | server/cmd/migrate/main.go:195-202 | after a refused rename the marker is gone if and only if its removal succeeded, for good when the directory was synced too; the target is left alone |
| SeedRecovery.UnconfirmedTargetIsTakenBack | server/cmd/migrate/main.go:203-212 | a target whose place could not be confirmed is taken away if and only if its removal succeeded, and the marker stays: the server accepts neither this directory nor, once synced, what a crash makes of it |
| SeedRecovery.UnconfirmedRemovalRestoresTheMarker | server/cmd/migrate/main.go:213-222 | after an unconfirmed removal the server accepts the target if and only if the marker could not be written again; written and synced, it is refused after any crash too; the target stays |
| SeedRecovery.CleanupRemovesOnlyItsStaging | server/cmd/migrate/main.go:111-116 | the last call of a run ends it with its outcome and removes the run's own staging file, if it goes well, and nothing else |
| SeedPublisher.RunContext | server/cmd/migrate/main.go:54-227 | the whole command follows the model call by call over one directory in which another program may make the target before any call; success leaves the target accepted for good, failure keeps the invariant |
| SeedPublisher.CheckNames | server/cmd/migrate/main.go:71-91 | marker and target checks |
| SeedPublisher.RecoverMarker | server/cmd/migrate/main.go:71-85 | a marker without a target is removed durably, or the run ends |
| SeedPublisher.MakeStaging | server/cmd/migrate/main.go:93-124 | the staging placeholder and its reopening, with what has to be cleaned up |
| SeedPublisher.FillStaging | server/cmd/migrate/main.go:134-185 | import, read-back and sync of the staging file before any publication |
| SeedPublisher.Mark | server/cmd/migrate/main.go:189-194 | the marker is durable before the rename |
| SeedPublisher.MoveIntoPlace | server/cmd/migrate/main.go:195-202 | rename without replacing, and the marker's removal when it fails |
| SeedPublisher.Confirm | server/cmd/migrate/main.go:203-212 | the directory sync, and the target's removal when it cannot be confirmed |
| SeedPublisher.Unmark | server/cmd/migrate/main.go:213-221 | the marker's removal, and its return when that is not durable |
| SeedPublisher.ImportObjects | server/cmd/migrate/main.go:134-166 | the import loops succeed if and only if every object imports, only optional categories are empty, no injected failure is reached, and the totals are the announced non-zero ones |
| BackupEnvelope.RoundTrip | server/internal/backup/envelope.go:149-448 | decrypting what was encrypted gives the payload back, for every payload within the limit |
| BackupEnvelope.DecryptsExactlyEnvelopes | server/internal/backup/envelope.go:310-448 | a decryption returns a payload if and only if the bytes are an envelope of that payload under the same key; nothing else is accepted |
| BackupEnvelope.SingleShotOpens | server/internal/backup/envelope.go:372-391 | an envelope of the older single-shot kind still opens |
| BackupEnvelope.EnvelopeSize | server/internal/backup/envelope.go:72-78 | an encryption writes exactly the header and the computed ciphertext size, within the envelope limit |
| BackupEnvelope.CiphertextSizeIsExact | server/internal/backup/envelope.go:51-78 | no step of the 64-bit size arithmetic overflows for an allowed payload, and it equals payload plus one tag per chunk |
| BackupEnvelope.NoncesAndFinalFlag | server/internal/backup/envelope.go:223-247 | exactly the last chunk is final, every chunk authenticates the header, its index and that flag, and no two chunks of one envelope share a nonce |
| BackupEnvelope.ChunkNonceInjective | server/internal/backup/envelope.go:80-89 | two 64-bit chunk indices with the same nonce are the same index |
| BackupEnvelope.SealCallsCoverThePayload | server/internal/backup/envelope.go:223-247 | the texts sealed, in order, are the payload |
| BackupEnvelope.OpenedHeader | server/internal/backup/envelope.go:317-367 | a header that opens is the one an encryption with its values writes |
| BackupEnvelope.OpenedChunks | server/internal/backup/envelope.go:393-446 | chunks that open are the ones an encryption of their text writes |
| BackupBytes.FromBigEndianInverts | server/internal/backup/envelope.go:183-183 | reading a big-endian word back gives the number written |
| BackupBytes.XorCancels | server/internal/backup/envelope.go:84-87 | exclusive or with a fixed byte is injective |
| BackupStream.EncryptStream | server/internal/backup/envelope.go:149-254 | the streaming encryption gives the specified envelope or error for every source length, or reports a cancellation one of its chunk checks found; success means every check found none |
| BackupStream.SealLoop | server/internal/backup/envelope.go:216-248 | the chunk loop writes the seals of the payload's chunks in order, and stops early only for a short source or a cancellation |
| BackupStream.DecryptStream | server/internal/backup/envelope.go:310-448 | the streaming decryption gives the specified payload or refusal, including what it does with bytes after the announced end; a cancellation is reported only when a chunk check found one, and success means none did |
| BackupStream.OpenPayload | server/internal/backup/envelope.go:372-446 | the three ways a payload is opened, by algorithm and size, agree with the specification and give the announced size |
| BackupStream.OpenLoop | server/internal/backup/envelope.go:408-446 | the chunk loop opens exactly what the recursive specification opens |
| BackupStream.DeriveChunkNonce | server/internal/backup/envelope.go:80-89 | the in-place loop over the last eight bytes computes the chunk nonce |
| BackupStream.BuildPrefix | server/internal/backup/envelope.go:174-183 | the prefix buffer filled field by field is the specified prefix |
| BackupStream.SucceedsExactly | server/internal/backup/envelope.go:149-254 | an encryption succeeds if and only if the key is good, the size allowed, and, unless that size is zero, the source holds exactly that many bytes |
| BackupStream.SizeIsCheckedExactlyAboveZero | server/internal/backup/envelope.go:207-248 | success means the source held exactly the announced size, for every source, if and only if that size is above zero |
| BackupStream.EmptySizeHidesBytes | server/internal/backup/envelope.go:207-248 | one byte announced as none encrypts as the empty payload |
| BackupStream.StreamRoundTrip | server/internal/backup/envelope.go:149-448 | whatever an encryption writes without error a decryption gives back at exactly the announced size, and that is the whole source if and only if the size is above zero or the source is empty |
| AttemptLimiter.Limiter.Allow | server/internal/api/auth_limiter.go:55-93 | the answer is yes if and only if, by the calls served so far and their answers, no key was named limit times in its live window and there is room for the keys without one; map and heap hold exactly the windows of that history, for any clock and any keys |
| AttemptLimiter.Limiter.PruneExpired | server/internal/api/auth_limiter.go:95-102 | popping the heap while its root has expired removes exactly the expired windows |
| AttemptLimiter.Limiter.DropFirst | server/internal/api/auth_limiter.go:97-100 | one pop removes the same window from heap and map |
| AttemptLimiter.Limiter.Insert | server/internal/api/auth_limiter.go:85-88 | a new window enters both, and heap and map still hold the same windows once each |
| AttemptLimiter.Limiter.CountAll | server/internal/api/auth_limiter.go:83-91 | the loop over the keys opens missing windows and counts one attempt for each key (how much that is: AttemptHistory.BumpAllExactly) |
| AttemptLimiter.Limiter.CountExisting | server/internal/api/auth_limiter.go:75-81 | at capacity only existing windows are counted (how much that is: AttemptHistory.BumpExistingExactly) |
| AttemptLimiter.SiftUp | server/internal/api/auth_limiter.go:22-33 | the heap's upward sift restores the order and permutes |
| AttemptLimiter.SiftDown | server/internal/api/auth_limiter.go:22-33 | the heap's downward sift restores the order of the first n and leaves the rest |
| AttemptLimiter.PopLeast | server/internal/api/auth_limiter.go:22-33 | a pop returns the root and leaves a heap of the others |
| AttemptLimiter.RootIsLeast | server/internal/api/auth_limiter.go:24-25 | the root of an ordered heap expires no later than any element |
| AttemptTable.SizeIsBounded | server/internal/api/auth_limiter.go:74-82 | over every run and clock the table never exceeds its capacity |
| AttemptTable.AtMostLimitPerWindow | server/internal/api/auth_limiter.go:55-93 | from the call that opens a window until the clock first reads its end, a key is allowed at most limit times, or once when the limit is below one |
| AttemptTable.LimitIsKeptExactlyFromOne | server/internal/api/auth_limiter.go:63-67 | every run keeps the limit itself if and only if the limit is at least one |
| AttemptTable.WindowCounts | server/internal/api/auth_limiter.go:55-93 | through its whole window a key keeps its expiry and its count covers every allowed attempt |
| AttemptHistory.TableIsTheHistory | server/internal/api/auth_limiter.go:55-102 | at every moment of every run a key has an entry exactly when a window of it is kept; its expiry is that of the call that opened the window, and its count is the number of times the key was named since, in calls that were allowed or refused for room alone |
| AttemptHistory.AllowedExactly | server/internal/api/auth_limiter.go:63-93 | a call is allowed if and only if none of its keys has been named limit times in its live window and the table has room for the keys without one |
| AttemptHistory.ExactlyLimitPerWindow | server/internal/api/auth_limiter.go:55-93 | of the calls naming a key in one window, each once, with room and no other spent key, exactly the first limit are allowed (one, for a limit below one) |
| AttemptHistory.BumpAllExactly | server/internal/api/auth_limiter.go:83-91 | counting a call leaves each key its window, or opens one, and adds exactly the number of times the call names it |
| AttemptHistory.BumpExistingExactly | server/internal/api/auth_limiter.go:75-81 | the same for the keys that have a window, and for no others |
| ImportGrants.RunKeepsInvariant | server/internal/api/lyrics_import_grants.go:58-191 | over every run of issues, claims, saves and withdrawals the grant invariants hold |
| ImportGrants.OneLiveClaimPerGrant | server/internal/api/lyrics_import_grants.go:58-131 | at most 256 grants; a claimed grant belongs to a live save, and no two live saves share a token |
| ImportGrants.CommitsAtMostOnce | server/internal/api/lyrics_import_grants.go:159-169 | a token commits at most once and is never in the map again |
| ImportGrants.OnlyTheOwnerMovesAClaimedGrant | server/internal/api/lyrics_import_grants.go:159-191 | a claimed grant stays as it is under every event but a step of the save that owns it or a withdrawal |
| ImportGrants.IssueEffects | server/internal/api/lyrics_import_grants.go:74-99 | issuing evicts no claimed grant, keeps within 256, and is refused if and only if 256 claimed grants are in use |
| ImportGrants.ReturnedSaveHoldsNothing | server/internal/api/lyrics_handlers.go:253-317 | once a save has returned no grant carries its claim |
| ImportGrants.ReturningLeavesNoClaim | server/internal/api/lyrics_handlers.go:253-317 | the step that resolves a claim leaves its grant gone or unclaimed, on every path |
| ImportGrants.InvalidationFindsNothing | server/internal/api/lyrics_handlers.go:254-284 | the fail-closed invalidations never delete anything in any reachable state |
| ImportGrants.EveryStepLeadsOut | server/internal/api/lyrics_handlers.go:231-317 | every step brings the handler strictly nearer its return |
| ImportGrantHistory.EveryClaimWasGranted | server/internal/api/lyrics_import_grants.go:58-131 | behind every save with a claim, in every run, is an earlier grant of its token to the same user, for the same song and producer status, less than ten minutes before |
| ImportGrantHistory.EveryCommitWasGranted | server/internal/api/lyrics_import_grants.go:105-169 | and so behind every committed token |
| ImportGrantHistory.IssuedExactly | server/internal/api/lyrics_import_grants.go:71-99 | a grant is issued unless 256 others are being saved; it is the one asked for, for ten minutes, unclaimed; of the others exactly the expired go, and when the map is full one unclaimed grant that expires first |
| ImportGrantHistory.ClaimedExactly | server/internal/api/lyrics_import_grants.go:105-131 | a claim succeeds if and only if its grant is there, unclaimed, in time and for this user, song and status; a busy grant is left alone, any other refusal takes it away |
| ImportGrantHistory.LostForEver | server/internal/api/lyrics_import_grants.go:171-179 | a token once gone is in no later state, so a refused, committed or withdrawn grant is never claimed again |
| ImportGrantService.Server.Prune | server/internal/api/lyrics_import_grants.go:74-78 | the loop drops exactly the expired unclaimed grants |
| ImportGrantService.Server.FindOldest | server/internal/api/lyrics_import_grants.go:80-92 | the loop finds an unclaimed grant that expires first, or none if all are claimed |
| ImportGrantService.Server.IssueGrant | server/internal/api/lyrics_import_grants.go:71-99 | map and answer after an issue |
| ImportGrantService.Server.ClaimFor | server/internal/api/lyrics_import_grants.go:105-131 | map and answer after a claim, consuming the grant on a terminal mismatch |
| ImportGrantService.Server.CommitClaim | server/internal/api/lyrics_import_grants.go:159-169 | only the exact claim commits |
| ImportGrantService.Server.ReleaseClaim | server/internal/api/lyrics_import_grants.go:181-191 | only the exact claim releases |
| ImportGrantService.Server.ResolveClaim | server/internal/api/lyrics_handlers.go:253-317 | the branches from claim to deferred function, panics included, follow the model under interference; unless the token is withdrawn, the grant is there exactly when the save may be retried |
| ImportGrantService.Server.CallStore | server/internal/api/lyrics_handlers.go:303-317 | the store's save with its commit callback, a panic in it or behind it, and what its error means for the claim |
| ImportGrantService.Server.HandleSave | server/internal/api/lyrics_handlers.go:231-317 | however the handler ends, by return or panic and whatever others do meanwhile, no grant carries its claim; unless the token is withdrawn, the unclaimed grant is back if and only if nothing terminal and no commit callback came first |
| Accounts.RefusedTokenStaysRefused | server/internal/auth/auth.go:414-441 | a token refused while unexpired is refused for ever, through any password, role, delete, recreate and refresh operations, including a token issued from an outdated user value |
| Accounts.RunKeepsInv | server/internal/auth/auth.go:81-409 | over every run, user values and tokens never run ahead of the row they name, issued tokens stay issued and ids only grow |
| Accounts.OneRefreshPerVersion | server/internal/auth/auth.go:380-409 | over every run at most one refresh succeeds for an account and version |
| Accounts.RefreshReplacesTheToken | server/internal/auth/auth.go:380-409 | a refresh makes its successor good and every earlier token of the account bad |
| Accounts.AnAdminRemains | server/internal/auth/auth.go:243-263 | once an administrator exists one always does, so the first-admin setup never succeeds again |
| Accounts.SetupSucceedsExactlyOnce | server/internal/auth/auth.go:113-151 | setup succeeds if and only if the table is empty and the credentials acceptable, and leaves one administrator |
| Accounts.EventMoves | server/internal/auth/auth.go:81-263 | every transaction leaves each account as it was, raises its version, or ends it; ids are never used again |
| Accounts.CurrentWasCurrent | server/internal/auth/auth.go:175-263 | a token that is good after a transaction was good before it |
| AccountRecords.AnsweredExactly | server/internal/auth/auth.go:81-263 | each operation reports success if and only if the table allows it (account there or not, password given and strong, role valid, not the last administrator), and otherwise changes nothing |
| AccountRecords.WritesExactly | server/internal/auth/auth.go:81-263 | field by field what a success leaves: the given hash, the given role, the old id or a new one, a version one higher, every other row as it was |
| AccountRecords.AnswersTheRow | server/internal/auth/auth.go:81-151 | what a successful operation answers is the row it left |
| AccountRecords.VerifiesExactly | server/internal/auth/auth.go:414-441 | a token is accepted if and only if it is unexpired and its row says the same of id, role and version |
| AccountRecords.HashIsTheLastGiven | server/internal/auth/auth.go:81-194 | over every run an account's stored hash is the one given by its last successful creation or password change |
| AccountRecords.RoleIsTheLastGiven | server/internal/auth/auth.go:81-219 | and its role the one given by its last successful creation or role change |
| AccountRecords.EveryHashWasGiven | server/internal/auth/auth.go:81-194 | every account of the table has such an event, or was there from the start with the hash it has |
| AccountRecords.LastPasswordOpens | server/internal/auth/auth.go:296-315 | over every run the last password set opens an account, and no other does |
| AccountRecords.DeletedOpensNothing | server/internal/auth/auth.go:222-315 | no password opens a deleted account |
| AccountRecords.OnlyAdminByCount | server/internal/auth/auth.go:243-263 | counting administrators finds the account to be the only one exactly when no other account is one |
| AccountService.Auth.CreateUserAccount | server/internal/auth/auth.go:81-108 | it succeeds exactly for acceptable credentials, a valid role and a free name; the row then has exactly the given hash and role and a new id; every token that was good stays good and none of them names the new account |
| AccountService.Auth.SetUp | server/internal/auth/auth.go:113-151 | setup on the table, succeeding only when it was empty |
| AccountService.Auth.ChangeUserPassword | server/internal/auth/auth.go:175-194 | it succeeds exactly for a given, strong password of an existing account; the row then has the new hash, its old id and role and a version one higher, every other row is as it was; of the tokens good before, exactly those of the changed account end |
| AccountService.Auth.ChangeUserRole | server/internal/auth/auth.go:197-219 | it succeeds exactly for a valid role, an existing account and not the last administrator stepping down; the row then has the given role, its old id and hash and a version one higher; of the tokens good before exactly those of the changed account end |
| AccountService.Auth.DeleteAccount | server/internal/auth/auth.go:222-239 | it succeeds exactly for an existing account that is not the last administrator; that row alone is gone; of the tokens good before exactly those of the deleted account end |
| AccountService.Auth.GuardLastAdmin | server/internal/auth/auth.go:243-263 | counting rows one by one refuses exactly the last administrator |
| AccountService.Auth.Refresh | server/internal/auth/auth.go:380-409 | the guarded update; the new token is good, and of those good before exactly the account's own end |
| AccountService.Auth.Verify | server/internal/auth/auth.go:414-441 | looking the row up by id and comparing decides as the specification by name does |
| AccountService.Auth.LogIn | server/internal/auth/auth.go:296-315 | a login succeeds exactly for an existing account of a valid role whose stored hash is that of the password, and answers its row |
| SeedBundle.ValidateBundle | server/internal/embeddedlyricsseed/contract.go:468-694 | a bundle is accepted if and only if documents, artifacts, contributions, legacy and availability records each cover what they belong to exactly once, and every legacy line has a segment |
| SeedBundle.CoverByCount | server/internal/embeddedlyricsseed/contract.go:537-568 | distinct members of a set cover it exactly when there are as many as it has |
| SeedBundle.SizesMeanCover | server/internal/embeddedlyricsseed/contract.go:569-601 | per-document membership, no duplicates and matching sizes hold if and only if the pairs are an exact cover |
| SeedBundle.DocumentsCoverItems | server/internal/embeddedlyricsseed/contract.go:537-568 | 652 distinct documents of source items are exactly the 652 source items |
| SeedBundle.RecordsCoverItems | server/internal/embeddedlyricsseed/contract.go:668-688 | distinct records of items of a kind, as many as there are, cover them exactly |
| SeedBundle.LegacyCoverItems | server/internal/embeddedlyricsseed/contract.go:624-633 | legacy documents, though not checked for duplicates, cover their items because there is one of each |
| SeedBundle.CheckItems | server/internal/embeddedlyricsseed/contract.go:486-532 | the loop accepts exactly ordered, sound items with the three expected kind counts |
| SeedBundle.CheckDocuments | server/internal/embeddedlyricsseed/contract.go:537-568 | the loop accepts exactly distinct documents of source items with distinct identities |
| SeedBundle.CheckArtifacts | server/internal/embeddedlyricsseed/contract.go:569-601 | the loops accept exactly an exact cover of every document's fixed identities |
| SeedBundle.CheckContributions | server/internal/embeddedlyricsseed/contract.go:602-622 | the loops accept exactly an exact cover of every document's component bindings, each naming an existing artifact |
| SeedBundle.CheckLines | server/internal/embeddedlyricsseed/contract.go:634-650 | lines belong to legacy documents and repeat neither id nor position |
| SeedBundle.CheckSegments | server/internal/embeddedlyricsseed/contract.go:651-666 | counting segments under the printed key and then looking every line up accepts exactly the segments that belong to lines and cover them all |
| SeedBundle.CheckAvailability | server/internal/embeddedlyricsseed/contract.go:668-688 | distinct sound records, exactly the expected number |
| SeedBundle.SegmentKeyInjective | server/internal/embeddedlyricsseed/contract.go:651-666 | the string segments are counted under never confuses two lines |
| JsonPreflight.PreflightAcceptsExactly | server/internal/backup/content.go:601-660 | the preflight succeeds if and only if the tokens are one array or object whose names are unique at every depth (section 4 of RFC 8259) and whose top-level arrays are within the limit, and then reports that tree's counts |
| JsonPreflight.ParseOfRender | server/internal/backup/content.go:687-744 | consuming the tokens of a well-formed tree accepts it and stops right after it |
| JsonPreflight.RenderOfParse | server/internal/backup/content.go:687-744 | whatever is consumed without error is the tokens of a well-formed tree |
| JsonPreflight.UnseenIsUnique | server/internal/backup/content.go:696-715 | refusing names already seen accepts exactly pairwise distinct names |
| JsonPreflight.CountsAreLengths | server/internal/backup/content.go:614-650 | the counts name exactly the array members, each with its own length |
| JsonDecoder.Decoder.TopLevel | server/internal/backup/content.go:601-660 | the whole preflight, trailing tokens included, gives the specified answer |
| JsonDecoder.Decoder.CountArray | server/internal/backup/content.go:662-685 | the loop fails exactly when an element is malformed or the limit would be passed, and counts the elements |
| JsonDecoder.Decoder.CountMembers | server/internal/backup/content.go:624-655 | the loop over a root object's fields counts each array and the total |
| JsonDecoder.Decoder.ConsumeValue | server/internal/backup/content.go:687-744 | one value is consumed exactly when it is well formed |
| JsonDecoder.Decoder.ConsumeMembers | server/internal/backup/content.go:696-722 | an object's fields are consumed exactly when names are new and values well formed |
| JsonDecoder.Decoder.ConsumeItems | server/internal/backup/content.go:723-739 | an array's elements are consumed exactly when each is well formed |
| NewlineWriter.TrimFinalNewlineWriter.WriteAll | server/internal/backup/content.go:95-122 | for every way of splitting the input into writes the output is all the input minus one final newline, and nothing sent out is taken back |
| NewlineWriter.TrimFinalNewlineWriter.Write | server/internal/backup/content.go:100-122 | one write keeps the output equal to the trimmed input |
| SettingsTable.CacheIsTheTable | server/internal/config/config.go:291-334 | through any writes and seeds the cache equals the decoded table and every stored value is valid and already canonical |
| SettingsTable.ReopenIsTheSame | server/internal/config/config.go:143-189 | reopening the table after any run succeeds, rewrites nothing and gives the same cache |
| SettingsTable.ReloadEstablishes | server/internal/config/config.go:143-189 | opening any acceptable table gives a cache equal to the table it leaves |
| SettingsTable.WriteIsAllOrNothing | server/internal/config/config.go:291-334 | a patch changes every named setting to its trimmed value and nothing else, or, when any value cannot be stored, nothing |
| SettingsTable.SeedLeavesWhatIsThere | server/internal/config/config.go:486-539 | seeding never touches a setting that has a row |
| SettingsTable.SeedFillsExactly | server/internal/config/config.go:486-541 | a seed fills exactly the settings that have no row and are given more than blanks, with the trimmed value, and changes nothing else; one value that cannot be stored refuses it as a whole |
| SettingsTable.SecretsStaySealed | server/internal/config/config.go:336-357 | no run of writes and seeds, nor opening the table again, leaves a secret in plain text or encrypts anything else |
| SettingsTable.StoredRowReads | server/internal/config/config.go:336-359 | an encoded row reads back as the trimmed value, valid and canonical |
| Settings.CanonicalKeepsMeaning | server/internal/config/config.go:196-216 | rewriting a legacy spelling keeps the boolean or integer it stands for, happens once, and leaves every valid value alone |
| Settings.NumberSpellings | server/internal/config/config.go:205-213 | an integer setting's canonical spelling is a fixpoint with the same value |
| Settings.SwitchSpellings | server/internal/config/config.go:197-204 | a boolean setting's canonical spelling is a fixpoint with the same truth value, and valid exactly when it has one |
| SettingsStore.Config.LoadAll | server/internal/config/config.go:143-189 | opening succeeds exactly on acceptable tables and otherwise changes nothing |
| SettingsStore.Config.ReadRows | server/internal/config/config.go:149-179 | the row loop decodes, normalises and validates every row or fails |
| SettingsStore.Config.PersistCanonical | server/internal/config/config.go:221-238 | only plaintext rows are rewritten |
| SettingsStore.Config.EncodeAll | server/internal/config/config.go:298-314 | the loop over a patch succeeds exactly when every value can be stored |
| SettingsStore.Config.WriteMany | server/internal/config/config.go:291-334 | table, cache and count after a write |
| SettingsStore.Config.SeedMany | server/internal/config/config.go:486-539 | table, cache and count after a seed; only inserted rows reach the cache |
| PercentPath.RetiredWorkspacePath | server/static.go:120-139 | the bounded loop decides by the true fixpoint of decoding, or refuses a path a seventeenth pass would still change |
| PercentPath.DecodePass | server/static.go:151-170 | one pass decodes every well-formed escape and reports a change exactly when there was one |
| PercentPath.ChangesExactlyWhenShorter | server/static.go:151-170 | a pass changes the path if and only if it shortens it, by two bytes for each escape (section 2.1 of RFC 3986) |
| PercentPath.PassesReachTheFixpoint | server/static.go:120-132 | repeated passes reach a fixpoint after at most half as many passes as bytes |
| PercentPath.ShortPathsAreDecidedByTheFixpoint | server/static.go:120-139 | a path refused for depth has at least 35 bytes; every shorter one is decided by its fixpoint |
| PercentPath.ThirtyFiveBytesCanBeTooDeep | server/static.go:120-133 | a path of exactly 35 bytes that is refused for depth |
| PercentPath.EscapingNeverHidesARetiredPath | server/static.go:106-139 | a retired path escaped any number of times stays retired |
| PercentPath.PassInvertsEscape | server/static.go:151-186 | a pass undoes escaping every byte |

## Left out

- CollabPersistence.SqlitePersistence.BumpAllEpochs: adds one without a bound, because SQLite's own behaviour when the sum passes the int64 maximum is not part of the repository.
- SeedPublisher.FillStaging: the read-back comparison with the seed and the integrity check are one answer of the environment.
- SeedPublisher.RunContext: another program may make the target before any call but neither removes files nor makes the marker or the staging name, as in the machine it follows.
- CollabTickets.RunKeepsInvariant: epochs have no upper bound there; the wrap of a replacement is CollabHistory.ReplaceLowersEpochExactlyAtMaximum.
- CollabCheckpoint.RunKeepsInvariant: closing a room, flush by flush up to its eviction, is one step; the CRDT server does it.
- Errors of the database driver and cancelled contexts inside a collaboration transaction: a transaction commits or leaves everything as it was.
- Row timestamps and the checkpointed_by and checkpointed_at columns, which no check reads.
- The CRDT library itself (encoding, clients and clocks), the WebSocket transport, broadcasting, audit records and change notifications.
- The projection of stale exact-projection game rows in a rendition draft (server/internal/collab/checkpoint.go:89-93), the field comparison of validateImmutableDraft and the encoding of checkpointDocumentUpdate: they are the draft, the valid flag and the encoded update of a save.
- Several checkpoints at once: the service's operation mutex allows one. A live room closed because its envelope could not be applied is the ordinary eviction.
- The authorization of a request without a capture slot, which releases its editor slot at once, and the periodic revalidation of open connections.
- Service.Shutdown, RevokeUser and the reseeding loop of RetireAll, whose steps are the modelled bump, replacement and eviction.
- Decoding a materialised document into the Go structures and the music id comparison after it.
- The link-then-unlink rename of systems other than Linux and Darwin, WAL side files, and the single-instance lock of the migration command.
- Random draws and output-writer failures of an envelope, encryption to and from files, and parsing of the environment key.
- The derivation of attempt keys from requests, and overflow of time arithmetic, in the limiter.
- The checks of a preview before a grant is issued, blank tokens, and failures of the random source.
- Token signatures (only issued tokens are considered), the inside of bcrypt, and the trimming of user names.
- Digests, canonical encodings and field formats of single seed records, which are one flag of the record; the manifest's own checks and the archive reader.
- Byte-level JSON syntax, which the tokenizer turns into tokens or an error, and cancellation of the preflight.
- Failures of the writer under the newline-trimming writer.
- Which URLs the setting policies accept, a parameter of the model; the typed readers with their fallbacks and the masked listing of settings.
- How path.Clean works: it is a parameter, and every result holds for any such function.
- HTTP routing and middleware, server-sent events, file serving, S3, git and archive transports, schema migrations, the editor console, and the translator, importer and search packages.

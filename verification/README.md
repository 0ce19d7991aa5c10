# Agent sandbox platform: verified models

This project models the parts of the agent sandbox platform whose correctness depends on
interleavings, crashes or exact formats, and proves what they promise. `dafny verify
dfyconfig.toml` checks all of it.

## The command supervisor

`Bytes`, `SpoolCodec`, `Spool`, `SpoolRecovery` and `SpoolDir` model the durable output spool: the
binary record codec, the bounded segmented log with whole-segment eviction, appends that stop after
any byte, and the read that truncates a torn end. `SpoolDir` walks and changes a directory of files
the way the program does; the other modules reason about its sorted list of segments.

`Supervisor` is the state machine of the manager. Each region under a mutex is one step, and every
write to disk is given a verdict by the environment: it succeeds, or it fails having left part of its
effect behind. Dying in a write is that failed write followed by a crash. `SupervisorInvariant`,
`SupervisorRecovery` and `SupervisorRuns` carry the invariant over every run; `SupervisorTheorems`,
`SupervisorRestarts`, `SupervisorBlocked`, `SupervisorFull`, `SupervisorStarts`,
`SupervisorDuplicates` and `SupervisorReplay` state what follows: durable visibility, crash recovery
and where it ends, idempotent starts and exact replay. `SupervisorOutput` ties what clients read to
what the child wrote, stream and bytes, `SupervisorReports` what they are shown to what was asked for and
reported, and `SupervisorDisk` bounds what a spool takes on disk. A history beside each command keeps
its whole log, how many events of it were evicted, and the records whose writes the storage reported
as done or a restart read back; recovery and replay are stated with exactly those. `Manager` is the
object with its tables, proved step by step against the state machine. `Specification` normalises
start requests; cleaning a path is pinned by laws that leave no choice (`CleaningIsUnique`).

What the proofs brought to light:

- Two windows defeat recovery. Failing or dying in the first metadata write of a command, after its directory
  exists, and failing or dying inside the 8-byte version header of a new segment, each leave a directory that
  makes every later restart fail (`MissingMetadataBlocksRestart`, `TornHeaderBlocksRestart`). Outside
  them every restart succeeds (`EveryRestartSucceeds`); in general one succeeds exactly when the
  directories are bootable (`RestartExactly`). Nothing that happens later makes an unbootable disk
  bootable (`BlockedForever`), and a step makes a bootable one unbootable exactly when it ends in a
  window, gives a request id to a second directory, or makes a directory too many (`BlocksExactly`).
  The limit on starts does not see the last, because it counts commands and not directories
  (`FullDiskBlocksRestart`).
- When the record of a chunk reaches the disk but the append or the metadata write after it reports a
  failure, the spool is one event ahead of the visible record, and a connection returns that event
  beyond the cursor it reports (`UnreportedChunkIsAnswered`, and exactly then: `AnswersBeyondExactly`).
  Taken up to the reported cursors the answers are always gapless; taken whole they are as long as the
  spool has not failed (`FollowIsGapless`).
- A metadata write can report a failure after its rename took effect. In a process that lives on, a
  start already past the health check then creates a second command for the same request id
  (`LateStartDuplicates`). A start does so exactly when it writes metadata for an unbound request id
  that a directory already carries (`StartDuplicatesExactly`); over whole runs, exactly when a start
  writes metadata for an id whose earlier write, in the same process life, was done and reported as
  failed (`DuplicatedExactly`). Idempotency therefore rests on one
  assumption: in a process that lives on, a start's failed metadata write has not renamed the file.
  Appends, transitions, ends and restarts may fail in any way (`IdempotentStart`).
- A rotating append empties the spool when the budget does not hold the newest segment and the new
  record; at the shipped constants it cannot (`EvictionsEmptyExactly`, `EvictionLeavesOne`).

## The capability registry

`Registry` gives every region of the workload router's registry as a function on its tables and as a
method of the registry object. `RegistryRuns` interleaves them: an exchange is three regions, and
revocations, expiry timers, release closures and connection closes of any generation may come at any
later time, with clocks that need not agree between threads. `RegistryConnections` adds slots,
tracked connections and shutdown, `RegistryTheorems` states the results. `RegistryLaws` gives every
answer its exact condition on the tables, and proves that nothing done for one registration touches
another (`OthersUntouched`). Clock readings are free in
every step, so nothing rests on time moving forward. A revocation that comes second returns while
the first is still closing connections (`SecondRevokeReturnsEarly`, and exactly then:
`LeavesOpenExactly`), and closing can return beside it for the same reason (`CloseReturnsEarly`,
`CloseLeavesOpenExactly`); completeness is therefore stated for the revocation that removed the
registration.

## Transfers and teardown

`Transfers` models the permits of file transfers, as functions and as the manager and operation
objects. `TransferRuns` interleaves them with lease teardowns: a finish leaves the tables, then the
wait group, then signals its end, and a stop waits for the operations it saw. The lookup by
idempotency key deletes expired claims, and a failed acquisition its own, without stopping transfers.
The first can only meet transfers that are past their deadline (`DeletesUnderTransferExactly`), the
second only transfers that were begun before the acquisition returned (`AbandonsUnderTransferExactly`),
which the list of leases makes possible. Whoever begins transfers only after the acquire call has
returned is safe from it (`AbandonIsIdle`).

`Claims` is the claim store those teardowns change: release, delete, the sweep of expired claims, and
acquisition with its lookup by idempotency key. A deletion that waited for transfers leaves none running
for its lease, through any interleaving (`StopsIsIdle`). `ClaimRuns` interleaves the steps of
acquisitions with everything else that happens to claims.

## Listing and paging

`Listing` models the backend's page of leases, the sealed cursor and the client's request; `Paging`
the client's pager. The API server serves one snapshot with page boundaries of its own, pages may be
empty, and any request may fail. `Traverse` ties the whole loop to one filter over the snapshot.

## Quotas

`Leases` is the process lease backend as an object; `QuotaRuns` the chain of acquisitions over it,
suspended at every await, with releases, deletions and expiry in between and the clock read anew.
Limits are stated for
leases that are active by status, which bounds the unexpired ones without any assumption on the
clock.

## Shell commands and the ASP1 line

`Shell` reads quoted commands back with the rules of sections 2.2.1 and 2.2.2 of the POSIX.1-2017
Shell Command Language. `TransferMarker` does the same for the line the sandbox helper prints before
a download, and for its answer to an upload as it is read from a bounded buffer.

## Conventions

Strings are sequences of bytes, one per character. Digests and seals are ideal: a credential stands
for its digest, a specification for its hash, a scope for its hash, and a cursor opens only if it was
sealed by the service. Random identifiers are fresh where the program relies on it. Segment file
names are identified with the numbers they print. Classes hold the fields the program updates; each
method's contract gives the whole new state as the specified step of the old one.

## Model

| member | source | states |
|---|---|---|
| `SpoolCodec.DecodeEvents` | apps/command-supervisor/internal/runtime/persistence.go:173-208 | the in-place scan computes exactly the recursive decoder: quiet stop at a torn record, failure on anything else that is no record |
| `SpoolCodec.TornTailRoundTrip` | apps/command-supervisor/internal/runtime/persistence.go:173-220 | any list of records followed by any strict prefix of one more decodes to exactly that list and its exact byte length |
| `SpoolCodec.DecodeCanonical` | apps/command-supervisor/internal/runtime/persistence.go:173-220 | what decodes is the encoding of what is returned, byte for byte, and decoding stops only at a torn record |
| `SpoolCodec.FrameOfTornEncoding` | apps/command-supervisor/internal/runtime/persistence.go:173-220 | no cut of a record reads as a bad or a shorter record |
| `Spool.BoundedLogOverRuns` | apps/command-supervisor/internal/runtime/persistence.go:230-295 | every sequence of fitting events with ascending numbers can be appended, and leaves a bounded log: whole segments named after their first event, a suffix of all events, total within the budget, segments within 256 KiB, and above budget minus 256 KiB once anything was evicted |
| `Spool.AppendKeepsBoundedLog` | apps/command-supervisor/internal/runtime/persistence.go:230-295 | one append succeeds exactly when the event fits the limits, keeps the bounded log, and changes nothing otherwise |
| `Spool.EvictionsTight` | apps/command-supervisor/internal/runtime/persistence.go:259-269 | eviction makes room and stops no earlier than needed: less than one segment more could have stayed |
| `Spool.EvictionsEmptyExactly` | apps/command-supervisor/internal/runtime/persistence.go:259-269 | eviction empties the spool exactly when even the newest segment leaves no room |
| `Spool.NoCollision` | apps/command-supervisor/internal/runtime/persistence.go:270-276 | with ascending numbers the exclusive creation of a segment never meets an existing name, and the new segment sorts last |
| `SpoolRecovery.ReadShaped` | apps/command-supervisor/internal/runtime/persistence.go:131-171 | over segments with a torn end a read returns exactly the whole events and truncates the torn bytes; it fails exactly when the newest segment lacks its version header |
| `SpoolRecovery.ReadIsFixedPoint` | apps/command-supervisor/internal/runtime/persistence.go:131-171 | reading again returns the same events and changes nothing on disk |
| `SpoolRecovery.InterruptedAppend` | apps/command-supervisor/internal/runtime/persistence.go:230-295 | an append that stops anywhere removes the n oldest segments, no more than it planned; if its whole record landed the log is the one of a successful append, with the events of the remaining segments and the new one stored, and otherwise the log before it remains with every event of the remaining segments recoverable |
| `SpoolRecovery.SurvivingEvents` | apps/command-supervisor/internal/runtime/persistence.go:131-295 | a read after an append that stopped anywhere returns exactly the events of the segments that were not removed, and the new event exactly when its record landed; it fails exactly when the newest segment lacks its version header |
| `SpoolRecovery.RemovedForNeed` | apps/command-supervisor/internal/runtime/persistence.go:259-269 | a segment is removed only if the budget would otherwise be exceeded, also when the removal stops half-way: less than a segment more could have stayed |
| `SpoolRecovery.AppendEvicts` | apps/command-supervisor/internal/runtime/persistence.go:230-295 | the events missing from the front grow by exactly those stored in the removed segments, whatever fails |
| `SpoolRecovery.LandsExactly` | apps/command-supervisor/internal/runtime/persistence.go:230-295 | a record lands exactly when the fault lets through its bytes, those of a new segment's header and all removals before it, whatever the call reports |
| `SpoolRecovery.EvictionLeavesOne` | apps/command-supervisor/internal/runtime/persistence.go:259-269 | with room for one segment and one record, eviction never removes the last segment |
| `SpoolDirectory.ListsUnique` | apps/command-supervisor/internal/runtime/persistence.go:104-129 | the sorted list of segments is determined by the directory |
| `SpoolDirectory.SpoolDir.Segments` | apps/command-supervisor/internal/runtime/persistence.go:104-129 | walking the directory in any order yields its sorted list of segments |
| `SpoolDirectory.SpoolDir.ReadEvents` | apps/command-supervisor/internal/runtime/persistence.go:131-171 | the in-place read computes the read of the sorted segments and leaves its repaired files |
| `SpoolDirectory.SpoolDir.ReadPart` | apps/command-supervisor/internal/runtime/persistence.go:142-169 | one segment file: version header, whole records, ascending numbers, truncation of the last file only |
| `SpoolDirectory.SpoolDir.Evict` | apps/command-supervisor/internal/runtime/persistence.go:259-269 | removing the oldest files one by one, failing after any number of them, leaves the planned rest |
| `SpoolDirectory.SpoolDir.StartSegment` | apps/command-supervisor/internal/runtime/persistence.go:251-287 | evict and create a file, with every failure in between |
| `SpoolDirectory.SpoolDir.AppendBoundedEvent` | apps/command-supervisor/internal/runtime/persistence.go:230-295 | the in-place append, with its evictions and any failure, has the outcome and the files of the append on the sorted segments |
| `SupervisorInvariant.StepKeeps` | apps/command-supervisor/internal/runtime/manager.go:404-521 | one step of a command, under any verdicts of the storage, keeps the command invariant, moves the visible record only forward and only extends the log |
| `SupervisorInvariant.ChunkLands` | apps/command-supervisor/internal/runtime/manager.go:474-492 | appending a chunk extends the log by exactly that event or leaves the log where it was; either way the evicted events are those before and those of the segments removed now |
| `SupervisorInvariant.EvictionIsBounded` | apps/command-supervisor/internal/runtime/manager.go:474-492 | in one step only an append evicts, only whole oldest segments, no more than it planned, and each because the budget would be exceeded with it |
| `SupervisorInvariant.ReadRecoverable` | apps/command-supervisor/internal/runtime/persistence.go:131-171 | a recoverable spool can be read exactly when its newest segment has its header; it yields the log without exactly the evicted events, and reading repairs it once and for all |
| `SupervisorInvariant.SequenceAdvancesExactly` | apps/command-supervisor/internal/runtime/manager.go:474-492 | the visible sequence number grows on a stored chunk exactly while it is below the largest 64-bit value |
| `SupervisorRecovery.LoadCommandExactly` | apps/command-supervisor/internal/runtime/manager.go:148-198 | with working storage a directory loads exactly when it has metadata and a readable spool; the record then ends at the end of the log, a command in flight is lost, and loading again changes nothing |
| `SupervisorRecovery.LoadCommandKeeps` | apps/command-supervisor/internal/runtime/manager.go:148-198 | a load that fails at any write leaves the directory as loadable as it was |
| `SupervisorRecovery.LoadedIsAcknowledged` | apps/command-supervisor/internal/runtime/manager.go:148-198 | a record that a load shows was on disk before, or its write was reported as done |
| `SupervisorRecovery.LoadEachExactly` | apps/command-supervisor/internal/runtime/manager.go:135-209 | a listing of directories loads exactly when each is ready and brings a new request id |
| `SupervisorRecovery.BootableFromMeans` | apps/command-supervisor/internal/runtime/manager.go:135-209 | that condition, for any order of the listing: all ready, no request id twice |
| `SupervisorRuns.RunKeeps` | apps/command-supervisor/internal/runtime/manager.go:135-521 | every run of starts, output, storage failures, deaths and restarts keeps the world invariant and takes nothing back |
| `SupervisorTheorems.DurableVisibility` | apps/command-supervisor/internal/runtime/manager.go:217-244 | whatever fails, every visible record was reported as written by the storage or read back from it by a restart; lifecycle and sequence number never go back, terminal states are final, acknowledgements are never lost |
| `SupervisorTheorems.SpoolFailureEndsLost` | apps/command-supervisor/internal/runtime/manager.go:466-521 | once the spool of a command has failed, every terminal state that is ever visible of it is lost, also after deaths and restarts |
| `SupervisorTheorems.UnhealthyIsSticky` | apps/command-supervisor/internal/runtime/manager.go:217-244 | after the step with the first failed write every start that begins later is refused, until a crash or a restart |
| `SupervisorTheorems.UnhealthyExactly` | apps/command-supervisor/internal/runtime/manager.go:217-244 | a step makes the supervisor unhealthy exactly when a write in it fails |
| `SupervisorTheorems.RestartExactly` | apps/command-supervisor/internal/runtime/manager.go:135-209 | after any run a restart with working storage succeeds exactly when the directories are bootable, and then every command is recovered: every event of its log that was not evicted, at most one past what was shown, and lost if it was in flight |
| `SupervisorTheorems.SecondRestartChangesNothing` | apps/command-supervisor/internal/runtime/manager.go:135-209 | a second restart changes nothing in memory or on disk, whatever the storage would answer |
| `SupervisorRestarts.EveryRestartSucceeds` | apps/command-supervisor/internal/runtime/manager.go:135-209 | over every history of failures and deaths outside the two windows, in which no start goes on after a renamed but failed metadata write, a restart succeeds and every command is recovered, with exactly the events of its log that were not evicted, at most one past what was shown |
| `SupervisorRestarts.AppendReadable` | apps/command-supervisor/internal/runtime/persistence.go:230-295 | an append that fails anywhere but in a new segment's version header leaves a spool that can be read |
| `SupervisorStarts.MissingMetadataBlocksRestart` | apps/command-supervisor/internal/runtime/manager.go:148-151 | the first window: dying in a command's first metadata write leaves a directory that no restart accepts |
| `SupervisorStarts.TornHeaderBlocksRestart` | apps/command-supervisor/internal/runtime/persistence.go:144-147 | the second window: dying inside the version header of a new segment does the same |
| `SupervisorBlocked.BlockedForever` | apps/command-supervisor/internal/runtime/manager.go:135-209 | a disk that cannot be booted cannot be at any later point, whatever the storage answers, and a supervisor that is down then never comes up again |
| `SupervisorBlocked.BlocksExactly` | apps/command-supervisor/internal/runtime/manager.go:135-521 | a step makes a bootable disk unbootable exactly when it leaves a directory without metadata or a segment without its header, gives a request id to a second directory, or makes more directories than a restart accepts |
| `SupervisorFull.FullDiskBlocksRestart` | apps/command-supervisor/internal/runtime/manager.go:350-370 | a run without windows or shared request ids that ends so: with 255 commands, a start whose write is done but reported as failed and one more already admitted leave 257 directories |
| `SupervisorBlocked.RestartNeedsBootable` | apps/command-supervisor/internal/runtime/manager.go:135-209 | a restart that succeeds, whatever the storage answers, started from a bootable disk |
| `SupervisorStarts.IdempotentStart` | apps/command-supervisor/internal/runtime/manager.go:336-370 | over whole histories in which no start goes on after a renamed but failed metadata write, a request id keeps its command: a start with the same specification returns it and creates nothing, another specification conflicts, also after restarts |
| `SupervisorStarts.RequestsStayBijective` | apps/command-supervisor/internal/runtime/manager.go:199-206 | over such histories request ids and commands correspond one to one, at most 256 of them, and no id is on disk twice |
| `SupervisorStarts.LateStartDuplicates` | apps/command-supervisor/internal/runtime/manager.go:336-370 | where it ends: a metadata write that fails after its rename, in a process that lives on, lets a start already admitted create a second command for its id |
| `SupervisorStarts.StartDuplicatesExactly` | apps/command-supervisor/internal/runtime/manager.go:336-402 | a start gives a request id to a second command exactly when it writes metadata for an unbound request id that a directory already carries |
| `SupervisorDuplicates.DuplicatedExactly` | apps/command-supervisor/internal/runtime/manager.go:336-402 | over every run, a request id is on disk twice exactly when some start wrote metadata for an id whose earlier write in the same process life was done and reported as failed |
| `SupervisorDisk.SpoolStaysBounded` | apps/command-supervisor/internal/runtime/persistence.go:230-295 | over every run, whatever fails or dies, the files of a command's spool hold at most 8 MiB less 64 KiB together and 256 KiB each |
| `SupervisorOutput.RecordLayout` | apps/command-supervisor/internal/runtime/persistence.go:210-228 | a record on disk is its number in eight bytes, one byte for the stream, the length in four, and the data |
| `SupervisorReplay.ConnectExactly` | apps/command-supervisor/internal/runtime/manager.go:573-608 | a cursor is invalid iff at or past the next number, expired iff the event after it was evicted, and otherwise answered with the output after it, and one event more iff the record of a failing chunk had reached the disk |
| `SupervisorReplay.ReplayIsExact` | apps/command-supervisor/internal/runtime/manager.go:573-608 | while the spool has not failed, an answer is exactly the output between the cursor and the one it reports |
| `SupervisorReplay.AnswersBeyondExactly` | apps/command-supervisor/internal/runtime/manager.go:573-608 | an answer goes beyond the cursor it reports exactly when the spool failed at a chunk whose record had reached the disk |
| `SupervisorReplay.UnreportedChunkIsAnswered` | apps/command-supervisor/internal/runtime/manager.go:474-492 | such a run: a chunk is stored, its metadata write fails, and a connection returns it although the cursor excludes it |
| `SupervisorReplay.FollowIsGapless` | apps/command-supervisor/internal/runtime/manager.go:573-608 | chaining returned cursors across appends, evictions, failures and restarts concatenates to the command's output without gap or repeat: the events up to each cursor always, whole answers as long as the spool has not failed at a connection |
| `SupervisorOutput.LogIsOutput` | apps/command-supervisor/internal/runtime/manager.go:448-492 | over every run, the log of a command is the stream and the bytes of its chunks whose records landed, in order, numbered from one |
| `SupervisorOutput.ClientsReadOutput` | apps/command-supervisor/internal/runtime/manager.go:573-608 | after any run, while the spool has not failed, a client is answered exactly what the child wrote after its cursor, stream and bytes, up to the end |
| `SupervisorOutput.FollowersReadOutput` | apps/command-supervisor/internal/runtime/manager.go:573-608 | a client that follows a command across appends, evictions, failures, deaths and restarts takes exactly what the child wrote between its first and its last cursor |
| `SupervisorReports.StartAnsweredExactly` | apps/command-supervisor/internal/runtime/manager.go:336-370 | each answer to a start exactly when it is given: the existing command, a conflict, the limit, or a new command with the request's own id, arguments, directory and environment |
| `SupervisorReports.StartAdmittedExactly` | apps/command-supervisor/internal/runtime/manager.go:324-328 | a start is admitted exactly when no write has failed, and its request is kept as it came |
| `SupervisorReports.StepShowsExactly` | apps/command-supervisor/internal/runtime/manager.go:404-521 | what is visible after each step, field by field: a new state exactly when its write succeeded, and the child's own end unless the spool failed |
| `SupervisorReports.SettlesExactly` | apps/command-supervisor/internal/runtime/manager.go:172-192 | what a restart settles on: an error exactly if the metadata is past the retained output or has lost all of it, otherwise the record with the number after the last retained event, lost if it had not ended |
| `SupervisorReports.ShownWasReported` | apps/command-supervisor/internal/runtime/manager.go:336-521 | over every run, a visible command was asked for with exactly its request id and specification, runs only after it was spawned, and shows an exit code or signal only if its child ended with it |
| `CommandManager.Manager.LoadCommands` | apps/command-supervisor/internal/runtime/manager.go:135-209 | loading in place has the outcome, the tables and the disk of the specified restart |
| `CommandManager.Manager.RegisterStart` | apps/command-supervisor/internal/runtime/manager.go:336-402 | the region of a start under the manager's mutex is the specified step, withdrawal after a failed write included |
| `CommandManager.Manager.PersistTransition` | apps/command-supervisor/internal/runtime/manager.go:238-244 | replace the metadata, become unhealthy when that fails |
| `CommandManager.Manager.MarkSpawned` | apps/command-supervisor/internal/runtime/manager.go:404-420 | the running state is shown only when it is durable; output is collected either way |
| `CommandManager.Manager.StartFailed` | apps/command-supervisor/internal/runtime/manager.go:426-440 | a child that could not be started ends as lost, shown only when durable |
| `CommandManager.Manager.CollectChunk` | apps/command-supervisor/internal/runtime/manager.go:474-492 | append the chunk with its stream to the files of the command's spool first, advance the metadata second, stop at the first failure |
| `CommandManager.Manager.CollectEnd` | apps/command-supervisor/internal/runtime/manager.go:494-521 | the end of a child, lost when its spool failed |
| `CommandManager.Manager.ConnectAfter` | apps/command-supervisor/internal/runtime/manager.go:573-608 | the answer of a connection and its repair of the files of the spool |
| `Specification.Normalize` | apps/command-supervisor/internal/runtime/manager.go:246-291 | a request is accepted exactly when it meets the limits; its directory is what every function that obeys the laws of cleaning makes of it, the workspace if none is given; its environment becomes the canonical list, whatever order the map is walked in |
| `Specification.AcceptableExactly` | apps/command-supervisor/internal/runtime/manager.go:246-274 | the limits of a request in figures: lengths, counts, forbidden bytes, and the cleaned directory |
| `Specification.CleaningObeysLaws` | apps/command-supervisor/internal/runtime/manager.go:258 | cleaning ignores doubled and final slashes and dots, takes back the component before two dots and nothing at the root, and leaves plain paths alone |
| `Specification.CleaningIsUnique` | apps/command-supervisor/internal/runtime/manager.go:258 | those laws determine it: any function that obeys them cleans every rooted path alike |
| `Specification.ClimbingExactly` | apps/command-supervisor/internal/runtime/manager.go:258-262 | down into the workspace, some times up and down again is accepted exactly when it never climbs above the workspace, or comes back to it by name |
| `Specification.CanonicalUnique` | apps/command-supervisor/internal/runtime/manager.go:263-284 | the sorted list is the same for every order of walking the map |
| `Specification.CanonicalInjective` | apps/command-supervisor/internal/runtime/manager.go:263-284 | different environments have different lists, because keys hold no "=" |
| `Specification.SameSpecExactly` | apps/command-supervisor/internal/runtime/manager.go:246-291 | specifications agree exactly when arguments, cleaned directory and environment agree |
| `Specification.AcceptedCwdIsConfined` | apps/command-supervisor/internal/runtime/manager.go:252-262 | an accepted working directory is the workspace or beneath it, by plain components only |
| `Registry.RegistryTable.RegisterExposure` | apps/workload-router/internal/auth/registry.go:167-233 | the checks and the region of a registration, as the specified step |
| `Registry.RegistryTable.ConsumeCapability` | apps/workload-router/internal/auth/registry.go:270-283 | first region of an exchange, in place |
| `Registry.RegistryTable.StoreSession` | apps/workload-router/internal/auth/registry.go:289-302 | second region of an exchange, in place |
| `Registry.RegistryTable.ValidateSession` | apps/workload-router/internal/auth/registry.go:314-328 | the region of an authentication, in place |
| `Registry.RegistryTable.Acquire` | apps/workload-router/internal/auth/registry.go:333-348 | take a slot and hand out its release closure, in place |
| `Registry.SlotClosure.Run` | apps/workload-router/internal/auth/registry.go:349-358 | the first run of a release closure takes one off the count if the registration stands, any other run nothing |
| `Registry.RegistryTable.TrackConnection` | apps/workload-router/internal/auth/registry.go:364-375 | track a connection, in place |
| `Registry.RegistryTable.UntrackConnection` | apps/workload-router/internal/auth/registry.go:376-382 | what closing a tracked connection does to the tables |
| `Registry.RegistryTable.RevokeRef` | apps/workload-router/internal/auth/registry.go:399-427 | take a registration out, walking the credential tables |
| `RegistryRuns.ApplyKeeps` | apps/workload-router/internal/auth/registry.go:167-445 | every region, in any interleaving, keeps hosts and exposures a bijection, capabilities unconsumed and of live registrations, sessions issued once, and a capability between its two regions in the hands of one exchange |
| `RegistryTheorems.Reachable` | apps/workload-router/internal/auth/registry.go:138-445 | every world that any interleaving reaches satisfies the invariant from which the results below start |
| `RegistryTheorems.AuthenticatedSafely` | apps/workload-router/internal/auth/registry.go:261-329 | an accepted session goes back to one registration of that host and generation that still stands, to exactly one consumption of its capability before its expiry and to exactly one exchange, and has not expired |
| `RegistryTheorems.OneSessionPerCapability` | apps/workload-router/internal/auth/registry.go:261-305 | no capability ever yields two sessions, although the mutex is given up between its regions |
| `RegistryTheorems.TablesAgree` | apps/workload-router/internal/auth/registry.go:206-232 | hosts and exposures correspond one to one, and every capability and session belongs to a live generation and ends no later |
| `RegistryTheorems.RegistrationGrantsAccess` | apps/workload-router/internal/auth/registry.go:167-329 | a registration exchanged in time does authenticate its session at its host, once, and no other exposure |
| `RegistryLaws.AccessIsGranted` | apps/workload-router/internal/auth/registry.go:167-329 | in any reachable world the steps of a registration, its timely exchange and an authentication lead to an accepted session |
| `RegistryLaws.OthersUntouched` | apps/workload-router/internal/auth/registry.go:167-445 | isolation: what is done for one registration leaves another's exposure, host, slots, connections and unexpired grants as they are, and gives it no new ones |
| `RegistryLaws.RegisteredExactly` | apps/workload-router/internal/auth/registry.go:187-233 | a registration is entered exactly when the registry is open, its id and host are free and it has not expired, with its own data, a capability until the earlier of its expiry and the bootstrap time, and nothing else changed |
| `RegistryLaws.FoundExactly` | apps/workload-router/internal/auth/registry.go:237-259 | a host is looked up to exactly its standing, unexpired exposure, and an expired one is reported as such |
| `RegistryLaws.ConsumedExactly` | apps/workload-router/internal/auth/registry.go:270-283 | a capability is spent exactly when it is stored for this standing registration and has not expired; it leaves the table then or when it is stale, and no other does |
| `RegistryLaws.StoredExactly` | apps/workload-router/internal/auth/registry.go:289-302 | a session is stored exactly for a standing, unexpired exposure, until the earlier of its expiry and the session time |
| `RegistryLaws.AcceptedExactly` | apps/workload-router/internal/auth/registry.go:314-328 | a session is accepted exactly when it is stored for this standing registration and has not expired; a stale one leaves the table |
| `RegistryLaws.SlotTakenExactly` | apps/workload-router/internal/auth/registry.go:333-348 | a slot is refused to an exposure that does not stand or has expired, and otherwise granted below the limit, counting one |
| `RegistryLaws.TrackedExactly` | apps/workload-router/internal/auth/registry.go:364-382 | a connection is tracked exactly for a standing, unexpired exposure, and forgotten for a standing one, and no other connection is touched |
| `RegistryTheorems.OldGenerationsStayInert` | apps/workload-router/internal/auth/registry.go:349-432 | once a registration that was issued does not stand any more, its releases, closes and expiries change nothing and none of its grants reappears, whatever is registered later |
| `RegistryTheorems.IssuedStandsOrWasRevoked` | apps/workload-router/internal/auth/registry.go:384-432 | a registration that was issued stands or was revoked |
| `RegistryTheorems.SlotsAreConserved` | apps/workload-router/internal/auth/registry.go:333-359 | a live exposure's count is the number of its own unreleased closures, within its limit |
| `RegistryTheorems.ReleaseCountsOnce` | apps/workload-router/internal/auth/registry.go:349-359 | a closure takes one off the count of a live exposure when it first runs, which the guard at zero never hides, and nothing after that |
| `RegistryTheorems.AcquiredExactly` | apps/workload-router/internal/auth/registry.go:333-348 | a slot is granted exactly to a standing, unexpired exposure with fewer open closures than its limit |
| `RegistryTheorems.RevocationIsComplete` | apps/workload-router/internal/auth/registry.go:364-432 | when the revocation that removed a registration is done, on its own or as part of closing, all its tracked connections are closed and no grant of it exists, then and ever after |
| `RegistryTheorems.SecondRevokeReturnsEarly` | apps/workload-router/internal/auth/registry.go:399-406 | a revocation that comes second returns while connections of the registration are still open |
| `RegistryTheorems.LeavesOpenExactly` | apps/workload-router/internal/auth/registry.go:384-432 | a revocation returns with a connection of the registration open exactly when another thread removed the registration and still holds an open one |
| `RegistryTheorems.CloseIsFinal` | apps/workload-router/internal/auth/registry.go:434-445 | once closing has returned, all four maps are empty for good and every registration is refused |
| `RegistryTheorems.CloseLeavesOpenExactly` | apps/workload-router/internal/auth/registry.go:434-445 | closing returns with a connection open exactly when a revocation of another thread has it in its hands and has not closed it |
| `RegistryTheorems.CloseLeavesOnlyRevocations` | apps/workload-router/internal/auth/registry.go:434-445 | once closing has returned, at every later point a connection is closed or in the hands of a revocation; when none is left, all are closed |
| `RegistryTheorems.CloseReturnsEarly` | apps/workload-router/internal/auth/registry.go:434-445 | a run in which closing passes over a registration that is being revoked and returns before that revocation has closed anything |
| `RegistryConnections.StepKeeps` | apps/workload-router/internal/auth/registry.go:333-445 | every region keeps each tracked connection closed, in a live exposure's set, or in the hands of the one revocation that removed it |
| `Transfers.TransferManager.BeginTransfer` | apps/control-plane-go/internal/backend/kubernetes/transfer.go:52-75 | begin a transfer in place, with its refusals and its deadline |
| `Transfers.Operation.Finish` | apps/control-plane-go/internal/backend/kubernetes/transfer.go:77-95 | only the first finish gives the permit back, counts the wait group down and signals the end, in place |
| `Transfers.TransferManager.BlockLease` | apps/control-plane-go/internal/backend/kubernetes/transfer.go:97-106 | block a lease and remember what runs for it |
| `Transfers.TransferManager.StopLease` | apps/control-plane-go/internal/backend/kubernetes/transfer.go:97-140 | stopping blocks the lease and succeeds exactly when every operation active for it is among those that signal their end before the caller gives up |
| `TransferRuns.PermitsAreConserved` | apps/control-plane-go/internal/backend/kubernetes/transfer.go:52-95 | in every run the global count is the sum of the counts per lease and the number of running operations, within the limits, without zero entries; no deadline is past its lease's expiry |
| `TransferRuns.GivenBackOnce` | apps/control-plane-go/internal/backend/kubernetes/transfer.go:77-95 | over any run an operation that has ended gave its permit back exactly once, however often it was finished, and any other never |
| `TransferRuns.Reachable` | apps/control-plane-go/internal/backend/kubernetes/transfer.go:48-140 | every world that any interleaving of transfers, teardowns and closing reaches satisfies the invariant from which the results below start |
| `TransferRuns.BegunExactly` | apps/control-plane-go/internal/backend/kubernetes/transfer.go:52-75 | a transfer begins exactly when its lease is not blocked, the manager is open and fewer run than the limits allow |
| `TransferRuns.StopIsABarrier` | apps/control-plane-go/internal/backend/kubernetes/transfer.go:97-140 | once stopping a lease has returned without an error nothing runs for it, then or at any later step, and every begin is refused |
| `TransferRuns.StopsIsIdle` | apps/control-plane-go/internal/backend/kubernetes/transfer.go:97-140 | from the moment a stop blocks its lease, through any steps, once the operations it waited for have signalled nothing is left running for the lease |
| `TransferRuns.TransferCompletes` | apps/control-plane-go/internal/backend/kubernetes/transfer.go:52-95 | a transfer that begins runs under its own lease until the earlier of the expiry and the timeout, and once it has finished the tables are as before |
| `TransferRuns.StopWaitsForItsOwn` | apps/control-plane-go/internal/backend/kubernetes/transfer.go:131-140 | a stop waits for operations of its own lease only, and can return once they have signalled |
| `TransferRuns.TeardownDeletesIdleClaims` | apps/control-plane-go/internal/backend/kubernetes/backend.go:267-297 | release, delete and the sweep delete a claim only with no transfer in flight for it |
| `TransferRuns.TeardownCompletes` | apps/control-plane-go/internal/backend/kubernetes/backend.go:430-454 | a teardown of leases without transfers goes through by itself and deletes exactly their claims |
| `TransferRuns.CloseIsABarrier` | apps/control-plane-go/internal/backend/kubernetes/transfer.go:109-129 | once closing has returned without an error no transfer runs, for good |
| `TransferRuns.DirectDeleteIsNotABarrier` | apps/control-plane-go/internal/backend/kubernetes/backend.go:471-473 | the lookup by idempotency key can delete an expired claim under a transfer that has not returned yet |
| `TransferRuns.ExpiredTransfersAreOverdue` | apps/control-plane-go/internal/backend/kubernetes/backend.go:471-473 | every transfer in flight under a claim that is deleted as expired is past its deadline |
| `TransferRuns.DeletesUnderTransferExactly` | apps/control-plane-go/internal/backend/kubernetes/backend.go:471-473 | such a deletion is under a transfer exactly when a transfer past its deadline has not returned yet |
| `TransferRuns.AbandonsUnderTransferExactly` | apps/control-plane-go/internal/backend/kubernetes/backend.go:174-185 | after any run, an acquisition that fails deletes its claim under a transfer exactly when an operation begun before the acquisition returned has not finished |
| `TransferRuns.AbandonIsIdle` | apps/control-plane-go/internal/backend/kubernetes/backend.go:174-185 | in every run that begins transfers of a lease only after its acquisition returned, a failing acquisition deletes an idle claim |
| `TransferRuns.AbandonIsNotABarrier` | apps/control-plane-go/internal/backend/kubernetes/backend.go:178-185 | a run in which it does: a transfer begins as soon as the claim stands, and the acquisition fails after that |
| `Listing.CollectLeases` | apps/control-plane-go/internal/backend/kubernetes/backend.go:219-233 | the loop over a page of claims computes the page's leases, deleted claims passed over before they are read |
| `Listing.CursorRoundTrip` | apps/control-plane-go/internal/backend/kubernetes/cursor.go:53-98 | a cursor opens for exactly the request it was made for, with its time and continuation, if the time is positive and the text within 8 KiB |
| `Listing.PageRefinesFilter` | apps/control-plane-go/internal/backend/kubernetes/backend.go:207-233 | a page is the reference filter of its part of the snapshot, and fails exactly when a claim that has to be read cannot be |
| `Listing.PageExactly` | apps/control-plane-go/internal/backend/kubernetes/backend.go:189-233 | a page holds the filter of its part of the snapshot, at the time and from the place its cursor carries, or from the start as of now |
| `Listing.ListedExactly` | apps/control-plane-go/internal/backend/kubernetes/backend.go:207-233 | a tenant is listed exactly the records of claims with its own labels, of the pool asked for, that are not being deleted and end later |
| `Listing.ListErrorsExactly` | apps/control-plane-go/internal/backend/kubernetes/backend.go:189-218 | the limit, the pool, the cursor and the API are checked in this order, each with its own error |
| `Paging.RequestExactly` | packages/sdk-go/client.go:132-161 | one request of the pager succeeds exactly under the stated conditions and brings its part of the filter and the next cursor |
| `Paging.Pager.Next` | packages/sdk-go/client.go:187-220 | yields the next lease of the filter, across empty pages, or ends |
| `Paging.Traverse` | packages/sdk-go/client.go:163-223 | the whole traversal ends, never reports a repeated cursor, hands out a prefix of the filter in order, and all of it exactly when options, claims and cursors allow and the API does not fail |
| `Claims.ClaimStore.FindByIdempotencyKey` | apps/control-plane-go/internal/backend/kubernetes/backend.go:456-478 | the loop answers with the first listed claim that is neither being deleted nor expired: its record, or an error if it cannot be read; without one the key is vacant and every expired claim whose deletion was accepted is marked |
| `Claims.ClaimStore.Acquire` | apps/control-plane-go/internal/backend/kubernetes/backend.go:152-187 | each answer exactly when it is given: a replay iff a good claim is reached before an unreadable one, a failure iff an unreadable one is, or none and the new claim is not made or not ready, and otherwise a new lease with its own tenant, pool and times; an unready claim is marked for deletion; a key never has two good claims, then or later |
| `Claims.GoodClaimsOnlyFade` | apps/control-plane-go/internal/backend/kubernetes/backend.go:267-297 | passing time, deletions of any claims and their final removal keep a key at no more than one good claim |
| `ClaimRuns.OneGoodClaimPerKey` | apps/control-plane-go/internal/backend/kubernetes/backend.go:152-187 | over every history of acquisitions step by step, releases, deletions, sweeps, removals and passing time no two good claims share a scope and an idempotency key |
| `ClaimRuns.TurnDecides` | apps/control-plane-go/internal/backend/kubernetes/backend.go:456-478 | an acquisition's lookup, step by step and undisturbed, finds the key vacant exactly when the lookup in place does |
| `ClaimRuns.TurnCreates` | apps/control-plane-go/internal/backend/kubernetes/backend.go:166-185 | a vacant key gets one new claim with its tenant, pool and times, marked for deletion exactly if it does not become ready and the deletion is accepted |
| `Claims.ClaimStore.Release` | apps/control-plane-go/internal/backend/kubernetes/backend.go:267-288 | a release ends exactly an own, readable claim all of whose running transfers signal their end, with the status its expiry gives it, and none is left running; it changes no claim otherwise |
| `Claims.ClaimStore.Delete` | apps/control-plane-go/internal/backend/kubernetes/backend.go:289-297 | a delete ends exactly an own claim all of whose running transfers signal their end, and none is left running, or reports why not |
| `Claims.ClaimStore.SweepExpired` | apps/control-plane-go/internal/backend/kubernetes/backend.go:430-454 | a sweep without an error leaves no claim standing that had expired when it came to it, touches no other claim, and deletes only where nothing is left running; an error has an unreadable or obstructed claim as its cause |
| `Leases.ProcessBackend.FindByIdempotencyKey` | apps/control-plane/src/backend/process-lease-backend.js:66-76 | lookup by key, deleting an expired lease on the way, in place |
| `Leases.ProcessBackend.ListActive` | apps/control-plane/src/backend/process-lease-backend.js:78-91 | marks every expired lease and collects exactly the active ones |
| `Leases.ProcessBackend.ReleaseLease` | apps/control-plane/src/backend/process-lease-backend.js:142-150 | release, in place |
| `Leases.ProcessBackend.DeleteLease` | apps/control-plane/src/backend/process-lease-backend.js:186-192 | forget a lease and its mapping, if it is its own |
| `Leases.ReleasedExactly` | apps/control-plane/src/backend/process-lease-backend.js:142-150 | a release succeeds exactly for the tenant's own active, unexpired lease, which is then released and its key free, and touches no other lease |
| `Leases.DeletedExactly` | apps/control-plane/src/backend/process-lease-backend.js:152-192 | a delete succeeds exactly for the tenant's own lease, which is then gone and its key free, and touches no other lease |
| `QuotaRuns.QuotasHold` | apps/control-plane/src/backend/quota-lease-backend.js:12-35 | no run takes a scope, a consumer or a pool over its limit or gives a key two active leases |
| `QuotaRuns.AcquisitionExactly` | apps/control-plane/src/backend/quota-lease-backend.js:12-35 | undisturbed, with a clock that may move between its steps, an acquisition is a replay exactly when the key's lease is good as it looks, and otherwise refused exactly when the leases good as it counts leave no room or the time to live is out of range |
| `QuotaRuns.AcquisitionStores` | apps/control-plane/src/backend/process-lease-backend.js:42-63 | an acquisition that ends in a new lease has stored it, active, under its key, with its pool and its time to live from when it was made; nothing else comes in, and leases good throughout are left alone |
| `QuotaRuns.StoredIsReplayed` | apps/control-plane/src/backend/process-lease-backend.js:21-40 | until it expires, an undisturbed acquisition of the same key is a replay of it |
| `QuotaRuns.LookingTurn` | apps/control-plane/src/backend/quota-lease-backend.js:14-17 | whatever came in between, each look at the key replays the lease that holds it and goes on exactly if none does |
| `QuotaRuns.DecidingTurn` | apps/control-plane/src/backend/quota-lease-backend.js:18-34 | whatever came in between, an acquisition is refused exactly when a count it took has reached its limit or the time to live is out of range |
| `QuotaRuns.FindKeeps` | apps/control-plane/src/backend/process-lease-backend.js:21-40 | looking a key up leaves its active lease or no active lease of that key at all |
| `QuotaRuns.ChainAdvances` | apps/control-plane/src/backend/quota-lease-backend.js:73-78 | every step brings the chain on, succeed or fail, and loses, repeats or reorders no acquisition |
| `QuotaRuns.ChainDrains` | apps/control-plane/src/backend/quota-lease-backend.js:73-78 | left to itself the chain settles everyone who waits, in order, within a known number of steps |
| `Shell.ShellCommand` | apps/control-plane-go/internal/backend/kubernetes/exec.go:144-161 | a command line is built exactly when all names are identifiers, from the keys in byte order |
| `Shell.QuoteReadsBack` | apps/control-plane-go/internal/backend/kubernetes/exec.go:162 | a quoted value is read by the shell's quoting rules as exactly one word, the value |
| `Shell.CommandLineReadsBack` | apps/control-plane-go/internal/backend/kubernetes/exec.go:144-162 | the command line is read as changing the directory, exporting each variable with its value, and then the caller's own text |
| `TransferMarker.ReadMarker` | apps/control-plane-go/internal/backend/kubernetes/transfer.go:262-278 | the byte-by-byte loop reads the line that ends within 256 bytes and takes nothing behind it |
| `TransferMarker.DownloadReadsBack` | images/runtime/file-transfer/main.go:132-137 | reading what a download prints gives its size and digest and leaves exactly the body |
| `TransferMarker.RefusalReadsBack` | images/runtime/file-transfer/main.go:35-43 | an error code without blanks is read back from a failed download exactly when it has at most 246 bytes, and is an invalid marker otherwise |
| `TransferMarker.BoundedBuffer.Write` | apps/control-plane-go/internal/backend/kubernetes/transfer.go:380-391 | the buffer holds the first bytes of all that was written, up to its limit, and knows whether there were more |
| `TransferMarker.JudgeUpload` | apps/control-plane-go/internal/backend/kubernetes/transfer.go:200-226 | an upload is judged from the buffer as specified on all that was printed |
| `TransferMarker.UploadJudgedExactly` | apps/control-plane-go/internal/backend/kubernetes/transfer.go:203-226 | an abort is reported before anything else, a short body next, then what the helper said; success needs an OK marker and a clean end |
| `TransferMarker.UploadReadsBack` | apps/control-plane-go/internal/backend/kubernetes/transfer.go:200-226 | the caller of an upload is told the code the helper printed, if it fits, even though the run failed, and success exactly if the run ended well |
| `TransferMarker.UploadAnsweredExactly` | apps/control-plane-go/internal/backend/kubernetes/transfer.go:211-219 | success without size and digest is read from the upload's own line alone, with or without its newline |
| `TransferMarker.ReadersAgree` | apps/control-plane-go/internal/backend/kubernetes/transfer.go:211-278 | on one line with its newline the upload's reader and the byte loop read the same marker |
| `TransferMarker.DownloadsAreUnambiguous` | apps/control-plane-go/internal/backend/kubernetes/transfer.go:262-298 | two downloads that agree on the wire agree in size, digest and body |

## Left out

- `CommandManager.Manager.LoadCommands`: reads the sorted segments of each directory rather than its files, because `SpoolDirectory` proves the read of the files against them, as `ConnectAfter` uses it.
- `CommandManager.Manager.RegisterStart`: does not model a rename that fails for want of a valid state directory differently from other failures, because the program treats all failures alike.
- `SupervisorReplay.FollowIsGapless`: does not promise gapless whole answers once the spool has failed, because an event past the reported cursor is then returned, and returned again.
- `SupervisorStarts.IdempotentStart`: excludes a start that goes on after its metadata write failed with the rename done, because the property is false there (`LateStartDuplicates`).
- `SupervisorRuns.RunKeeps`: is stated while fewer than 2^64 - 2 events were appended to a command, because the sequence number then wraps; `SequenceAdvancesExactly` gives the exact condition.
- `Paging.Traverse`: starts without a cursor, because a cursor supplied by the caller carries another snapshot and another time.
- `TransferRuns.StopIsABarrier`: says nothing of a stop that gives up, after which the lease stays blocked and its claim stays.
- `Claims.ClaimStore.Acquire`: runs without other calls in between; `ClaimRuns` has the steps of an acquisition with any other calls between them.
- `ClaimRuns.OneGoodClaimPerKey`: has a clock that does not go back, because a claim can otherwise be good again after it was passed over as expired; one process acquires, as the mutex has it.
- `Claims.ClaimStore.Release`: takes which transfers signal before the caller gives up as a parameter, because the wait is not one step; `TransferRuns.TeardownDeletesIdleClaims` has the other calls in between. The same holds for `Delete` and `SweepExpired`.
- `QuotaRuns.QuotasHold`: takes acquisitions through the quota wrapper only, because the process backend does not check limits itself; the promise chain is a queue with one holder.
- `RegistryTheorems.AuthenticatedSafely`: has a generation counter that does not wrap at 2^64, because each registration costs one step of it.
- `Specification.Normalize`: takes the length of the JSON text as a parameter, because JSON is not modelled.
- Timestamps, the specification hash's text and unknown state strings in persisted metadata: the metadata is a typed record or absent.
- The limit on the size of persisted metadata and all other causes of a failed write: they are verdicts of the environment.
- Waking of waiting clients, standard input, signals and killing: they change no record.
- The response size limit of a connection: the spool budget does not guarantee it when events are tiny.
- Process spawning, pipes, peer credentials, cgroups and the lock on the state directory: a child is its chunks, the end of its output and its exit; one supervisor at a time is assumed.
- The exclusivity of directory entries under crash and the semantics of sync: an append writes a prefix of its bytes, a rename is atomic.
- Canonical hosts, credential shapes, events of the registry and the WebSocket flag of an exposure: a registration carries its canonical host or none.
- Cancellation of transfer contexts: an operation may finish at any time.
- Readiness polling, runtime checks, pod execution and the remote commands of transfers: foreign calls.
- Label values longer than the API allows, and list calls across changed snapshots: a continuation keeps its snapshot or has expired.
- Query parsing of the list endpoint: it checks the same limits again and gives a blank pool another error code.
- Limits of the process backend's other calls, its files and its shell: they do not touch the lease tables beyond expiry.
- Double quotes, expansions, patterns and comments outside quotes in the shell reader: the reader refuses them, and no command built here contains them before the caller's own text.
- HTTP handlers, the reverse proxy, the other client libraries and the Kubernetes JavaScript backend: they repeat the behaviour above or are plumbing.

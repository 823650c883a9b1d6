# Verification of PX's durable protocol state

PX is a peer-to-peer file exchange with a rendezvous server and an agent. Its difficult
guarantees are about whole runs: tables that are pruned while readers page through them,
commands that must not run twice although their receipts are evicted, directories that
must not leak across power loss, queues that must not lose a wakeup. This project models
that logic in Dafny and proves those guarantees. `dafny verify dfyconfig.toml` checks all of it.

## Components

**Enrollment ledger** (`internal/membership`). `FactLog` is the append-only fact log with its
replay floor, the reservation loops and replay. `CommandId` and `Commands` are the adapter
receipts with their fence of ascending identifiers. `Ledger` specifies each transaction on the
tables; `LedgerInvariant`, `LedgerOperations` and `LedgerRuns` prove what every operation keeps
and what follows for every run from any sound state; `LedgerStart` proves that the migration
starts servers in such states; `LedgerReceipts`, `LedgerLimits` and `LedgerRevocation` add what
becomes of receipts, of the configured limit and stored keys, and of one revocation.
`MembershipStore` is the store object, with loops and writes in the order of the code, proved
against those specifications. Each transaction is one atomic step: calls that commit twice are
two steps of a run (`LedgerRuns.CallsAreRuns`). An error leaves the tables as they were, except
where the code commits first.

**Staging store** (`internal/getcleanup/store.go`). `StagingDisk` describes one staged download
with what a power loss may leave of each directory entry; `Staging` runs the protocol step by
step. Every disk change is recorded in a trace, so "at every crash point" is a statement
about every element of the trace. With faults allowed any step may fail, and a failed database write
may have been applied or not. `PowerLoss` stops the machine at any element of the trace.
`StagingQuota` puts all stages together: the quota over any interleaving and the reaping in batches.

**Watch hub** (`internal/contextwatch/watch.go`, client side in `internal/cli/cli.go`).
`WatchEvents` is the wire format, `WatchHub` the projections and queues, `WatchStreams` the
invariant and its consequences, `WatchService` the two objects. A join that replaces a peer
publishes the old peer's offline event before it stores the new one
(`internal/contextwatch/watch.go:327-336`). The object does so too; between the two events the
specification counts the label as free, as the events tell it, and nobody can look at the map.

**Windows ACL validator** (`internal/put/windows_acl.go`). `WindowsAcl` proves the one-pass byte
parser of access lists against a reference that speaks of lists of entries and how they print.
`WindowsClaims` does the same for resource attributes: offsets into the claim, bounded UTF-16,
SIDs; `WindowsClaimsPrint` has the writer they are read back from. The layouts are those of
MS-DTYP, sections 2.4.2.2, 2.4.4.1, 2.4.4.15, 2.4.5 and 2.4.10.1.

**Recent-observation journal** (`internal/recent/recent.go`). `Journal` has the table and its
statements, `JournalRefinement` the comparison with a journal that evicts nothing, `RecentStore`
the object.

**Doorbell broker** (`internal/adapterapi/broker.go`, sender in `internal/membership/store.go`).
`Doorbell` is a state machine over every step another goroutine can observe; `DoorbellBroker`
has the critical sections with their loops.

**Root authority** (`internal/contexts/manager.go`). `RootAuthority` is a state machine over the
critical sections of operations and configuration, `RootManager` the object.

`Basics`, `Outcomes`, `Text`, `Names` and `RowOrder` are shared vocabulary. Strings are byte strings.

## Results worth knowing

- The invite rate limit holds on any clock. The rate query counts records by their time and has
  only a lower bound, so a clock that steps back cannot admit a sixth creation.
- Redeeming an invite commits the facts it pruned even when it then answers unavailable
  (`internal/membership/invites.go:359-380`). The ledger invariant survives this.
- Revoking a member that has open invites, on behalf of an actor of type device, aborts on the
  audit trigger of `internal/database/migrations/server/00005_enrollment_invites.sql`. The store
  accepts such an actor, but its only caller passes `local` (`internal/serveradmin/handler.go:331`).
- Staging keeps a stage forever, as documented, when its marker never became durable, when a
  foreign entry lies in it, or when its data exceeds the declared size. There is one more case: an
  attempt removes the data, its sync fails, the retry finds nothing to remove and so does not
  sync, removes the marker, and a crash brings the data back. `MarkerRemovalIsSafeIffSynced` gives
  the exact condition, and `SessionsThenRecover` shows that without such a retry recovery
  converges over any number of power losses, apart from the three cases above.
- A fault-free reaping round examines eight rows of a directory, and since those it keeps are put
  off, eight rounds reach every row the quota admits.
- Waiting enrollments never outgrow the configured limit, so a snapshot overflows only on a server
  started with a limit below its waiting rows. Keys are checked when an enrollment is requested, so
  `invalid_enrollment_key` needs a row that some other program wrote.
- The journal lists what its unbounded history would until an evicted key comes back. A returning
  key goes unnoticed exactly when it is older than all 64 rows its context lists and expires no
  row of any context.
- A peer identity spelled with line breaks passes the checks of the journal's code and fails on its
  schema (`internal/database/migrations/agent/00011_recent_observations.sql:8`).
- The notification channel needs one place: with none, a ring between two waits is lost.
- The doorbell runner evaluates `b.done` when it first runs, not when it is launched
  (`internal/adapterapi/broker.go:33-60`). A start, a stop whose context expires before the runner
  has run, and another start leave two runners with one channel, and the second close panics. This
  happens only if a start finds an earlier runner still to begin.
- A local operation may begin between the two halves of a context removal and outlive the
  context. Its roots are frozen exactly when it does not begin there. Non-local operations cannot.
- A DACL longer than 65535 bytes is accepted when its size field matches modulo 65536.

## Assumptions

- Random identifiers, codes, invite secrets and stream identities are fresh when drawn. Signatures, credentials,
  fingerprints and verifiers are injective. Key checks on the caller are outside.
- `AUTOINCREMENT` numbers are consecutive and never reused, as the insert-only tables give them.
- Times are whole seconds (milliseconds inside command identifiers). Machine integers are wide enough for all counters
  except where a width is part of the format.
- SQL `order by`, `limit` and unique columns mean what SQL says; the database has one connection.
- On disk, a created or removed entry becomes durable with the sync of its directory; a file's
  content with its own sync. Before that a crash may settle every entry independently.
- A committed database row survives power loss. The database runs in WAL mode and sets no synchronous
  pragma (`internal/database/database.go:71-73`), so this rests on the default of its SQLite build.
- A Go `int` has 64 bits, so offsets of 32 bits cannot turn negative.
- The Go scheduler may interleave goroutines at every lock, channel operation and database call.

## Model

| member | source | states |
|---|---|---|
| FactLog.AppendKeepsWellformed | internal/membership/facts.go:271-286 | an append keeps the numbers consecutive, the counter at the last of them, and the retained rows the part of the ever-appended history after the floor |
| FactLog.PruneOneFactPrefix | internal/membership/facts.go:363-392 | the oldest row goes exactly when it is no waiting admission and either there is pressure or it is expendable; the replay floor follows it and nothing else changes |
| FactLog.EnsureFactCapacity | internal/membership/facts.go:325-361 | the loop terminates; it answers yes exactly when the rows before the first waiting admission cover the excess, and then removes just that many, otherwise the whole free prefix |
| FactLog.FreePrefixAfterDrop | internal/membership/facts.go:363-392 | pruning part of the free prefix leaves exactly the rest of it free |
| FactLog.PruneAged | internal/membership/facts.go:394-422 | repeated pruning stops after the longest prefix of rows that are expendable when their turn comes, and reports its length |
| FactLog.AgedPruningKeepsTheTarget | internal/membership/facts.go:363-392 | the last fact aged pruning takes is past the 30-day retention, or at least 16384 unreserved facts remain |
| FactLog.ReplayIsHistory | internal/membership/facts.go:110-167 | a replay read answers from the history alone: invalid for impossible bounds, expired exactly for a cursor below the floor, otherwise the next slice of everything ever appended; a page short of the high-water mark is not empty |
| FactLog.ScanPage | internal/membership/facts.go:146-166 | the row scan builds exactly the requested slice, in order, and no more rows than the limit |
| CommandId.CanonicalHyphens | internal/membership/adapters.go:719-729 | a canonical identifier has its hyphens at the four fixed places and nowhere else |
| CommandId.CanonicalOrderIsTimeOrder | internal/membership/adapters.go:719-729 | string order of canonical version-7 identifiers is the order of their 128-bit values and never contradicts their embedded times |
| Commands.RoomIsAlwaysFound | internal/membership/adapters.go:309-331 | at the receipt cap some receipt is settled, because at most 1024 are admitted: an eviction candidate always exists |
| Commands.RoomKeeps | internal/membership/adapters.go:309-331 | making room evicts one settled receipt or none, never an admitted one, and leaves room for one more |
| Commands.FenceAdvances | internal/membership/adapters.go:287-347 | an identifier beyond the fence was never admitted, and moving the fence to it again covers every identifier its adapter had admitted |
| Commands.AdmissionKeeps | internal/membership/adapters.go:258-348 | admission keeps all registry invariants, adds at most its own key to the record of admissions, rejects nothing already admitted, and never answers receipt_capacity |
| Commands.AdmittedKeyIsNeverReadmitted | internal/membership/adapters.go:258-348 | a key that was admitted once is never admitted again, whatever was evicted or pruned since: the registry does not change |
| Commands.RejectForKeeps | internal/membership/adapters.go:644-653 | no admitted command of the enrollment remains but the excepted one, every other receipt stays as it was, and the registry stays valid |
| Commands.RejectOneKeeps | internal/membership/adapters.go:612-627 | the executing command is rejected, every other receipt stays as it was, and the registry stays valid |
| Commands.CommitForKeeps | internal/membership/adapters.go:514-610 | the command is committed for the first time, no command of its enrollment stays admitted, and each enrollment has at most one commit |
| Commands.RemoveSettledKeeps | internal/membership/adapters.go:322-331 | evicting a settled receipt keeps every invariant and revives nothing |
| Commands.PruneFromKeeps | internal/membership/adapters.go:707-717 | pruning deletes only settled receipts past retention and keeps every admitted one |
| Commands.AdaptersKeep | internal/membership/adapters.go:88-206 | changes of adapters that leave every fence in place keep the registry valid and its receipts as they are |
| Commands.LaterIsTransitive | internal/membership/adapters.go:258-348 | what one transaction may do to receipts composes over many: a settled receipt stays as it is or goes |
| LedgerInvariant.WaitingCanSettle | internal/membership/facts.go:288-309 | the order check accepts the expiry and the approval of every waiting enrollment, since its admission is still retained and nothing else about it is |
| LedgerInvariant.ActiveCanBeRevoked | internal/membership/facts.go:288-309 | the order check accepts the revocation of every active member, including members by invite, whose log may hold nothing |
| LedgerInvariant.DropKeepsLives | internal/membership/facts.go:363-392 | pruning a free prefix takes no fact that a later settlement needs |
| LedgerInvariant.AdmissionKeepsLog | internal/membership/store.go:219-252 | an admission after a reservation of three slots keeps facts + 2*pending + active members within 16832 |
| LedgerInvariant.EnrollKeepsLog | internal/membership/store.go:387-414 | an approval turns two reserved slots into a fact and an active member: the bound is kept without a check |
| LedgerInvariant.RevocationKeepsLog | internal/membership/store.go:664-684 | a revocation turns the slot of an active member into its fact |
| LedgerInvariant.JoinKeepsLog | internal/membership/invites.go:359-395 | a member by invite takes the one slot reserved for its later revocation |
| LedgerInvariant.ExpireOneKeepsLog | internal/membership/store.go:697-731 | an expiry always passes the order check, frees one of two reserved slots and removes the enrollment from the folded log |
| LedgerInvariant.ReservedKeepsLog | internal/membership/facts.go:325-361 | what the reservation loop removed cost no waiting enrollment its admission |
| LedgerInvariant.EnrollMeetsNoConflict | internal/membership/store.go:387-414 | the member row of an approved enrollment meets no unique column already taken |
| LedgerInvariant.IdentitiesAdmit | internal/membership/store.go:164-218 | an admission that passes the conflict checks keeps labels and devices disjoint over members, waiting enrollments and invites |
| LedgerInvariant.IdentitiesOpen | internal/membership/invites.go:153-191 | an opened invite takes a label nobody has and, for a member, an active issuer |
| LedgerInvariant.IdentitiesExpel | internal/membership/invites.go:517-543 | after a revocation with its invites closed every remaining invite has an active issuer |
| LedgerInvariant.OpenKeepsConserved | internal/membership/invites.go:171-191 | creating an invite adds one to created and one to active |
| LedgerInvariant.CloseKeepsConserved | internal/membership/invites.go:484-543 | expiring, revoking or redeeming an invite moves it from active to exactly one final count |
| LedgerInvariant.WindowIsCounted | internal/membership/invites.go:171-180 | the creations inside any window up to now are at most those the rate query counts |
| LedgerInvariant.OpenKeepsRate | internal/membership/invites.go:171-191 | a creation that passed the rate query leaves at most five creations of that member in every 60-second window, on any clock |
| LedgerInvariant.FoldConcat | internal/membership/facts.go:178-243 | folding facts into a set of waiting enrollments is the same in one piece or in two |
| LedgerInvariant.CloseInvitesPeels | internal/membership/invites.go:517-543 | closing a list of invites is closing them one by one, each with its audit record |
| LedgerOperations.SettlePendingKeeps | internal/membership/store.go:697-731 | settling always succeeds, removes exactly the enrollments that are due, logs one fact for each, and changes no member and no invite |
| LedgerOperations.SettleExpiredKeeps | internal/membership/store.go:733-757 | expired enrollments and invites are settled together; the invariant holds and committed facts ring |
| LedgerOperations.RequestEnrollmentKeeps | internal/membership/store.go:144-254 | every outcome keeps the ledger invariant, takes back nothing recorded, and is never an order violation |
| LedgerOperations.AdmitKeeps | internal/membership/store.go:219-252 | an admission that finds its columns free keeps the invariant, or fails only for want of room or a taken column |
| LedgerOperations.EnrollKeeps | internal/membership/store.go:387-414 | in every sound state the approval of a waiting enrollment goes through and is recorded in the log |
| LedgerOperations.ApproveKeeps | internal/membership/store.go:346-423 | approval keeps the invariant and never fails on order or on a unique column |
| LedgerOperations.ExecuteKeeps | internal/membership/adapters.go:514-610 | executing an admitted command always succeeds and keeps the invariant, whether it commits or is rejected, also for an enrollment key that does not decode |
| LedgerOperations.ExecuteApproves | internal/membership/adapters.go:514-610 | with the enrollment waiting, its key decodable and room for a member the command commits: approval logged, enrollment no longer waiting, commit recorded, all together |
| LedgerOperations.ApproveAdapterCommandKeeps | internal/membership/adapters.go:514-610 | with settlement before it, adapter approval keeps the invariant and never fails on order or on a unique column |
| LedgerOperations.RevokeKeeps | internal/membership/store.go:626-695 | revocation keeps the invariant, takes back nothing recorded and never fails on order |
| LedgerOperations.WhenRevokeAborts | internal/membership/store.go:626-695 | an otherwise valid revocation aborts on the audit trigger if and only if the actor is a device and the member still has open invites |
| LedgerRevocation.RevokeCanAbort | internal/membership/store.go:626-695 | such a state is reachable: a server that starts with one member, which opens one invite |
| LedgerRevocation.RevokeAbortsAfterInvite | internal/membership/store.go:626-695 | in every sound state, a member whose invite was just created cannot be revoked on behalf of a device |
| LedgerOperations.CreateInviteKeeps | internal/membership/invites.go:118-193 | creating an invite keeps the invariant whatever it answers, and meets no unique column already taken |
| LedgerOperations.RevokeInviteKeeps | internal/membership/invites.go:243-283 | revoking an invite keeps the invariant and takes back nothing recorded |
| LedgerOperations.RedeemInviteKeeps | internal/membership/invites.go:285-398 | redemption keeps the invariant, also when it commits pruned facts and then answers unavailable, and never fails on a unique column |
| LedgerOperations.PruneFactsKeeps | internal/membership/facts.go:394-422 | pruning raises the replay floor by the number it reports and forgets nothing of the history |
| LedgerOperations.PruneReceiptsKeeps | internal/membership/adapters.go:707-717 | receipt pruning keeps the invariant and takes back nothing recorded |
| LedgerOperations.PendingSnapshotKeeps | internal/membership/facts.go:178-243 | a snapshot settles what is due, lists exactly the enrollments still waiting, none of them expired, and overflows if and only if more of them wait than the configured limit |
| LedgerStart.MigratedStoreIsSound | internal/database/migrations/server/00004_enrollment_facts.sql:32-79 | the tables the migration leaves are sound for any waiting rows it finds, logged in any order, any members, active or already revoked, and any configured limit, also one below the waiting rows |
| LedgerStart.MigratedKeepsLog | internal/database/migrations/server/00004_enrollment_facts.sql:76-79 | after any number of inserted admissions the log is in step with the waiting rows and within the reservation bound |
| LedgerStart.FreshStoreIsSound | internal/database/migrations/server/00004_enrollment_facts.sql:32-79 | so are the tables of a new server |
| LedgerRuns.MigratedServerStaysSound | internal/membership/store.go:144-757 | every state a migrated server reaches satisfies the invariant |
| LedgerRuns.CallsAreRuns | internal/membership/store.go:144-423 | RequestEnrollment, Approve and ApproveAdapterCommand each have the effect of two committed transactions, settlement first, between which others may commit |
| LedgerRuns.RunKeeps | internal/membership/store.go:144-757 | from any sound state the ledger invariant holds after every run of transactions in any order, and nothing recorded is taken back |
| LedgerRuns.ReservationBoundHolds | internal/membership/facts.go:311-361 | facts + 2*pending + active members <= 16832 after every run from any sound state |
| LedgerRuns.NoRoomMeansProtected | internal/membership/facts.go:325-392 | a reservation fails only when the row that stops pruning is the admission of a still-waiting enrollment |
| LedgerRuns.SettlementIsNeverBlocked | internal/membership/facts.go:288-309 | in every sound state expiry and approval of any waiting enrollment and revocation of any active member pass the order check |
| LedgerRuns.ReplayHasNoGap | internal/membership/facts.go:128-166 | a reader paging to a fixed high-water mark, with any operations between its pages, ends with exactly the facts in (cursor, high], once each and in order, or with an expired cursor; high - cursor requests suffice |
| LedgerRuns.ExpiryMeansPruned | internal/membership/facts.go:128-145 | a valid cursor is refused as expired if and only if it lies below the replay floor |
| LedgerRuns.SnapshotPlusReplay | internal/membership/facts.go:110-243 | a snapshot folded with a completed replay from its high-water mark equals the waiting table at the moment the reader fixed its mark |
| LedgerRuns.CommandsRunAtMostOnce | internal/membership/adapters.go:287-347 | after every run from any sound state the identifiers an adapter had admitted ascend strictly, and no key and no enrollment is committed twice |
| LedgerRuns.AdmittedOnceForAll | internal/membership/adapters.go:258-348 | after any further run, submitting an admitted key again changes nothing at all |
| LedgerRuns.ReceiptsSettleOnce | internal/membership/adapters.go:612-627 | a receipt found again after any run is the same receipt, and if it was settled then nothing in it has changed |
| LedgerRuns.ReceiptBoundsHold | internal/membership/adapters.go:309-347 | at most 16384 receipts, 1024 admitted, 64 admitted per adapter after every run from any sound state; receipt_capacity is unreachable |
| LedgerReceipts.OnlySettledReceiptsGo | internal/membership/adapters.go:309-347 | whatever a transaction does, every receipt still admitted has a row afterwards that continues it: only settled receipts are deleted |
| LedgerReceipts.AdmittedReceiptsStay | internal/membership/adapters.go:309-347 | an admitted receipt is found again after the next transaction, with its number, enrollment and admission time unchanged |
| LedgerReceipts.OthersInPlace | internal/membership/adapters.go:514-653 | every transaction but admission and pruning leaves all receipts in place and in order, each as it was or settled |
| LedgerRuns.LateRejectionIsTrue | internal/membership/adapters.go:629-642 | enrollment_expired and settled_elsewhere each name what really happened; not_pending is given only when the log retains no outcome |
| LedgerRuns.LabelsStayDisjoint | internal/membership/store.go:164-218 | after every run a label, up to case, stands for at most one member, waiting enrollment or invite, and a device for at most one member or waiting enrollment; a member that issued an open invite is active |
| LedgerRuns.InvitesAreConserved | internal/membership/invites.go:171-191 | after every run from any sound state created = active + redeemed + revoked + expired; an invite ends at most once; at most five creations of a member in any 60 seconds, on any clock |
| LedgerRuns.CommittedFactsRing | internal/membership/store.go:119-127 | whenever a run appends a fact it also notifies |
| MembershipStore.DeleteExpired | internal/membership/store.go:697-731 | the loop settles exactly the due enrollments in the order of its query and reports whether there were any |
| MembershipStore.CloseEach | internal/membership/invites.go:484-543 | the delete-and-audit loop equals closing all listed invites |
| MembershipStore.FindTerminal | internal/membership/adapters.go:629-642 | the row loop finds the latest outcome the log retains for an enrollment |
| MembershipStore.AdmitPending | internal/membership/store.go:219-252 | the write sequence of an admission equals its specification, errors included |
| MembershipStore.ExpelMember | internal/membership/store.go:664-690 | the writes equal the specification: fact, member row and issued invites together, or an error |
| MembershipStore.Store.SettleExpired | internal/membership/store.go:733-757 | the object moves to the settled state and keeps the invariant |
| MembershipStore.Store.RequestEnrollment | internal/membership/store.go:144-254 | new state and answer equal the specification; the invariant is kept |
| MembershipStore.Store.RequestSettled | internal/membership/store.go:158-254 | the transaction proper: known device, waiting device, conflicts, capacity, admission, in that order |
| MembershipStore.Store.Approve | internal/membership/store.go:346-423 | new state and answer equal the specification; the invariant is kept |
| MembershipStore.Store.ApproveAdapterCommand | internal/membership/adapters.go:514-610 | new state and answer equal the specification, the rejection of an undecodable enrollment key included; the invariant is kept |
| MembershipStore.Store.Revoke | internal/membership/store.go:626-695 | new state and answer equal the specification; the invariant is kept |
| MembershipStore.Store.CreateInvite | internal/membership/invites.go:118-193 | new state and answer equal the specification; the invariant is kept |
| MembershipStore.Store.RevokeInvite | internal/membership/invites.go:243-283 | new state and answer equal the specification; the invariant is kept |
| MembershipStore.Store.RedeemInvite | internal/membership/invites.go:285-398 | new state and answer equal the specification; the invariant is kept |
| MembershipStore.Store.PruneFacts | internal/membership/facts.go:394-422 | new state and count equal the specification; the invariant is kept |
| MembershipStore.Store.PruneReceipts | internal/membership/adapters.go:707-717 | new state equals the specification; the invariant is kept |
| MembershipStore.Store.AdmitApprovalCommand | internal/membership/adapters.go:258-348 | new state and answer equal the specification; the invariant is kept |
| MembershipStore.Store.CurrentPendingSnapshot | internal/membership/facts.go:178-243 | new state and snapshot equal the specification; the invariant is kept |
| MembershipStore.Store.ReplayFacts | internal/membership/facts.go:101-167 | the authorized read answers what the log specifies and writes nothing |
| LedgerLimits.PendingMoves | internal/membership/store.go:144-757 | whatever a transaction does, it only takes waiting rows away, except that a request may add one, and only under the configured limit |
| LedgerLimits.LimitsLast | internal/membership/store.go:144-757 | over every run, waiting rows within the limit stay within it, and rows whose keys decode stay so |
| LedgerLimits.SnapshotsNeverOverflow | internal/membership/facts.go:178-243 | no snapshot after any run overflows with a limit of 64, nor with a smaller one that covered the waiting rows at the start |
| LedgerLimits.KeysAreNeverRefused | internal/membership/adapters.go:514-610 | a run that starts with decodable keys never meets another: no approval fails on a key, and an admitted command for a waiting enrollment commits when there is room |
| LedgerLimits.BadKeyIsRejected | internal/membership/adapters.go:566-571 | a command for a waiting enrollment whose key does not decode is rejected as invalid_enrollment_key, alone, and the enrollment keeps waiting |
| StagingDisk.CrashKeepsSafe | internal/getcleanup/store.go:549-615 | crash safety survives any power loss, so it holds across any number of them |
| StagingDisk.SafeMeans | internal/getcleanup/store.go:504-682 | after a crash at any safe point every stage directory has a row, and the destination is free, foreign, or exactly the synced bytes |
| StagingDisk.WhatRecoveryCannotReap | internal/getcleanup/store.go:347-451 | any crash-safe stage can be removed except when its directory holds a foreign entry or more than it declared, when its marker never became durable, or when a removal came back without its marker |
| StagingDisk.FirmIsReapable | internal/getcleanup/store.go:347-451 | after a crash at a firm point the last of these never happens: the other three conditions decide |
| StagingDisk.EntryRemoval | internal/getcleanup/store.go:395-451 | while the marker stands, removing the probe or the data and syncing is crash safe and keeps removals in order |
| StagingDisk.MarkerRemoval | internal/getcleanup/store.go:395-451 | with nothing else in sight the marker may go, in order if no removal is unsynced |
| StagingDisk.MarkerRemovalIsSafeIffSynced | internal/getcleanup/store.go:395-451 | removing the marker keeps every crash outcome removable if and only if no unsynced removal is hidden behind it |
| StagingDisk.RetryAfterFailedSyncCanLeak | internal/getcleanup/store.go:395-451 | a retry after a failed sync of the data removal can leave, after a crash, a stage that no later attempt removes |
| Staging.Stage.RemoveEmptyStage | internal/getcleanup/store.go:504-526 | removes directory and row, the row only after the removal is durable; a directory with foreign entries stays |
| Staging.Stage.CleanupReservedStage | internal/getcleanup/store.go:453-483 | a reserved stage goes only when empty and only after its identity is recorded |
| Staging.Stage.RemoveEntries | internal/getcleanup/store.go:395-451 | data and probe go before the marker, and every point in between is crash safe |
| Staging.Stage.CleanupOpened | internal/getcleanup/store.go:347-451 | a fault-free attempt removes row and directory exactly when the stage is reapable, touches no foreign entry, no file content and no destination |
| Staging.Stage.Startup | internal/getcleanup/store.go:126-147 | clears the lease of the process that died and changes nothing else |
| Staging.Stage.Claim | internal/getcleanup/store.go:309-338 | a lease is taken only on an inactive, unleased row; a lost answer is undone or leaves only the lease |
| Staging.Stage.FinishAttempt | internal/getcleanup/store.go:537-547 | a retained row gets its next retry time and loses its lease; phase and size stay |
| Staging.Stage.ReapOne | internal/getcleanup/store.go:245-307 | one attempt of a round removes a reapable stage or keeps row, phase and charge and reschedules it, hourly before expiry and daily after |
| Staging.Stage.Recover | internal/getcleanup/store.go:126-307 | startup and one fault-free round remove row and directory if and only if the stage is reapable; otherwise it stays charged |
| Staging.Stage.PowerLoss | internal/getcleanup/store.go:126-147 | a power loss at any point the protocol went through keeps all of it crash safe, firm if that point was, and leaves no removal unsynced |
| Staging.Stage.Sessions | internal/getcleanup/store.go:126-307 | any number of lives of the process, attempts failing anywhere and power losses at any point, keep crash safety; they keep removals in order unless an attempt begins on an unsynced removal, which one attempt for each life never does |
| Staging.Stage.SessionsThenRecover | internal/getcleanup/store.go:126-451 | after all that one fault-free round removes the stage exactly when it is reapable; if no attempt began on an unsynced removal it stays only for a foreign entry, for data beyond the declared size, or for a marker that never became durable |
| Staging.Stage.Cleanup | internal/getcleanup/store.go:730-755 | the owner's cleanup removes the stage exactly when it is reapable, and releases it in any case |
| Staging.Stage.ReleasePending | internal/getcleanup/store.go:693-720 | a stage given up keeps its row, directory, entries and destination, and leaves the set of active stages |
| Staging.Stage.CreateFilesystem | internal/getcleanup/store.go:549-615 | every prefix of the construction is crash safe and firm; success means directory, marker and data are durable and recorded |
| Staging.Stage.Create | internal/getcleanup/store.go:213-221 | once reserved, a failed construction is cleaned up or released; the destination is untouched |
| Staging.Stage.Prepare | internal/getcleanup/store.go:619-654 | whatever else lies in the directory: the synced bytes are handed over and the phase recorded; ready means that marker, data and size passed the checks |
| Staging.Stage.Conclude | internal/getcleanup/store.go:661-682 | once linked, the destination stays ours whatever fails; clean means a durable link and neither row nor directory, and without faults it fails only for a foreign entry |
| Staging.Stage.Publish | internal/getcleanup/store.go:619-682 | commits only onto a free name and only the synced bytes, foreign entries or not; clean success means a durable link and neither row nor directory; an existing destination is never replaced |
| StagingQuota.QuotaHolds | internal/getcleanup/store.go:223-243 | after every interleaving of reservations, steps of stages, reaps and power losses at most 64 rows and 4 GiB are charged, at most 64 stage directories can be on disk and, where owners keep to what they declared, at most 4 GiB of data in them |
| StagingQuota.ChargesAreConserved | internal/getcleanup/store.go:223-243 | the sum charged changes only by what a reservation declared and by what a deleted row had declared, over every step and power loss |
| StagingQuota.DiskIsCharged | internal/getcleanup/store.go:223-243 | a directory that may be on disk has a charged row, so directories and data never exceed what is charged |
| StagingQuota.TraceIsRun | internal/getcleanup/store.go:347-755 | the states a stage goes through are steps of such an interleaving |
| StagingQuota.BatchIsFirst | internal/getcleanup/store.go:245-263 | a due row is in the batch, or the batch is full with rows that come before it in the order of the query |
| StagingQuota.RoundTakesBatch | internal/getcleanup/store.go:264-307 | a fault-free round takes exactly its batch off the list of due rows and puts nothing on it |
| StagingQuota.EightRoundsReachAll | internal/getcleanup/store.go:245-307 | eight fault-free rounds at one time attempt every due stage of the directory exactly once: the reapable ones are gone, the others kept and put off |
| StagingQuota.Store.ReserveLocked | internal/getcleanup/store.go:223-243 | refuses exactly when 64 rows are charged or the declared size does not fit under 4 GiB, otherwise adds one leased row; the quota is kept |
| StagingQuota.Store.ReapParent | internal/getcleanup/store.go:245-307 | whatever fails, it touches the rows of its batch only and they keep their charge while they stay; the quota is kept; without faults each of them is attempted once |
| StagingQuota.Store.Create | internal/getcleanup/store.go:149-221 | reaps the directory, refuses a destination that exists and a reservation over the quota, in that order and without faults in no other case; success adds exactly one built, leased and charged stage; the quota is kept whatever fails |
| WatchEvents.WireRoundTrip | internal/contextwatch/watch.go:60-111 | a valid event, marshalled and strictly decoded, is that event |
| WatchEvents.DecodedIsValid | internal/contextwatch/watch.go:98-147 | strict decoding returns only valid events with exactly the fields of their type |
| WatchHub.ListThenIndex | internal/contextwatch/watch.go:409-429 | the sorted listing of a projection indexes back to the projection |
| WatchHub.ListIsSorted | internal/contextwatch/watch.go:186-211 | a listed projection passes the order and uniqueness checks of the wire |
| WatchHub.IndexIsOk | internal/contextwatch/watch.go:280-298 | an accepted baseline indexes to distinct keys and distinct devices, losing no peer |
| WatchStreams.PublishKeeps | internal/contextwatch/watch.go:381-397 | publishing to every subscriber keeps all stream invariants, including for those it overflows |
| WatchStreams.SubscribeKeeps | internal/contextwatch/watch.go:249-278 | a subscription keeps the invariant: its stream is valid, starts with a snapshot and folds to the projection |
| WatchStreams.ConnectKeeps | internal/contextwatch/watch.go:280-298 | a connect keeps projection and streams in step, also when it is refused |
| WatchStreams.JoinKeeps | internal/contextwatch/watch.go:310-338 | a joining peer, also one that replaces another of the same device or label, keeps projection and streams in step |
| WatchStreams.LeaveKeeps | internal/contextwatch/watch.go:340-355 | a leaving device keeps projection and streams in step |
| WatchStreams.RunKeeps | internal/contextwatch/watch.go:236-407 | the hub invariant holds after every run of subscriptions, publications, reads and closes |
| WatchStreams.PastIsTold | internal/contextwatch/watch.go:381-397 | folding the events published up to an earlier moment gives the projection the hub held at that moment |
| WatchStreams.ToldThroughout | internal/contextwatch/watch.go:310-397 | every sequence number of a run belongs to one operation, and folding the events before it gives what that operation found; for the second event of a replacing join, what it found without the replaced peer |
| WatchStreams.StreamsAgreeWithTheHub | internal/contextwatch/watch.go:249-397 | for every live subscription the fold of all events sent is the hub's projection; after overflow the fold before the gap is what the hub held just before the first dropped event, and the gap is last |
| WatchStreams.SendsNeverBlock | internal/contextwatch/watch.go:381-397 | before every send a live queue holds at most the ordinary depth, so the channel always has room |
| WatchStreams.ClientAccepts | internal/cli/cli.go:172-183 | the client validator accepts every prefix of a well-formed stream and returns each event as sent |
| WatchStreams.ClientAcceptsEveryStream | internal/cli/cli.go:172-183 | after every run the client validator accepts everything a subscription has received |
| WatchService.WatchHubService.PublishLocked | internal/contextwatch/watch.go:381-397 | the loop over subscribers equals publishing to all of them at once, in any order |
| WatchService.WatchHubService.Subscribe | internal/contextwatch/watch.go:249-278 | object and answer equal the specification |
| WatchService.WatchHubService.Connect | internal/contextwatch/watch.go:280-298 | object and error equal the specification |
| WatchService.WatchHubService.Join | internal/contextwatch/watch.go:310-338 | object and error equal the specification, although a replaced peer stays in the map while its offline event is published |
| WatchService.WatchHubService.Leave | internal/contextwatch/watch.go:340-355 | object equals the specification |
| WatchService.IndexPeers | internal/contextwatch/watch.go:280-298 | the loop builds exactly the index of the baseline |
| WatchService.WatchEventValidator.Decode | internal/cli/cli.go:172-183 | the validator object accepts and advances exactly as the specification does, and is unchanged by a refusal |
| WindowsAcl.ValidateWindowsSecurity | internal/put/windows_acl.go:26-82 | for all byte strings: accepted if and only if the owner is valid and trusted and the bytes are a header and a secure list of entries; each refusal names the first fault of the pass |
| WindowsAcl.ScanEntries | internal/put/windows_acl.go:33-81 | the entry loop accepts a described list and refuses at the first fault, trailing bytes included |
| WindowsAcl.ScanEntry | internal/put/windows_acl.go:37-79 | all checks of one entry, in the order of the code, decide what the next entry is given those before it |
| WindowsAcl.NextEntryIsRight | internal/put/windows_acl.go:37-79 | an entry is accepted exactly when it is the print of an entry that keeps the list secure |
| WindowsAcl.ReadingIsUnique | internal/put/windows_acl.go:33-81 | bytes are read as a list of entries in at most one way |
| WindowsAcl.FaultExcludesReading | internal/put/windows_acl.go:26-82 | bytes at which the pass stops are described by no secure list |
| WindowsAcl.PrintedListIsDescribed | internal/put/windows_acl.go:26-82 | every secure list, printed with any reserved bytes, is a DACL the reference describes |
| WindowsAcl.DescribedIsPrinted | internal/put/windows_acl.go:26-82 | every described DACL is the print of exactly one secure list |
| WindowsAcl.CanonicalMeansThreeBlocks | internal/put/windows_acl.go:50-58 | the accepted order is explicit denials, then explicit grants, then inherited entries |
| WindowsAcl.WhatMutates | internal/put/windows_acl.go:63-76 | a grant is dangerous exactly through its own bits or through a generic right it carries |
| WindowsAcl.TrustedWindowsSid | internal/put/windows_acl.go:88-95 | true exactly for a member of the trusted list |
| WindowsClaims.ValidateWindowsResourceAttributeAcl | internal/put/windows_acl.go:97-126 | for all byte strings: accepted if and only if the bytes are a header and a list of resource attributes to the last byte; the evidence is empty exactly for the empty list; a refusal is the first fault of the pass, malformed or unsupported |
| WindowsClaims.ScanAttributes | internal/put/windows_acl.go:101-126 | the loop over the entries finds a described list or the first fault, trailing bytes included, with every index in bounds |
| WindowsClaims.CheckEntry | internal/put/windows_acl.go:111-115 | an entry that passed the checks of kind and size is accepted exactly when it can be read as flags, mask, SID and claim |
| WindowsClaims.ValidWindowsResourceClaim | internal/put/windows_acl.go:136-167 | accepted exactly when the bytes can be read as a claim: a name and at least one number or string, all behind the table of offsets, aligned and in bounds |
| WindowsClaims.CheckNumbers | internal/put/windows_acl.go:148-155 | the numeric offsets pass exactly when every value can be read as a number |
| WindowsClaims.CheckTexts | internal/put/windows_acl.go:156-163 | the string offsets pass exactly when every value can be read as a string |
| WindowsClaims.BoundedWindowsUtf16 | internal/put/windows_acl.go:169-179 | true exactly when a non-empty string and its closing zero unit start at the offset and end within the bytes |
| WindowsClaims.WindowsResourceSidLength | internal/put/windows_acl.go:128-134 | succeeds exactly when the bytes begin with a SID, and returns its length |
| WindowsClaims.NextIsRight | internal/put/windows_acl.go:103-116 | the next entry passes exactly when the bytes go on with an entry that can be read |
| WindowsClaims.ClaimIsUnique | internal/put/windows_acl.go:136-167 | bytes are read as a claim in at most one way |
| WindowsClaims.AttributesAreUnique | internal/put/windows_acl.go:97-126 | an ACL is read as a list of attributes in at most one way |
| WindowsClaims.FaultExcludesAttributes | internal/put/windows_acl.go:97-126 | bytes at which the pass stops are no list of attributes |
| WindowsClaims.FaultIsUnique | internal/put/windows_acl.go:97-126 | the pass stops at one fault only |
| WindowsClaimsPrint.ClaimRoundTrip | internal/put/windows_acl.go:136-167 | every claim of numbers or strings can be written, is accepted, and is read back as that claim only |
| WindowsClaimsPrint.AttributeRoundTrip | internal/put/windows_acl.go:103-116 | every attribute can be written as an entry that is read back as it |
| WindowsClaimsPrint.AclRoundTrip | internal/put/windows_acl.go:97-126 | every list of attributes can be written, with any reserved bytes, and is read back as that list only |
| Journal.TakePlaced | internal/recent/recent.go:112-115 | rows beyond the first n never influence what the first n are after an insertion |
| Journal.TakeYoung | internal/recent/recent.go:108-110 | expiry removes the tail of a newest-first view, so it commutes with keeping the head |
| Journal.OfTrimmed | internal/recent/recent.go:114-115 | the per-context cap keeps the newest 64 of that context and every row of every other |
| Journal.AppendedIsCoherent | internal/recent/recent.go:108-113 | an insertion keeps order, unique keys and stored-row checks |
| Journal.GlobalCapNeverEvicts | internal/recent/recent.go:114-118 | with at most 64 contexts the cap of 4096 evicts nothing |
| JournalRefinement.InsertRefines | internal/recent/recent.go:89-118 | an insertion whose key was not evicted keeps the bounded journal in step with the unbounded one |
| JournalRefinement.SameAnswer | internal/recent/recent.go:93-107 | such an insertion is answered alike in both journals |
| JournalRefinement.RunRefines | internal/recent/recent.go:89-162 | bounded and unbounded journals stay in step over every run without returning keys |
| JournalRefinement.ListingIsExact | internal/recent/recent.go:120-151 | an unfiltered listing of up to 64 rows is that of the unbounded journal; a filtered one shows the peer's rows among the newest 64 |
| JournalRefinement.ListingsOverRuns | internal/recent/recent.go:89-162 | after every run with fresh keys, on any clock, unfiltered listings equal those of the full history minus aged and cleared rows |
| JournalRefinement.DistinctKeysAreFresh | internal/recent/recent.go:93-107 | a run that never reports a transfer twice never brings an evicted key back |
| JournalRefinement.WhenListingsAgree | internal/recent/recent.go:93-118 | after any insertion all listings are those of the unbounded journal if and only if the key had not been evicted, or the returning key is older than all 64 rows its context lists and expires no row |
| RecentStore.Store.InsertTx | internal/recent/recent.go:89-118 | new table and answer equal the specification |
| RecentStore.Store.List | internal/recent/recent.go:120-151 | returns exactly the listing; a corrupt-journal answer is impossible on a coherent table |
| RecentStore.Store.Clear | internal/recent/recent.go:153-162 | removes the context's rows only and reports their number |
| Doorbell.StepKeepsInv | internal/adapterapi/broker.go:33-125 | no step sends on or closes a closed subscriber channel; subscribers have distinct open channels; at most one fanout runs |
| Doorbell.StepLosesNothing | internal/adapterapi/broker.go:47-73 | with room for one token, a subscriber with unread notifications keeps a token, a taken token, a fanout still to reach it, or a marker |
| Doorbell.RunKeeps | internal/adapterapi/broker.go:33-125 | both hold in every interleaving from the start, restarts and timed-out stops included: no subscriber channel is misused and no wakeup is lost |
| Doorbell.CarefulRunsCloseOnce | internal/adapterapi/broker.go:33-60 | if no start happens while a runner launched earlier has not begun to run, no done channel is ever closed twice, and a closed one means that its runner is gone |
| Doorbell.StartIsSafeIffNobodyBorn | internal/adapterapi/broker.go:33-60 | after such a run one more start is safe, whatever follows, if and only if no earlier runner is still to begin; otherwise both runners can read the new b.done and close it twice |
| Doorbell.RestartAfterStopIsCareful | internal/adapterapi/broker.go:33-125 | a start that comes only after a stop returned without error, or first of all, never leads to a double close |
| Doorbell.WakeupsNeedOnePlace | internal/membership/store.go:119-127 | no run loses a wakeup if and only if the notification channel has at least one place |
| Doorbell.TurnRings | internal/adapterapi/broker.go:62-73 | a subscriber's turn in fanout leaves a marker in its channel or closes and forgets it |
| Doorbell.TokenReachesSubscriber | internal/adapterapi/broker.go:47-73 | a pending token and a waiting runner reach any open subscriber in three steps |
| Doorbell.StoppedStaysEmpty | internal/adapterapi/broker.go:75-125 | after a completed stop nobody is subscribed until the next start |
| DoorbellBroker.Broker.FanOut | internal/adapterapi/broker.go:62-73 | the loop marks every free channel and disconnects every stalled one, whatever the order of the map |
| DoorbellBroker.Broker.Subscribe | internal/adapterapi/broker.go:75-101 | refused when stopped or full; a replaced channel is closed; the new channel is current |
| DoorbellBroker.Broker.CancelSubscription | internal/adapterapi/broker.go:90-100 | closes the channel at most once, and only while it is current |
| DoorbellBroker.Broker.CloseSubscribers | internal/adapterapi/broker.go:117-125 | closes every channel once and empties the map |
| DoorbellBroker.Broker.Start | internal/adapterapi/broker.go:33-45 | one runner is started; a second start is refused |
| RootAuthority.RootsAreFrozen | internal/contexts/manager.go:1567-1593 | in every interleaving a non-local operation finds the roots of its scope as it was handed them, and so does a local one that has not lost its context |
| RootAuthority.LocalRootsAreFrozenIff | internal/contexts/manager.go:1430-1565 | a local operation keeps its roots in every continuation before its end if and only if at its begin no removal of the context has passed its second check; if one has, it can meet other stored roots, unless its scope is empty |
| RootAuthority.CountersAreExact | internal/contexts/manager.go:1741-1762 | the counters equal the operations in flight, the channel exists exactly while there are any, and no channel is closed twice |
| RootAuthority.DisableDrains | internal/contexts/manager.go:1295-1352 | when disabling ends its wait because transfers are done, no non-local operation of the context runs |
| RootAuthority.ContextsAreBounded | internal/contexts/manager.go:575-592 | at most 64 contexts exist after every run |
| RootAuthority.GuardedChange | internal/contexts/manager.go:918-923 | a change that passes the check for scopes in use leaves every operation in flight its roots |
| RootAuthority.ConfigurationKeeps | internal/contexts/manager.go:752-771 | joining, updating, enabling and disabling keep the invariant |
| RootAuthority.RemoveIfIdleKeeps | internal/contexts/manager.go:1430-1458 | the second check of a removal keeps the invariant: from there to the deletion the context is disabled and used by local operations only |
| RootAuthority.RemoveRowKeeps | internal/contexts/manager.go:1459-1485 | deleting the row keeps the invariant: it orphans local operations at most |
| RootAuthority.RunKeeps | internal/contexts/manager.go:1295-1593 | the invariant holds over all interleavings of operations and configuration |
| RootAuthority.LocalOperationCanBeOrphaned | internal/contexts/manager.go:1430-1565 | such a begin is reachable: a run in which a local operation that began between the halves of a removal meets another root after the context is joined again |
| RootManager.Manager.BeginContextOperation | internal/contexts/manager.go:1567-1593 | refused for an unknown or disabled context; otherwise counted and handed the stored row |
| RootManager.Manager.BeginLocalContextOperation | internal/contexts/manager.go:1542-1565 | refused only for an unknown context; otherwise counted and handed the stored row |
| RootManager.Manager.EndContextOperation | internal/contexts/manager.go:1741-1762 | one operation fewer is counted; the last one closes the channel, which never panics |
| RootManager.Manager.Update | internal/contexts/manager.go:882-923 | accepted exactly when no operation in flight uses a root it changes, and then all keep their roots |

## Left out

- The digest in the evidence of resource attributes is a function handed to the validator; reading and restoring the attributes (`internal/put/stage_windows.go:1104-1138`) is outside.
- StagingQuota.Store.ReapParent: every row of the batch is one that no stage of this process holds as active; an active row without lease, which the loop skips, is not modelled. Rows created in the same second are taken in the order of their numbers instead of their random identifiers.
- Counting and notification of expired stages in a reaping round (`internal/getcleanup/store.go:286-306`), beyond the stored flag.
- StagingQuota.Store.Create: the path checks on the parent directory (`internal/getcleanup/store.go:153-178`) are left out; a refusal there is one of the faults.
- Staging identities: a directory is the one the stage made; a failed identity check is a fault that stops the step, and replacing the directory under the protocol is not modelled.
- Marker content and file modes of the stage: only presence and durability of entries are modelled.
- Goroutine timing: retries, tickers, contexts and deadlines appear as choices, not as clocks.
- Read-only listings of members, audit events, receipts and enrollment status (`internal/membership/store.go:256-344`, `internal/membership/store.go:425-624`).
- Invite token text and its parser (`internal/membership/invites.go:62-116`): a token is its server tag, invite and secret.
- Credential signing, source addresses and approval-code normalization in enrollment.
- Worker states such as connected and pending, STUN servers, projections and durable-transfer blocks of the context manager: they refuse a change, which the model shows as a step that does not happen.
- Contexts in state revoked or expired: joining or enabling them is refused in the program and simply does not happen in the model.
- RecentStore.Store.InsertTx: times are whole seconds in UTC, so the check of the time zone has nothing to refuse.
- ValidateSnapshot and the recent-observation wire protocol (`internal/recent/recent.go:174-184`, `internal/recent/protocol.go`).
- Journal object rows are held in the order of their index; the table's physical order, which no query shows, is not modelled.
- Closing of the notification channel: nothing in the program closes it.
- Doorbell channels are numbers with a mark, not shared objects; a receiver that holds a closed channel may still drain its marker.
- JSON text: an event on the wire is its set of typed fields, so spelling, escapes and duplicate keys are outside.
- LedgerRuns.SnapshotPlusReplay: compares with the waiting table at the moment the reader fixes its high-water mark; what happens during the paging belongs to the next replay.
- WebRTC, HTTP, local IPC, command line, configuration files, benchmarks, packaging.

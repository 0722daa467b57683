# Covalent: verified models

Covalent keeps private backups and folders in sync between a person's own devices. This project models five parts of
it in Dafny and proves what they are relied on for. `dafny verify dfyconfig.toml` checks all of it.

**Content-defined chunking** (`Fingerprint`, `ChunkSpec`, `Chunker`). A backup stream is cut where a rolling 64-bit
fingerprint meets a mask. `ChunkSpec` says where the cuts are, as the first stopping point of the remaining input, and
shows that this determines them. `Chunker` is the class with its read buffer, proved to find exactly these cuts for
every way the reader may split, shorten or interrupt its reads. The fingerprint is studied on its own: it shows every
change of one byte, and it vanishes on blocks of period 64, which bounds the chunks of constant and periodic data.

**The folder-sync console** (`FolderStatus`, `ShareRecipients`, `FolderSync`, `FolderSyncInvariant`,
`FolderSyncSteps`, `FolderSyncRuns`, `FolderSyncSending`, `FolderSyncRequests`, `FolderSyncWorld`,
`FolderCoordinator`). The console reads a status from the node and sends mutations, over a network that loses, delays
and reorders. `FolderSync` is its transition system: one step is one uninterrupted stretch of its code, any number of calls may be outstanding, and the server acts on
them and answers them in any order. The theorems are about all its runs: one mutation at a time, nothing out of date
shown, receipts kept until they are settled, retries identical. `FolderCoordinator` is the object with its fields. It
carries its own run as a ghost; each entry point keeps `Valid`, extends that run by exactly its event, and so inherits
the theorems, some of which are stated on the object itself. `FolderStatus` decides which statuses are accepted.
`FolderSyncWorld` adds what holds against a server that keeps its word.

**Claiming a node** (`ClaimProtocol`, `ClaimCollector`). Any number of invocations of the claim command run at once on
one output directory and may crash between any two file operations. The theorems say that all of them send the same
attempt, that a published directory is complete and verified, and that one more undisturbed invocation always finishes.
`ClaimCollector` is the bounded collection of the child's output.

**The engine guardian** (`Guardian`). The supervising loop and the two-stage shutdown, with a log of what was done to the
child.

**Native node handles and digest framing** (`NodeRegistry`, `DigestFraming`). Starts and stops interleaved around one
lock, and the injectivity of what two digests are fed with.

The environment enters as parameters: the answers of a reader, the events of a pipe, the order of network answers, the
clock readings, fresh identifiers, and whether the browser's storage did as it was told. The server's clock, the
provenance of a shown status, the runs and the logs are ghost wherever the code is an object, so it cannot read them.

Three properties do not hold of the code as such, and each has its counterexample and its exact condition. Clearing a
saved offer is not guarded by the mutation lock, so an offer can be lost unsent (`FolderSyncRequests`). A settings change
shown as pending is sent again when the user asks again and the status shown by then no longer knows it, and only then
(`FolderSyncWorld`, `FolderSyncSending`). An absent and an empty backup id give the same job identifier, and this is the
only collision (`DigestFraming`); the command rejects an empty backup id right after the identifier is made, so no accepted request has
it (crates/covalent-cli/src/main.rs:507-516).

## Model

| member | source | states |
|---|---|---|
| `Fingerprint.OfAppend` | crates/covalent-core/src/chunker.rs:111 | feeding one byte to the running fingerprint gives the fingerprint of the longer byte string |
| `Fingerprint.RollAllSplitsStart` | crates/covalent-core/src/chunker.rs:111 | a fingerprint carried over `y` is its rotation by the length of `y`, xor the fingerprint of `y` alone: the old bytes only rotate |
| `Fingerprint.OfConcat` | crates/covalent-core/src/chunker.rs:111 | the fingerprint of a concatenation is determined by the two fingerprints and the second length |
| `Fingerprint.OfIsGearSum` | crates/covalent-core/src/chunker.rs:111 | the fingerprint in closed form: the gear value of each byte, rotated once for every byte after it, all combined by xor |
| `Fingerprint.RotlByWordSize` | crates/covalent-core/src/chunker.rs:111 | 64 one-bit rotations are the identity, for every word |
| `Fingerprint.EqualBlocksCancel` | crates/covalent-core/src/chunker.rs:111 | two equal 64-byte blocks in a row have fingerprint zero |
| `Fingerprint.PeriodicFingerprintVanishes` | crates/covalent-core/src/chunker.rs:111 | any string of period 64 whose length is a multiple of 128 has fingerprint zero |
| `Fingerprint.UnmixUndoesMix` | crates/covalent-core/src/chunker.rs:145-150 | the three xor-shift and multiply stages of the gear function have an inverse |
| `Fingerprint.GearIsInjective` | crates/covalent-core/src/chunker.rs:145-150 | the 256 gear values are pairwise different |
| `Fingerprint.GearValues` | crates/covalent-core/src/chunker.rs:145-150 | the gear values of the first and the last byte; the first is the first output of SplitMix64 from seed zero |
| `Fingerprint.ByteChangeIsVisible` | crates/covalent-core/src/chunker.rs:106-111 | replacing any one byte of a string, anywhere, changes its fingerprint |
| `ChunkSpec.ValidConfigurations` | crates/covalent-core/src/chunker.rs:38-44 | the accepted configurations: one of ten powers of two as average, and sizes around it between 4 KiB and 8 MiB |
| `ChunkSpec.MaskTest` | crates/covalent-core/src/chunker.rs:89-112 | the mask test of the loop holds exactly if the average size divides the fingerprint |
| `ChunkSpec.CutIsFirstStop` | crates/covalent-core/src/chunker.rs:91-122 | the specification cut is at a stop or at the end, and no shorter nonempty prefix is a stop |
| `ChunkSpec.FirstStopIsCut` | crates/covalent-core/src/chunker.rs:91-122 | and it is the only length with this property |
| `ChunkSpec.ChunksAreSegmentation` | crates/covalent-core/src/chunker.rs:82-123 | the chunks are nonempty, join to the input, and each ends at the first stop after the previous one |
| `ChunkSpec.SegmentationIsUnique` | crates/covalent-core/src/chunker.rs:82-123 | a list of parts has that property if and only if it is the list of chunks |
| `ChunkSpec.ChunkSizes` | crates/covalent-core/src/chunker.rs:38-44 | no chunk exceeds the maximum size, and only the last may be below the minimum |
| `ChunkSpec.CutIsLocal` | crates/covalent-core/src/chunker.rs:91-122 | a cut before the end depends only on the bytes before it |
| `ChunkSpec.SharedPrefixSharesChunks` | crates/covalent-core/src/chunker.rs:82-123 | two streams with a common prefix have the same chunks as long as these end within it |
| `ChunkSpec.ChunksAfterBoundary` | crates/covalent-core/src/chunker.rs:82-123 | from any chunk boundary on, the chunks are those of the remaining input |
| `ChunkSpec.ChunksResynchronise` | crates/covalent-core/src/chunker.rs:82-123 | once two streams with a common tail both have a boundary at its start, all later chunks are the same |
| `ChunkSpec.PeriodicCut` | crates/covalent-core/src/chunker.rs:112-115 | content cuts a stream of period 64 no later than at the first multiple of 128 from the minimum size on |
| `ChunkSpec.PeriodicChunks` | crates/covalent-core/src/chunker.rs:82-123 | so all its chunks lie between these two sizes, except for a shorter last one |
| `ChunkSpec.ConstantStreamChunks` | crates/covalent-core/src/chunker.rs:82-123 | a stream of one repeated byte, of any length, has chunks of one size except for the last, and this is the minimum size if that is a multiple of 128 |
| `Chunker.Reader.Read` | crates/covalent-core/src/chunker.rs:128-140 | the contract of a reader: some next bytes of the stream, end of file exactly when none are left, an interruption, or an error |
| `Chunker.ContentDefinedChunker.constructor` | crates/covalent-core/src/chunker.rs:70-79 | a new chunker has the whole stream before it |
| `Chunker.ContentDefinedChunker.Refill` | crates/covalent-core/src/chunker.rs:125-142 | loses and reorders nothing, retries interruptions, and sees the end of input exactly when the stream is exhausted |
| `Chunker.ContentDefinedChunker.Scan` | crates/covalent-core/src/chunker.rs:106-120 | from an open chunk, finds the first stop in the window, or shows that there is none |
| `Chunker.ContentDefinedChunker.Consume` | crates/covalent-core/src/chunker.rs:103-121 | moves exactly the scanned bytes from the buffer to the chunk |
| `Chunker.ContentDefinedChunker.NextChunk` | crates/covalent-core/src/chunker.rs:82-123 | the next chunk is the first `Cut` bytes of what is pending, whatever the sizes of the reads: the shortest that is full, or long enough with a fingerprint the average size divides, or all that is left; the end comes exactly when nothing is pending; it fails only if the reader does |
| `Chunker.ChunkAll` | crates/covalent-core/src/chunker.rs:170-177 | the chunks of a stream depend on its contents alone, however the reads split or interrupt it, and join to the stream; after a read error they are a prefix of the right ones |
| `FolderStatus.CheckRoster` | packaging/web/folder-sync-flow.js:328-350 | accepts a roster if and only if its devices, source included, are pairwise distinct and its size is in bounds |
| `FolderStatus.CheckSettings` | packaging/web/folder-sync-flow.js:200-231 | accepts the settings of a link if and only if revision, change, confirmation, policy and the pending and conflicted changes fit together |
| `FolderStatus.CheckShare` | packaging/web/folder-sync-flow.js:373-419 | accepts a share if and only if its invitation, removal, expiry, policy, settings and roster fit together |
| `FolderStatus.AddReplacements` | packaging/web/folder-sync-flow.js:422-429 | the replaced ids of one share are added only if none is nil or already known |
| `FolderStatus.CheckInvitations` | packaging/web/folder-sync-flow.js:420-429 | the loop over a growing set accepts if and only if all current and superseded ids together are pairwise distinct and none of the superseded is nil |
| `FolderStatus.CheckLinks` | packaging/web/folder-sync-flow.js:430-437 | comparing each live share with the last one seen for its folder accepts if and only if all live shares of every folder agree |
| `FolderStatus.RequireStatus` | packaging/web/folder-sync-flow.js:352-466 | accepts a status if and only if it is `Acceptable`: sizes in bounds, consistent shares, distinct invitations, agreeing links |
| `FolderStatus.AcceptedShare` | packaging/web/folder-sync-flow.js:373-429 | what every share of an accepted status satisfies, field by field: removal, expiry, policy, settings, changes on record, and an invitation that no other share has or replaces |
| `FolderStatus.CheckLocal` | packaging/web/folder-sync-flow.js:469-484 | accepts a share if and only if its roster, its confirmation and its pending and conflicted changes belong to this device |
| `FolderStatus.LinkIgnoresOrder` | packaging/web/folder-sync-flow.js:978-987 | in an accepted status, reordering the shares changes neither whether a link is found nor the label, policy, settings, run and roster found |
| `FolderStatus.LinkIsConfirmed` | packaging/web/folder-sync-flow.js:978-987 | in an accepted status a link is found if and only if some member in force says that it is confirmed |
| `ShareRecipients.DestinationsClaimApart` | packaging/web/folder-sync-flow.js:535-540 | no member matches two destinations of one roster |
| `ShareRecipients.ListDestinations` | packaging/web/folder-sync-flow.js:535-540 | one row for each destination, in roster order: of an outgoing group with the first outgoing member sent to that device, of an incoming group with the first incoming member for this device and none for any other; no member in two rows |
| `ShareRecipients.Recipients` | packaging/web/folder-sync-flow.js:531-548 | these rows for the roster of the first member not removed, then every other member once, in order and under its own name, and no further row |
| `FolderCoordinator.Coordinator.SetAccess` | packaging/web/folder-sync-flow.js:835-844 | extends the run of the object by one change of access; the device is the one given, unlocked exactly if that was asked for it; nothing is shown, no receipt is lost, and no call made before can ever be shown |
| `FolderCoordinator.Coordinator.SetPollingEnabled` | packaging/web/folder-sync-flow.js:846-849 | extends the run; polling is as given, what is shown and saved stays, and without polling no outstanding read can be shown |
| `FolderCoordinator.Coordinator.Refresh` | packaging/web/folder-sync-flow.js:856-860 | extends the run; a refresh that is made is the only call whose answer is then waited for, and one that is not made changes nothing |
| `FolderCoordinator.Coordinator.Perform` | packaging/web/folder-sync-flow.js:913-1233 | extends the run by one action of the user; it sends exactly what it asks for and saves exactly that before; what it sends is the one mutation in progress and makes earlier reads obsolete; receipts, offers and address changes are kept, or settled for their own reason |
| `FolderCoordinator.Coordinator.Validate` | packaging/web/folder-sync-flow.js:468-486 | the loop accepts a status if and only if it is acceptable and every share of it belongs to this device |
| `FolderCoordinator.Coordinator.Deliver` | packaging/web/folder-sync-flow.js:861-911 | extends the run by one answer; a status is shown exactly under the guard, and then it is no older than any acknowledged mutation or any status shown before; exactly the receipt of the settled request is cleared |
| `FolderCoordinator.Coordinator.LockMeansOneMutation` | packaging/web/folder-sync-flow.js:885-911 | of the object, after any sequence of calls: the lock is held exactly while one mutation is in progress |
| `FolderCoordinator.Coordinator.OutstandingIsSaved` | packaging/web/folder-sync-flow.js:999-1081 | of the object: while a settings or run request is outstanding, storage holds its exact body |
| `FolderCoordinator.Coordinator.ShownIsForThisDevice` | packaging/web/folder-sync-flow.js:835-883 | of the object: what is shown is valid for the present device |
| `FolderSyncInvariant.NextKeeps` | packaging/web/folder-sync-flow.js:835-1233 | every step keeps the invariant: one holder of the lock, reads tied to generation and epoch, no readable status older than an acknowledgement, receipts equal to outstanding requests |
| `FolderSyncRuns.OneMutationAtATime` | packaging/web/folder-sync-flow.js:885-911 | in every run the lock is held exactly while a mutation is in progress, and never two are, whatever access changes occur |
| `FolderSyncRuns.ShownBelongsToAccess` | packaging/web/folder-sync-flow.js:835-844 | what is shown was requested under the present access and is valid for the present device |
| `FolderSyncRuns.AccessIsAsSet` | packaging/web/folder-sync-flow.js:835-844 | device and lock are as access was last set, whatever else happens |
| `FolderSyncRuns.PollingIsAsSet` | packaging/web/folder-sync-flow.js:846-849 | polling is as it was last set |
| `FolderSyncRuns.LockedConsoleIsSilent` | packaging/web/folder-sync-flow.js:851-858 | from the moment the console is locked or left without a device until access is set again, it sends nothing, shows nothing, and a refresh does nothing |
| `FolderSyncRuns.ShownLinkIsConsistent` | packaging/web/folder-sync-flow.js:373-419 | a link that is shown is confirmed, in force, and agrees with its policy and with a roster of distinct devices whose source is the right one |
| `FolderSyncRuns.ShownChangesAreOurs` | packaging/web/folder-sync-flow.js:468-486 | what is pending or in conflict on a shown link was asked for by this device, of the link's source, for that folder and at or before the revision shown |
| `FolderSyncRuns.OutstandingRequestIsRetained` | packaging/web/folder-sync-flow.js:999-1019 | while a settings or run request is outstanding, storage holds its exact body for its device |
| `FolderSyncRuns.ShownReflectsAcknowledged` | packaging/web/folder-sync-flow.js:856-883 | a shown status was produced by the server after every mutation acknowledged before |
| `FolderSyncRuns.ShownInServerOrder` | packaging/web/folder-sync-flow.js:856-883 | statuses are shown in the order in which the server produced them |
| `FolderSyncRuns.ShownInRequestOrder` | packaging/web/folder-sync-flow.js:856-883 | and in the order in which they were requested: an overtaken answer is never shown |
| `FolderSyncRuns.ShownPollWasUndisturbed` | packaging/web/folder-sync-flow.js:870-880 | between the request of a shown status and its display no mutation began, access did not change, polling was not switched off, no newer refresh was made |
| `FolderSyncRuns.OnlyLaterRequestsAreShown` | packaging/web/folder-sync-flow.js:835-911 | after a change of access, a refresh or the beginning of a mutation, nothing requested before is ever shown |
| `FolderSyncRuns.ReadIsShownIffUndisturbed` | packaging/web/folder-sync-flow.js:856-883 | the answer to a read that is waited for is shown if and only if it is valid and no change of access, mutation, end of polling or newer refresh came between |
| `FolderSyncRuns.ReceiptsAreKept` | packaging/web/folder-sync-flow.js:665-816 | a settings or run receipt stays exactly as it is until this very request is acknowledged, settled by the shown status, refused or discarded; no other request overwrites it |
| `FolderSyncRuns.SentIsRetained` | packaging/web/folder-sync-flow.js:885-1215 | every request sent is saved, and starts under a free lock |
| `FolderSyncRuns.SettingsAreSentAgainstShownRevision` | packaging/web/folder-sync-flow.js:989-1045 | a settings request carries the revision shown for its link, a confirmed member in force of a status that shows the change neither applied by this device nor pending nor in conflict |
| `FolderSyncRuns.ReceiptIsConstant` | packaging/web/folder-sync-flow.js:665-816 | as long as a receipt is present it is the same receipt |
| `FolderSyncRuns.SettingsRetriesAreIdentical` | packaging/web/folder-sync-flow.js:1121-1126 | over any lost answers and retries, all settings requests for one receipt have the same body |
| `FolderSyncRuns.RunRetriesAreIdentical` | packaging/web/folder-sync-flow.js:1109-1114 | the same for run requests |
| `FolderSyncWorld.ShownRevisionsGrow` | packaging/web/folder-sync-flow.js:856-883 | against a server whose revisions grow, the revision shown for a link never goes back |
| `FolderSyncWorld.AppliedChangeIsNeverSentAgain` | packaging/web/folder-sync-flow.js:989-1019 | after a change has been shown as applied, every later request for the link expects a newer revision |
| `FolderSyncWorld.PendingChangeIsNeverSentAgain` | packaging/web/folder-sync-flow.js:989-1019 | against a server that also keeps a pending change until the revision moves, a change once shown as pending is never sent again |
| `FolderSyncWorld.ForgottenChangeIsSentAgain` | packaging/web/folder-sync-flow.js:1121-1126 | without that it is: a run in which a change is sent, shown as pending, forgotten by the server and sent again, for any settings |
| `FolderSyncSending.SentIffAsked` | packaging/web/folder-sync-flow.js:913-1215 | in every run and for every kind of request, a step sends it if and only if it is an action that asks for it while the console is unlocked and no mutation runs: a settings change only if the shown status does not know it, a new run only if it allows it, with the new identifier, a new address change only for the peer and address asked for and away from the address shown, a saved request only as saved |
| `FolderSyncSending.ActionSends` | packaging/web/folder-sync-flow.js:999-1131 | what an action leaves in storage, exactly: the receipt of what it asks for, or none if that is settled or discarded |
| `FolderSyncRequests.AnswerClearsItsReceipt` | packaging/web/folder-sync-flow.js:900-929 | exactly which receipt an answer clears; an acknowledgement that arrives under another device clears none |
| `FolderSyncRequests.AddressIsKeptUntilEnded` | packaging/web/folder-sync-flow.js:1141-1228 | a saved address change stays exactly until access changes, it is cancelled, confirmed or refused, or its peer disappears from a shown status; each of these ends it |
| `FolderSyncRequests.SentAddressIsSaved` | packaging/web/folder-sync-flow.js:1192-1215 | an address request is sent only as saved, and a new one only away from the address shown |
| `FolderSyncRequests.AddressRetriesAreIdentical` | packaging/web/folder-sync-flow.js:1217-1223 | while an address change stays saved, all its requests have the same body |
| `FolderSyncRequests.AcceptedAddressIsConfirmed` | packaging/web/folder-sync-flow.js:1146-1158 | an accepted address change is followed by a confirming read, with the lock kept until then |
| `FolderSyncRequests.RefusedAddressReloads` | packaging/web/folder-sync-flow.js:1168-1183 | a refused address change frees the lock and drops the shown status; the reload that follows is shown if and only if it is valid, the console is unlocked and nothing disturbed it meanwhile |
| `FolderSyncRequests.NewRunIsAllowed` | packaging/web/folder-sync-flow.js:1083-1107 | a run is requested as saved or, without a receipt, only if its link is shown neither paused nor waiting nor running, at the generation and revision shown |
| `FolderSyncRequests.OffersAreRetainedUnlessDiscarded` | packaging/web/folder-sync-flow.js:913-929 | an offer stays saved while it is being sent if and only if the step is not a clearing of that device's offer |
| `FolderSyncRequests.OfferIsKeptUntilSettled` | packaging/web/folder-sync-flow.js:913-929 | if no offer was cleared while being sent, a saved offer stays until it is acknowledged or cleared itself |
| `FolderSyncRequests.ClearedOfferTakesTheNext` | packaging/web/folder-sync-flow.js:1230-1233 | otherwise it does not: for any two offers, a run in which the second is saved, never sent, and removed by the answer to the first |
| `ClaimProtocol.NextKeeps` | crates/covalent-cli/src/main.rs:735-833 | every step of every invocation, crash or failure keeps the invariant of journal, output, sent claims and verified credentials |
| `ClaimProtocol.AllPostsAreTheSame` | crates/covalent-cli/src/main.rs:764-779 | for one output, all claims ever sent have the same nonce and proof, over any number of concurrent, crashing and repeated invocations |
| `ClaimProtocol.PostIsJournaled` | crates/covalent-cli/src/main.rs:764-779 | a claim sent has the digest of this path and the proof made from the sender's own setup code and its nonce and, until the output exists, is what the journal holds |
| `ClaimProtocol.ForeignJournalIsRefused` | crates/covalent-cli/src/main.rs:904-936 | an invocation that has loaded a journal of another setup code or path sends nothing, publishes nothing and removes nothing: all it ever does is fail |
| `ClaimProtocol.PublishedIsComplete` | crates/covalent-cli/src/main.rs:806-827 | a published directory holds certificate and token together, and these have been verified over HTTPS |
| `ClaimProtocol.PublishedIsFinal` | crates/covalent-cli/src/main.rs:818-827 | a published directory is never replaced or removed |
| `ClaimProtocol.JournalIsRemovedOnlyWhenPublished` | crates/covalent-cli/src/main.rs:980-990 | the journal is never overwritten, and removed only when complete, verified credentials are published |
| `ClaimProtocol.RemovesWhatItSawAsItsOwn` | crates/covalent-cli/src/main.rs:980-990 | an invocation about to remove the journal saw at its last look that the journal was its own |
| `ClaimProtocol.SuccessWasVerified` | crates/covalent-cli/src/main.rs:992-1029 | an invocation that reports success has itself verified over HTTPS the credentials that are published |
| `ClaimProtocol.OneRunFinishes` | crates/covalent-cli/src/main.rs:743-833 | from every reachable unfinished state, whatever crashed before, one undisturbed invocation with the right code finishes: credentials published, journal gone, and it sent the journaled attempt, a new one if there was none, or nothing if the output was there |
| `ClaimCollector.SuccessIsWholeStream` | crates/covalent-cli/src/main.rs:1138-1190 | a successful collection is the whole output of the child, up to its end of file, and within the limit |
| `ClaimCollector.AcceptsExactlyWhatFits` | crates/covalent-cli/src/main.rs:1138-1190 | for a child that closes its output and exits undisturbed, collection succeeds if and only if the output fits the limit |
| `ClaimCollector.FailureHasCause` | crates/covalent-cli/src/main.rs:1138-1190 | collection gives up only for a reason: the output is over the limit, the deadline passed, or a read or a wait failed |
| `ClaimCollector.TerminateAndReap` | crates/covalent-cli/src/main.rs:1257-1262 | the child is reaped, and killed exactly if it was seen running |
| `ClaimCollector.CollectBounded` | crates/covalent-cli/src/main.rs:1138-1190 | computes the specified outcome, never holds more than the limit, and leaves no unreaped child when it succeeds, overflows or times out |
| `ClaimCollector.BootstrapClaim` | crates/covalent-cli/src/main.rs:1073-1130 | reaps the child on every path; returns a response only if the request was sent, the child succeeded and the response is whole, and does return it if then the output ends undisturbed within the limit |
| `Guardian.AdvancingClockTicks` | packaging/sync-engine/engine-guardian.c:289-313 | a clock that moves at every reading, or fails, meets the assumption of the shutdown |
| `Guardian.ClockRunsOut` | packaging/sync-engine/engine-guardian.c:289-313 | any clock that keeps moving, also when sleeps are cut short, brings the wait to an end |
| `Guardian.TerminateAndReap` | packaging/sync-engine/engine-guardian.c:274-319 | ends with any clock that keeps moving, after at most one look for each millisecond of grace if it moves at every look; the child is asked first, and killed only if it was still running when the whole grace period had passed since the start, or the clock or the sleep failed; it is given up unkilled only if it cannot be waited for |
| `Guardian.Observe` | packaging/sync-engine/engine-guardian.c:571-628 | which observation ends supervision: an exec error before bytes on the lifeline before the loss of the owner |
| `Guardian.Supervise` | packaging/sync-engine/engine-guardian.c:530-629 | the loop ends at the first turn that gives a reason to, the exec pipe followed over all turns before, and ends for that reason |
| `Guardian.Guard` | packaging/sync-engine/engine-guardian.c:257-641 | over the whole run: nothing is sent to a reaped child, it is reaped at most once, asked before it is killed, and killed only after its grace period or a failure of the clock or the sleep; the guardian returns the exit code of a child that ended by itself, or 128 plus its signal; success only for a child that exited with success; and for a child it stopped and reaped, exec failure if and only if that was the first reason to stop |
| `NodeRegistry.NativeRegistry.AllocateHandle` | crates/covalent-android-jni/src/lib.rs:123-137 | a handle is reserved if and only if capacity and handles are left, and nothing changes otherwise; the registry stays sound |
| `NodeRegistry.NativeRegistry.Publish` | crates/covalent-android-jni/src/lib.rs:347-378 | a reservation becomes a live node, and without a reservation nothing changes; the registry stays sound |
| `NodeRegistry.NativeRegistry.Retire` | crates/covalent-android-jni/src/lib.rs:421-447 | a handle is removed exactly if it still stands for the stopped node; the registry stays sound |
| `NodeRegistry.NextKeeps` | crates/covalent-android-jni/src/lib.rs:315-447 | every interleaving of starts and stops keeps reservations and starts in one-to-one correspondence |
| `NodeRegistry.CapacityHolds` | crates/covalent-android-jni/src/lib.rs:97-138 | live nodes and reservations are together at most two, and disjoint; only live nodes have grants |
| `NodeRegistry.HandlesAreNeverReused` | crates/covalent-android-jni/src/lib.rs:123-137 | handles are positive and each is greater than all before |
| `NodeRegistry.ReservationsAreNeverLost` | crates/covalent-android-jni/src/lib.rs:315-378 | a start never finds its reservation gone, and a handle is reserved exactly while it is being started |
| `NodeRegistry.StopRemovesItsOwnNode` | crates/covalent-android-jni/src/lib.rs:421-447 | under its handle a stop finds the node it looked up, or none |
| `NodeRegistry.FinishedStartIsLive` | crates/covalent-android-jni/src/lib.rs:347-378 | a start that finishes leaves its own node live, with grants if it had any, and changes no other handle |
| `NodeRegistry.FinishedStopLeavesNoNode` | crates/covalent-android-jni/src/lib.rs:421-447 | a stop that finishes leaves nothing under its handle and changes no other |
| `NodeRegistry.StartGetsHandleIffRoom` | crates/covalent-android-jni/src/lib.rs:315-325 | a start gets the next handle and reserves it if and only if fewer than two nodes are live or being started and handles are left; otherwise only its refusal is recorded |
| `NodeRegistry.OneStartLeavesRoom` | crates/covalent-android-jni/src/lib.rs:123-137 | while one node is being started and none is live there is room for a second |
| `NodeRegistry.StopFindsItsNode` | crates/covalent-android-jni/src/lib.rs:421-447 | a stop takes the node its handle means at that moment, and a failed stop leaves the registry as it was |
| `NodeRegistry.FailedStartsFreeCapacity` | crates/covalent-android-jni/src/lib.rs:315-378 | with no start in progress, capacity is exhausted if and only if two nodes are live or the handles are used up |
| `DigestFraming.BigEndianIsInjective` | crates/covalent-cli/src/main.rs:1607-1631 | a length is determined by its eight bytes |
| `DigestFraming.BigEndianAt` | crates/covalent-cli/src/main.rs:1607-1631 | each byte of a length is the digit of its weight, most significant first |
| `DigestFraming.FramesArePrefixFree` | crates/covalent-cli/src/main.rs:1607-1631 | two equal byte strings that start with as many length-prefixed fields have the same fields and the same rest |
| `DigestFraming.FeedJob` | crates/covalent-cli/src/main.rs:1607-1631 | feeds the digest with the domain, then source, name, backup id and snapshot each after its length, then the number of providers and each provider after its length, at exactly these places |
| `DigestFraming.JobPreimageIsInjective` | crates/covalent-cli/src/main.rs:1607-1631 | two jobs feed the digest with the same bytes if and only if they agree in everything, an absent and an empty backup id counting as the same |
| `DigestFraming.AbsentAndEmptyBackupCollide` | crates/covalent-cli/src/main.rs:1607-1631 | and these two do collide, for every job without a backup id |
| `DigestFraming.PathPreimageIsInjective` | crates/covalent-cli/src/main.rs:856-866 | two output paths feed the digest with the same bytes if and only if they are equal |

## Left out

- FolderStatus.RequireStatus: does not decode JSON and does not check string lengths, enumerations, or the health and availability fields; these reject a value by itself and relate it to no other.
- Chunker.ContentDefinedChunker.NextChunk: says nothing about the chunker after a read error, and a reader is not asked again once it has reported the end of its stream.
- FolderStatus.CheckShare: the types of the flags and the members of the enumerations hold by the types of the model, and the state of the connection and of the pairing upgrade are not part of it.
- FolderSyncWorld.AppliedChangeIsNeverSentAgain: assumes that a status reports the revisions of the moment at which the server produced it, and that these only grow.
- FolderSyncWorld.PendingChangeIsNeverSentAgain: assumes the same of pending changes, and that one stays until the revision moves; `FolderSyncWorld.ForgottenChangeIsSentAgain` shows that this is needed.
- ClaimProtocol.AllPostsAreTheSame: treats the proof as a pair of code and nonce and the path digest as the path, so it assumes that the digests do not collide.
- ClaimProtocol.OneRunFinishes: assumes that the node answers, the network works and no other process takes a step meanwhile.
- ClaimCollector.CollectBounded: models the Unix form, with finitely many interrupted reads.
- Guardian.TerminateAndReap: assumes that the clock does not stand still for ever, and folds calls repeated after an interruption into one.
- NodeRegistry.NextKeeps: leaves out panics, a poisoned lock and the validation of requests.
- Accept, renew, remove, retry and legacy pause of a folder are plain mutations: their guards in the console are not part of the model.
- The callbacks of the console, which could call back into it, and its rendering, grouping and wording.
- Storage that alters values silently: a save or a clear works, or leaves storage as it was.
- Loss of power and the order in which a file system makes writes durable.
- Certificates, encryption, key stretching and the command lines of the programs called.
- The guardian's inventory of descriptors, its start of the child and its arguments.
- The backup store, repair, discovery, pairing, the desktop and mobile applications, the packaging scripts and the authenticating proxy.

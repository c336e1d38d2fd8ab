# PromptGraph generation custody: a verified model

PromptGraph plans image generations, submits them to a ComfyUI server, and keeps evidence of every step in bounded,
host-owned storage. This project models the part of it that has to stay honest across crashes, failures, revocation and
threads, and proves what that part promises:

- **the capacity ledger**: three counters for each storage purpose, reservations, one active write, the transaction that
  replaces a journal in place, compensation after a commit, closing and invalidation;
- **the journals**: an event state machine, a digest chain, a size preflight, a live writer with exact tip tokens, and
  the lock / temporary / replace / verify / acknowledge protocol taken one file step at a time by any number of writers
  that may stop anywhere;
- **the lease protocol** that joins a journal append to the ledger while other threads close the owner, and the
  publication boundary that a close must drain;
- **four kernels**: prompt-node discovery and rewriting on cyclic workflow graphs, seed finalisation with the manifest's
  request loop, bounded staging of downloads, at-most-once submission, and the bounded neighbourhood search.

| files | what they hold |
|---|---|
| `CapacityTypes`, `LedgerSpec` | amounts, directories, the ledger as a value and each operation as a step on it |
| `LedgerInvariant`, `LedgerSteps`, `LedgerWrites` | the invariant, and that every operation keeps it on success and failure alike |
| `LedgerRuns`, `LedgerCompensation` | runs, and what one call undoes of another |
| `LedgerTheorems`, `LedgerOverrun`, `ScopeRelease` | theorems about every ledger that any run reaches, and a run over the ceiling |
| `LedgerAdmission`, `LedgerAnswers` | when each operation is granted, in arithmetic over the request and the counters, and whose records it may change |
| `LedgerTips`, `LedgerCommits` | what a journal replacement must name, and what it must leave, in terms of the run before it |
| `LedgerHistory`, `LedgerUndo` | what the records say about the commits behind them, and when a commit can still be taken back |
| `CapacityLedger` | the class that updates the counters in place, each method equal to its step |
| `JournalEvents`, `JournalChain`, `JournalSizes`, `JournalWriter`, `JournalDisk` | the journals, from one event to interleaved writers |
| `LeaseProtocol`, `LeaseProgress`, `LeaseSettlement` | interleaved appends and closes; what a failure, a revocation and a dead ledger end, and that nothing else stops a call; what the protocol's picture of the ledger has to do with the ledger |
| `PublicationBoundary` | interleaved publications and revocations |
| `Neighborhood`, `PromptBinding`, `SeedFinalization`, `ManifestFinalization`, `OutputStaging`, `PromptSubmission` | the kernels |

`dafny verify dfyconfig.toml` checks everything. Objects that the program updates are classes with methods; threads and
writers are state machines whose steps are single critical sections or single file operations, and a theorem about them
ranges over every finite interleaving. Digests are terms, so equal digests mean equal histories. Native observations,
the wire, the image decoder and the random source are parameters.

## Where the code and the claims about it part

- Capacity: an active replacement is not the only state over a limit. Closing during the replacement of an existing
  journal leaves a ledger that is not invalid, has no active write and is over its private-journal ceiling
  (`LedgerTheorems.ClosingCanLeaveAnOverrun`; `LedgerOverrun.OverrunAfterClosing` is a run that ends so);
  `LedgerTheorems.CapacityBound` says exactly when the ceiling is passed and by how much.
- Disk ahead by one: this holds of every writer that has acknowledged anything. A writer that lost the race to create the
  journal can be any number of entries behind and still live (`JournalDisk.LoserFallsArbitrarilyBehind`);
  `JournalDisk.DiskAheadExactly` is the exact condition.
- Size preflight: its sample is not the worst case, since a legal settlement can be three bytes longer. No harm comes of
  it: no valid operation comes near either ceiling, so no preflight and no append is ever refused for its size
  (`JournalSizes.EveryJournalFits`, `JournalSizes.SnapshotFits`).
- Identity integers: construction accepts an integer of more than 64 digits and reopening does not, so such an operation
  never has an append acknowledged (`JournalWriter.MultiRequestJournalWriter.Acknowledge`).
- Failed append: a write that was admitted is retained uncertain, but for two families. If an exception strikes after the
  ledger commit and another write is active or was completed since, its compensation is refused and it stays completed
  (`LeaseProtocol.InterruptedCommitCanStay`, `LeaseSettlement.SettlementExactly`). And an interrupt that strikes between
  the ledger's admission and its assignment, in the exception handler or in the release of the lease leaves the write as
  it is, completed or active (`LeaseProtocol.EveryExitIsAccounted`, `LeaseProtocol.InterruptedAdmissionStaysActive`); an
  active one keeps the ledger shut until it is closed (`LeaseProtocol.LeftWriteBlocksTheLedger`).
- Invalidation closes the ledger without waiting for open publications; only an explicit close waits
  (`PublicationBoundary.CloseDrainsFirst`, `PublicationBoundary.InvalidationDoesNotWait`).
- Staging: a request id enters the provider loop once, unless every earlier entry ended in an exception the store does
  not catch, which leaves no receipt. It may come from anywhere in the loop: making the directory, creating or checking a
  file, the provider call, a read, the close of the stream, flushing, decoding, hashing, closing the file, the checks
  after the last image, the removal of an incomplete file. `OutputStaging.ContainedOutputStore.Stage` says exactly when;
  `OutputStaging.EnterTwice` is a run that enters twice.
- Manifest: in the request loop a workflow node without inputs, or without a class name, is no blocker; it raises out of
  the whole call (`ManifestFinalization.OneNodeRaises`; `ManifestFinalization.FinalizeGenerationManifest` says exactly
  when). The one builder of this input refuses such workflows (`core/agent_facade.py:574-577`), and then no request raises
  (`ManifestFinalization.WellFormedNeverRaises`). A sampler or decoder whose missing inputs the binding check meets first
  is an ordinary blocker.

## Model

| member | source | states |
|---|---|---|
| LedgerTheorems.ReachedHolds | core/generation_storage_admission.py:359-885 | every ledger that any run reaches from a capture satisfies the invariant |
| LedgerRuns.OpeningEstablishesInv | core/generation_storage_admission.py:359-385 | a successful capture of the initial inventory establishes the invariant, whatever partial counts failed attempts left behind |
| LedgerRuns.ActKeepsInv | core/generation_storage_admission.py:387-885 | every ledger operation, refused, failing after a mutation or successful, keeps the invariant |
| LedgerRuns.RunKeepsInv | core/generation_storage_admission.py:387-885 | every state of every run after capture satisfies the invariant |
| LedgerTheorems.LedgerConserved | core/generation_storage_admission.py:399-466 | in every reachable state reserved is the sum of estimates still held, uncertain is the captured inventory plus the full retained estimates, and the active write names the one and only record that is writing |
| LedgerRuns.CapacityLeavesOnce | core/generation_storage_admission.py:938-953 | over any run a reservation only moves onward, so its capacity is never released or held twice |
| LedgerRuns.DeadLedgerStaysDead | core/generation_storage_admission.py:876-885 | a closed or invalid ledger never reserves or admits again |
| LedgerTheorems.ObservedAgreesWithFiles | core/generation_storage_admission.py:684-725 | while the ledger is not invalid, bytes and entries of the inventory are the captured ones plus what was observed, for every purpose |
| LedgerTheorems.AccountingConflictUnreachable | core/generation_storage_admission.py:654-657 | the guard against replacing a journal that was never counted cannot fire in a reachable state |
| LedgerTheorems.CapacityBound | core/generation_storage_admission.py:399-440 | while not invalid every purpose and both shared asset caps are within limits; private-journal bytes stay within twice the journal size, pass their ceiling if and only if the replacement of a nonempty journal is in progress or was cut off, and then by at most that journal's old size |
| LedgerTheorems.ClosingCanLeaveAnOverrun | core/generation_storage_admission.py:876-885 | closing during such a replacement leaves a closed, valid, idle ledger over its private-journal ceiling |
| LedgerOverrun.OverrunAfterClosing | core/generation_storage_admission.py:876-885 | a concrete run of five operations that ends so: commit a journal, admit its replacement, close |
| LedgerTheorems.AdmissionNeedsTheWholeBudget | core/generation_storage_admission.py:531-552 | a replacement is admitted only under the maximal policy, with nothing else reserved there and no other journal byte present |
| LedgerAdmission.ReserveExactly | core/generation_storage_admission.py:399-440 | in every reachable ledger a reservation is granted if and only if the request is valid and within the caps of one operation, the ledger is live, the operation open, each named purpose and both asset roots together have room, and reserved plus uncertain plus requested bytes are at most the free bytes; the counters then hold exactly what was asked for more |
| LedgerAdmission.FreeBytesAreTheLastObserved | core/generation_storage_admission.py:667-873 | over any run the free bytes are those of the last accepted completion or observation that brought any, and otherwise those of the opening |
| LedgerAdmission.OpeningFreeBytes | core/generation_storage_admission.py:380-385 | a ledger opens with the free bytes it is given, or with the sum of its byte limits |
| LedgerTips.AdmittedExactly | core/generation_storage_admission.py:468-567 | over any run a replacement is admitted if and only if its binding is presented as it must be, names exactly the revision, digest, file, row, acknowledgement, operation and writer of the last commit of its file (or starts a file that no step committed and that is not there), and the directory and the free bytes have room for a journal of the full size; each refusal has its own ground |
| LedgerTips.RemembersLastCommit | core/generation_storage_admission.py:669-677 | after any run a file is remembered exactly as its last completion was acknowledged, and only files that were committed are |
| LedgerCommits.CommittedExactly | core/generation_storage_admission.py:569-677 | over any run a replacement commits if and only if its write is the active one, a step of the run issued it to this operation for this very binding, the new file is the only change of the inventory, new, sized, unique and under the old access control, and the acknowledgement is the live tip one revision on |
| LedgerAnswers.CaptureExactly | core/generation_storage_admission.py:359-385 | a ledger opens on an inventory if and only if every directory is within its own limits, both asset roots together within theirs, and the free-space observation is valid |
| LedgerAnswers.CapturedOnce | core/generation_storage_admission.py:359-363 | a ledger that was captured or closed takes no capture |
| LedgerAnswers.BeginExactly | core/generation_storage_admission.py:387-397 | an operation begins if and only if its identifier has one to 128 characters and was never issued, and the ledger is live |
| LedgerAnswers.ReservationExactly | core/generation_storage_admission.py:442-466 | a reservation is cancelled or admitted exactly by its own operation before anything came of it, and admitted only to a live ledger with no active write |
| LedgerAnswers.AbandonExactly | core/generation_storage_admission.py:727-745 | a write is retained exactly by the operation that is writing it, and cancelled exactly by it, while live, if it replaces no journal |
| LedgerAnswers.CompleteExactly | core/generation_storage_admission.py:684-725 | an additive write completes if and only if its own operation is writing it and the inventory gained something, kept everything, and gained in no purpose more than the reservation and the limits allow |
| LedgerAnswers.TakeBackExactly | core/generation_storage_admission.py:747-784 | a completed additive write is taken back if and only if the token, the operation and the observed growth are its own and no write is active, or it was taken back so before |
| LedgerAnswers.ObserveExactly | core/generation_storage_admission.py:864-874 | an observation is accepted if and only if it shows the inventory the ledger knows; another one makes the ledger invalid and holds nothing any more |
| LedgerAnswers.CloseExactly | core/generation_storage_admission.py:876-885 | closing leaves a closed ledger in which nothing is held, and moves exactly what was reserved to uncertain |
| LedgerAnswers.OnlyItsOwn | core/generation_storage_admission.py:399-862 | no operation changes a record or a state of another one, whatever tokens it shows |
| LedgerTheorems.CompensationUndoesCommit | core/generation_storage_admission.py:786-862 | admit, commit, compensate: reserved and observed are back where they were, uncertain has grown by the full admitted bound, the record is retained, the ledger invalid |
| LedgerUndo.CompensableExactly | core/generation_storage_admission.py:786-862 | for every run that starts at the commit of a replacement in a reachable ledger, the commit can be taken back if and only if no write is active, none was completed since, and its record and operation stand as committed |
| LedgerUndo.CompensableUnderLeaseExactly | core/generation_storage_admission.py:786-862 | while no action of the run names the operation, as the lease ensures, the first two conditions decide alone |
| LedgerUndo.FirstCommitPasses | core/generation_storage_admission.py:569-725 | whatever write is completed next leaves a name the inventory did not have, or a later revision of the same journal |
| LedgerHistory.ActKeepsHistory | core/generation_storage_admission.py:387-885 | every operation keeps the history: a committed journal revision is newer than all before it, and completed additive writes account for exactly the new private-journal files that no replacement made |
| LedgerSteps.ReserveKeepsInv | core/generation_storage_admission.py:399-440 | a reservation within limits, shared caps and free space keeps the invariant, a refused one changes nothing |
| LedgerSteps.CloseKeepsInv | core/generation_storage_admission.py:876-885 | closing moves every held estimate to uncertain and keeps the invariant |
| LedgerWrites.CompleteWriteKeepsInv | core/generation_storage_admission.py:684-725 | completing an additive write keeps counters, records and inventory in agreement, on its failure paths too |
| LedgerWrites.AdmitReplacementKeepsInv | core/generation_storage_admission.py:468-567 | admitting a journal replacement keeps the invariant with the allowed overhang |
| LedgerWrites.CompleteReplacementKeepsInv | core/generation_storage_admission.py:569-677 | committing a replacement swaps the old journal's size for the new one and keeps the invariant, on its failure paths too |
| LedgerWrites.CompensateReplacementKeepsInv | core/generation_storage_admission.py:786-862 | compensating a replacement keeps the invariant |
| CapacityLedger.CapacityLedger.SetInitialInventory | core/generation_storage_admission.py:359-385 | the in-place capture equals its step, including the partial counts a refusal leaves |
| CapacityLedger.CapacityLedger.BeginOperation | core/generation_storage_admission.py:387-397 | equals its step; an identifier is never issued twice |
| CapacityLedger.CapacityLedger.Reserve | core/generation_storage_admission.py:399-440 | equals its step in state and answer |
| CapacityLedger.CapacityLedger.CancelBeforeWrite | core/generation_storage_admission.py:442-450 | equals its step in state and answer |
| CapacityLedger.CapacityLedger.AdmitWrite | core/generation_storage_admission.py:452-466 | equals its step in state and answer |
| CapacityLedger.CapacityLedger.AdmitJournalReplacement | core/generation_storage_admission.py:468-567 | equals its step in state and answer |
| CapacityLedger.CapacityLedger.CompleteJournalReplacement | core/generation_storage_admission.py:569-677 | equals its step, mutations on failure included |
| CapacityLedger.CapacityLedger.CompleteWrite | core/generation_storage_admission.py:684-725 | equals its step, mutations on failure included |
| CapacityLedger.CapacityLedger.RetainUncertain | core/generation_storage_admission.py:727-731 | equals its step in state and answer |
| CapacityLedger.CapacityLedger.CancelWriteBeforeCreate | core/generation_storage_admission.py:733-745 | equals its step in state and answer |
| CapacityLedger.CapacityLedger.RetainCompletedWriteAsUncertain | core/generation_storage_admission.py:747-784 | equals its step in state and answer |
| CapacityLedger.CapacityLedger.RetainCompletedJournalReplacementAsUncertain | core/generation_storage_admission.py:786-862 | equals its step in state and answer |
| CapacityLedger.CapacityLedger.ObserveInventory | core/generation_storage_admission.py:864-874 | equals its step; a changed inventory invalidates |
| CapacityLedger.CapacityLedger.Close | core/generation_storage_admission.py:876-885 | equals its step |
| CapacityLedger.MeasureInventoryDelta | core/generation_storage_admission.py:955-980 | computes what an inventory added, or refuses when anything vanished, changed or exceeded its bounds |
| ScopeRelease.ScopeLeaseRetentionReason | core/generation_storage_admission.py:2990-3032 | the scan answers uncertain, active host or settled exactly as the ledger and the hosts stand |
| ScopeRelease.SettledExactly | core/generation_storage_admission.py:2990-3032 | in every reachable state the ledger shows no uncertainty if and only if nothing was captured and every reservation is completed or was cancelled before create |
| ScopeRelease.ReleaseIsHonest | core/generation_storage_admission.py:3109-3119 | an answer other than uncertain means nothing captured, everything settled, both counters zero, a valid owner and no uncertain host |
| JournalEvents.CheckSequence | core/generation_multi_request_journal.py:211-254 | the loop accepts exactly the event grammar, which for a valid operation is exactly what follows it, and answers what a list of that length tells |
| JournalEvents.GrammarIsAcceptance | core/generation_multi_request_journal.py:211-254 | a list is accepted if and only if position k holds request k/3 in the order intent, outcome, settlement, with an unknown outcome only in last place; its length alone gives the state |
| JournalEvents.AcceptedExactly | core/generation_multi_request_journal.py:174-254 | a list is accepted if and only if each request in order has its intent with the operation's own identities, an outcome with a prompt id exactly as its kind demands, and a settlement at its own tip that names the accepted prompt id as completed or failed, or the rejection with none |
| JournalEvents.NoRequestTwice | core/generation_multi_request_journal.py:211-254 | no accepted list submits a request id twice |
| JournalEvents.AcceptanceIsPrefixClosed | core/generation_multi_request_journal.py:211-254 | every prefix of an accepted list is accepted, and only an unknown outcome ends a run early |
| JournalEvents.AcceptedLength | core/generation_multi_request_journal.py:509-510 | an accepted list has at most three events a request, and room is left until all are settled |
| JournalChain.ValidateEntries | core/generation_multi_request_journal.py:257-279 | accepts exactly the valid journals, returns their events, tip and state, and otherwise names the first refusal |
| JournalChain.ValidExactly | core/generation_multi_request_journal.py:257-279 | a journal is valid if and only if its events follow the operation and every entry is numbered, names its predecessor's digest, carries its own, and a settlement names the digest it was issued at |
| JournalChain.TipBindsHistory | core/generation_multi_request_journal.py:257-279 | two chains with one tip digest are equal, operation included |
| JournalChain.AppendKeepsValid | core/generation_multi_request_journal.py:508-523 | signing an accepted event onto a valid journal gives a valid journal |
| JournalChain.ValidPrefix | core/generation_multi_request_journal.py:257-279 | every nonempty prefix of a valid journal is a valid journal |
| JournalChain.Reopen | core/generation_multi_request_journal.py:323-343 | reopens exactly the valid content, every integer short enough to be read, written under this root and name at the expected tip, and returns exactly its events, revision, digest, identity and state |
| JournalSizes.MaximumWorkload | core/generation_multi_request_journal.py:287-320 | the preflight answers the worst-case file and cumulative sizes of its sample; its two ceilings refuse no operation whose integers can be written out at all |
| JournalSizes.FileWithinSample | core/generation_multi_request_journal.py:287-320 | every accepted journal of k entries is at most the sample's size at k plus three bytes a settled request |
| JournalSizes.NoLaterSizeFailureExactly | core/generation_multi_request_journal.py:519-523 | for a header of any size, no append of any run is too large if and only if the sample leaves three bytes for each request |
| JournalSizes.EveryJournalFits | core/generation_multi_request_journal.py:519-523 | every accepted event list of every valid operation, at every root the host can approve, fits the file: no append is ever refused for its size |
| JournalSizes.SnapshotFits | core/generation_multi_request_journal.py:314-319 | neither ceiling of the preflight is ever reached, the cumulative one included |
| JournalWriter.SettlementFitsOnlyItsHistory | core/generation_multi_request_journal.py:470-499 | an issued settlement appended to any journal of the operation gives a journal that reopens if and only if that journal is the one it was issued for |
| JournalWriter.IssueExactly | core/generation_multi_request_journal.py:470-500 | a settlement is issued if and only if the last event is an outcome, the facts repeat every identity of operation and request and the tip itself, and they agree with that outcome |
| JournalWriter.OnlyASettlementFollows | core/generation_multi_request_journal.py:211-254 | while a settlement is owed nothing else is accepted |
| JournalWriter.MultiRequestJournalWriter.ReopenOwn | core/generation_multi_request_journal.py:535-539 | reopening what any run of appends left gives back the writer's own events, revision, digest, identity and state |
| JournalWriter.MultiRequestJournalWriter.Append | core/generation_multi_request_journal.py:508-586 | succeeds exactly when the machine accepts the event, the disk takes the snapshot and it reads back; no size ever refuses it; only a failure past the lock makes the writer uncertain; a failure changes nothing else |
| JournalWriter.MultiRequestJournalWriter.Acknowledge | core/generation_multi_request_journal.py:566-579 | the reopen check after the replace fails only on an integer too long to be read back, and the new tip is the extended history's |
| JournalWriter.MultiRequestJournalWriter.AppendIntent | core/generation_multi_request_journal.py:410-423 | appends exactly the next request's intent in the ready state at the current tip; the revision limit never refuses it |
| JournalWriter.MultiRequestJournalWriter.AppendOutcome | core/generation_multi_request_journal.py:425-437 | appends exactly a valid outcome of the open intent |
| JournalWriter.MultiRequestJournalWriter.IssueSettlement | core/generation_multi_request_journal.py:597-623 | issues at most one settlement, for the current tip, if and only if the host's facts name this operation, this request and this tip and agree with its outcome |
| JournalWriter.MultiRequestJournalWriter.AppendSettlement | core/generation_multi_request_journal.py:439-468 | a settlement issued for the current tip always passes the machine; what is appended agrees with the outcome before it; success consumes it and nothing else can be appended with it |
| JournalDisk.StepKeepsInv | core/generation_multi_request_journal.py:527-586 | every file step, failure or death of any writer, a failure between making the lock and guarding it included, keeps the directory's invariant |
| JournalDisk.TargetGrows | core/generation_multi_request_journal.py:565-565 | a replace adds exactly one signed entry and leaves a valid journal; every other step leaves the target alone |
| JournalDisk.HistoryIsLinear | core/generation_multi_request_journal.py:527-586 | over all interleavings of any number of writers the target is absent or valid, acknowledged entries are a prefix of it, and at most one writer ever has any |
| JournalDisk.HistoryOnlyGrows | core/generation_multi_request_journal.py:527-586 | what a run leaves on disk is a prefix of what every longer run leaves |
| JournalDisk.DiskAheadExactly | core/generation_multi_request_journal.py:565-579 | the disk is at most one entry ahead of every writer that has acknowledged anything; of another if and only if that writer made the journal, or its maker has acknowledged nothing, or only a first entry that is still the tip on disk |
| JournalDisk.LoserFallsArbitrarilyBehind | core/generation_multi_request_journal.py:530-541 | a reachable directory with a writer that is live, was refused at the lock once for every entry on disk, and is behind by all of them |
| JournalDisk.OnlyTheLoserIsRefused | core/generation_multi_request_journal.py:535-571 | between writers that keep to the protocol a check past the lock refuses if and only if another writer made the target first, an orphan temporary lies about, or the journal holds an integer too long to be read back |
| JournalDisk.ConflictsAreSeen | core/generation_multi_request_journal.py:535-571 | in any directory at all, whoever wrote in it, a writer passes its looks at the target if and only if the target is its own to the last entry and file, and the look at its snapshot if and only if that is what lies there; it replaces and gives a lock back only under the lock it made |
| JournalDisk.FailureKeepsEvidence | core/generation_multi_request_journal.py:580-586 | a failure changes no file, and a multi-request writer that failed never touches the directory again |
| JournalDisk.LockGivenBack | core/generation_ownership_journal.py:664-718 | over any run the version 1 writer gives its lock back whatever comes of its append, and the multi-request writer whenever it does not fail under it, unless it dies or abandons it |
| JournalDisk.AppendAloneSucceeds | core/generation_multi_request_journal.py:527-586 | from any reachable directory with a free lock an undisturbed append of either writer succeeds: the entry is on disk and acknowledged, and the lock is free again |
| JournalDisk.DeathAbandons | core/generation_multi_request_journal.py:529-534 | a death under the lock, or a failure between making and guarding it, leaves an abandoned lock |
| JournalDisk.DeadHolderFreezes | core/generation_ownership_journal.py:664-672 | a lock whose holder died, or failed before guarding it, freezes the journal in every continuation and lets no writer past it, for both writers |
| LeaseProtocol.ActKeepsInv | core/generation_protected_journal.py:252-363 | every step of every append, close and other ledger user keeps the invariant |
| LeaseProtocol.TraceKeepsInv | core/generation_protected_journal.py:252-363 | in every state of every interleaving the invariant holds and the log of events is safe |
| LeaseProtocol.NativeClosesOnce | core/generation_protected_journal.py:549-590 | the native close starts at most once |
| LeaseProtocol.NoLeaseAfterRevocation | core/generation_protected_journal.py:252-276 | no lease begins once revocation is published |
| LeaseProtocol.NativeCloseHoldsNoLease | core/generation_protected_journal.py:549-590 | every lease ever begun was released before the native close starts |
| LeaseProtocol.AckWasCommittedInTime | core/generation_protected_journal.py:286-291 | an acknowledgement is returned only after ledger commit and marker, both before revocation and under the call's own lease |
| LeaseProtocol.CloseReturnsAfterNative | core/generation_protected_journal.py:549-590 | a close returns normally only after the native close was started and ended |
| LeaseProtocol.EveryExitIsAccounted | core/generation_protected_journal.py:317-363 | an append ends acknowledged and completed, refused with nothing admitted, retained uncertain, or completed unacknowledged because another write was admitted since its commit; only an interrupt between admission and assignment, in the handler or in the release can leave the write completed or still active otherwise |
| LeaseProtocol.LeftWriteBlocksTheLedger | core/generation_protected_journal.py:330-332 | a write that its call left active keeps every later admission and commit out until the ledger goes down, and going down retains it |
| LeaseSettlement.SettlementExactly | core/generation_storage_admission.py:1882-1903 | after a commit every run of the ledger's other users is matched by protocol steps, and the handler then leaves the write uncertain if and only if the ledger accepts the compensation, which is if and only if no write is active and none was completed since |
| LeaseSettlement.Follow | core/generation_storage_admission.py:387-885 | whatever a ledger operation does to the active write and the ledger's life is one step of the protocol's other user, or none |
| LeaseProtocol.InterruptedCommitCanStay | core/generation_protected_journal.py:341-361 | a concrete run whose failed append stays completed with no interrupt in its handler |
| LeaseProtocol.InterruptedAdmissionStaysActive | core/generation_protected_journal.py:330-332 | a concrete run whose failed append leaves its write active |
| LeaseProtocol.AckCheckNeverFails | core/generation_protected_journal.py:341-348 | a committed append always finds its own marker, whoever revoked the lease since |
| LeaseProgress.NoLeaseAfterFailure | core/generation_protected_journal.py:252-363 | once an append has ended with an exception, its write admitted and no interrupt in its handler, no lease ever begins again, nothing is committed or acknowledged, and every append that starts is refused |
| LeaseProgress.RevocationStopsEveryone | core/generation_protected_journal.py:278-291 | once revocation is published no append goes on to a lease, an admission, the native append, the observation, the completion or the commit |
| LeaseProgress.DeadLedgerTakesNothing | core/generation_storage_admission.py:876-885 | once the ledger is down nothing is admitted or committed any more, and a write it still holds can only be retained |
| LeaseProgress.NoCloseWaitsForItself | core/generation_protected_journal.py:549-590 | a close is refused as reentrant if and only if its own thread has the lease, and never waits for a lease of its own thread |
| LeaseProgress.NoDeadlock | core/generation_protected_journal.py:549-590 | while some call is not over some call can move on, unless an interrupted release has left a lease held for good |
| PublicationBoundary.CapacityPublicationBoundary.BeginPublication | core/generation_storage_admission.py:79-85 | gives out a new open token exactly while not revoked, and leaves every other token as it was |
| PublicationBoundary.CapacityPublicationBoundary.FinishPublication | core/generation_storage_admission.py:87-91 | this token is not open afterwards, every other one is open exactly if it was, for the same thread |
| PublicationBoundary.CapacityPublicationBoundary.EnsureRevocationNotReentrant | core/generation_storage_admission.py:97-100 | refuses exactly a thread with an open token of its own, and changes nothing |
| PublicationBoundary.CapacityPublicationBoundary.StartRevoke | core/generation_storage_admission.py:102-106 | revokes unless the caller itself has an open token, and then changes nothing |
| PublicationBoundary.CapacityPublicationBoundary.StartRevokeOrDefer | core/generation_storage_admission.py:110-122 | always revokes, and tells the caller to wait exactly when it has no open token |
| PublicationBoundary.CapacityPublicationBoundary.IsCurrent | core/generation_storage_admission.py:93-95 | a token is current exactly while it is open and nothing was revoked |
| PublicationBoundary.RevocationIsFinal | core/generation_storage_admission.py:102-125 | when a revocation that waited returns, no token is active, then or in any continuation |
| PublicationBoundary.DrainedStays | core/generation_storage_admission.py:79-91 | a drained boundary never has an open token again |
| PublicationBoundary.OpenUntilFinished | core/generation_storage_admission.py:79-91 | over any run a token given to a thread is open, for that thread, exactly until a step finishes that very token |
| PublicationBoundary.DrainSawEveryFinish | core/generation_storage_admission.py:102-125 | when a boundary is drained every token ever begun there was finished by a step of its own |
| PublicationBoundary.BeginsExactly | core/generation_storage_admission.py:79-85 | a thread that asks is given a token if and only if no close has started and the owner was not found invalid |
| PublicationBoundary.DrainWaits | core/generation_storage_admission.py:110-122 | the draining of an invalidated owner, by a thread without a token of its own, returns only when both boundaries are drained |
| PublicationBoundary.OneCallAtATime | core/generation_storage_admission.py:2971-2988 | a closed owner is not closed again, and a thread leaves a call it is in only by the steps of that call |
| PublicationBoundary.CloseDrainsFirst | core/generation_storage_admission.py:2971-2988 | a closed owner has drained both boundaries; without invalidation the ledger is closed only then |
| PublicationBoundary.NobodyWaitsForItself | core/generation_storage_admission.py:97-125 | no thread ever waits for a token of its own |
| PublicationBoundary.InvalidationDoesNotWait | core/generation_storage_admission.py:3185-3195 | a concrete run that closes the ledger over an open publication |
| Neighborhood.GetNeighborhoodNodeIds | core/graph_neighborhood.py:4-37 | answers exactly the ids that a chain of at most `steps` edges, taken either way, joins to a selected id that is a node, and nothing or the empty set in the degenerate cases |
| Neighborhood.WithinIsJoined | core/graph_neighborhood.py:26-35 | levels of the search and undirected paths are the same thing |
| Neighborhood.NothingFurther | core/graph_neighborhood.py:34-35 | stopping at an empty frontier loses nothing |
| PromptBinding.CollectUpstreamTextNodeIds | core/comfy_prompt_binding.py:88-114 | terminates on any graph, cycles and dangling links included, with exactly the text nodes reachable upstream, each once |
| PromptBinding.InferWorkflowPromptNodeIds | core/comfy_prompt_binding.py:117-142 | each role lists exactly the text nodes upstream of some sampler's input for it, each once, samplers being known by their lower-cased class name |
| PromptBinding.Workflow.ReplaceClipTextPrompts | core/comfy_prompt_binding.py:13-72 | the workflow after the call is the one before with exactly the assigned texts, and the answer counts the assignments |
| PromptBinding.Workflow.AssignRoles | core/comfy_prompt_binding.py:27-46 | rewrites both roles and answers the sum of their sizes |
| PromptBinding.Workflow.Fallback | core/comfy_prompt_binding.py:48-72 | assigns exactly the first matching CLIP nodes of the roles left, or the only CLIP node |
| PromptBinding.RewriteIsExact | core/comfy_prompt_binding.py:31-43 | the negative text in every node with that role, the positive text in every node with only the other, everything else unchanged |
| PromptBinding.RewriteKeepsRoles | core/comfy_prompt_binding.py:27-46 | rewriting preserves the inferred roles |
| PromptBinding.RewriteIsIdempotent | core/comfy_prompt_binding.py:31-46 | rewriting twice with the same prompts is rewriting once |
| PromptBinding.FallbackIsConfined | core/comfy_prompt_binding.py:48-72 | beyond the roles only a CLIP node holding an imported text of an unresolved role, or the only CLIP node, changes |
| PromptBinding.RolesExactly | core/comfy_prompt_binding.py:75-142 | a node has a role if and only if it holds a text and a chain of links feeds it to the input of that name of a node whose class or type name is a sampler's |
| PromptBinding.ReplacedExactly | core/comfy_prompt_binding.py:27-72 | every node after the call: the first CLIP node with the imported prompt of a role without nodes, or the only CLIP node, gets that prompt; a node with a role gets the role's, the negative one first; every other node, and every other input, is as it was |
| PromptBinding.CountExactly | core/comfy_prompt_binding.py:27-72 | the answer is one for each node of each role and one for each CLIP node the fallback chose |
| SeedFinalization.NextUnused | core/generation_executable_manifest.py:264-270 | the wrap-around search terminates with the first unused value in cyclic order |
| SeedFinalization.SeedExactly | core/generation_executable_manifest.py:248-253 | a seed is accepted if and only if it is an integer of 64 bits or the float that equals one |
| SeedFinalization.PlacesExactly | core/generation_executable_manifest.py:258-262 | the seeds are exactly the inputs "seed" and "noise_seed", node by node in that order |
| SeedFinalization.FinalizeSeeds | core/generation_executable_manifest.py:256-279 | succeeds exactly on one to a hundred usable seeds with as many usable draws and no node without inputs; finalises each in order, first unused from its draw or preserved; a failure names its ground and leaves the pool exactly where the loop stopped |
| SeedFinalization.FinalizedMeans | core/generation_executable_manifest.py:256-279 | what the loop computes from a pool: success exactly on a finalisable workflow, the rows and the pool after it, and the ground of each code |
| SeedFinalization.RaisesExactly | core/generation_executable_manifest.py:256-279 | the loop raises what is no blocker if and only if some node has no inputs and the seeds before it are at most a hundred, each usable with a usable draw |
| SeedFinalization.ChosenAreDistinct | core/generation_executable_manifest.py:264-270 | random-policy values are pairwise distinct and new |
| ManifestFinalization.ReadParameters | core/generation_executable_manifest.py:282-297 | passes if and only if every node has a class name and supported parameters, a hundred in all; raises if and only if the first node that is not in order has no class name |
| ManifestFinalization.FinalizeRequest | core/generation_executable_manifest.py:339-358 | a request is frozen if and only if it is admissible where the loop stands, with every seed the first free one from its own draw; otherwise its code has its own ground there |
| ManifestFinalization.FinalizeRequests | core/generation_executable_manifest.py:334-360 | while nothing fails every request is frozen in its place against exactly the values and draws before it; each failed target has a binding blocker or a request that failed with that code where the loop stood |
| ManifestFinalization.FateMeans | core/generation_executable_manifest.py:339-358 | a request fails exactly when its seeds, parameters, bytes or the running aggregate do not fit, and each code stands for its own check |
| ManifestFinalization.FateRaises | core/generation_executable_manifest.py:339-358 | a request raises what is no blocker if and only if it has a node without inputs after at most a hundred usable seeds, or its seeds can be finalised and it has a node without a class name after acceptable parameters |
| ManifestFinalization.CrashExactly | core/generation_executable_manifest.py:334-360 | the loop has raised by a request if and only if an earlier request of an unblocked target raises where the loop came to it |
| ManifestFinalization.WellFormedNeverRaises | core/agent_facade.py:574-577 | while every node of every workflow has a class name and inputs, as the builder ensures, and verifying the bindings raises only blockers, the call does not raise |
| ManifestFinalization.OneNodeRaises | core/generation_executable_manifest.py:256-297 | two concrete plans that pass every plan check and raise, one for a node without a class name, one for a node without inputs |
| ManifestFinalization.DrawsInOrder | core/generation_executable_manifest.py:256-279 | the draw a request starts at is the number of seeds before it, and the aggregate counts exactly the host's bytes and those of the requests before it |
| ManifestFinalization.AggregateFailsTheRest | core/generation_executable_manifest.py:350-353 | once a request exceeds the aggregate its bytes stay counted, and no later request is frozen |
| ManifestFinalization.FailedSeedsAreNotReused | core/generation_executable_manifest.py:256-279 | under the random policy no later request is given a value that an earlier one was given, even if that one failed |
| ManifestFinalization.PlanExactly | core/generation_executable_manifest.py:300-320 | a plan is taken on if and only if it has one to a hundred requests, one to a hundred distinct targets, one to five runs, distinct request ids, and request k is run `k % runs + 1` of target `k / runs` |
| ManifestFinalization.CleanExactly | core/generation_executable_manifest.py:334-360 | nothing has gone wrong by a request if and only if every request before it is admissible |
| ManifestFinalization.MarkRows | core/generation_executable_manifest.py:361-370 | all runs of a failed target are uncertified, and on any failure no row keeps a seed |
| ManifestFinalization.FinalizeGenerationManifest | core/generation_executable_manifest.py:300-397 | the call raises what is no blocker if and only if a target's bindings or the first request to do so raise; past that, and past the sizes of the host's context, the manifest's payload and the projection, which give `manifest_limit`, a manifest exists if and only if every binding was verified and every request is admissible at its own draws and total; it holds every request in order, each seed a 64-bit value, preserved or the first from its draw that no earlier seed holds; otherwise every run of a failed target carries its blocker and no row keeps a seed |
| OutputStaging.ContainedOutputStore.ReadStream | core/comfy_output_containment.py:504-520 | the bounded read loop terminates, counts exactly what it wrote, succeeds if and only if the stream ends at exactly the declared length in chunks of the asked size, and is cut off exactly when an uncaught exception comes first |
| OutputStaging.AllStageExactly | core/comfy_output_containment.py:478-547 | all images are staged if and only if for each one the format is supported, the file made and checked, a positive length within the image, request and aggregate limits declared and exactly delivered, and every later step fine |
| OutputStaging.ImageStruckExactly | core/comfy_output_containment.py:479-547 | one image ends as its first step that is not fine, but for the two closes, which are made whatever came before and decide if they fail |
| OutputStaging.ContainedOutputStore.StageImages | core/comfy_output_containment.py:478-547 | succeeds if and only if every image does on top of those before it, and is cut off if and only if the first that does not is struck by an uncaught exception at any of its steps; verified images list descriptors in order with exact counts, and only the newest file can be incomplete |
| OutputStaging.ContainedOutputStore.CleanUp | core/comfy_output_containment.py:555-569 | removes exactly the incomplete own file and gives its bytes back, unless the removal fails, when it stays retained, or is struck, when it ends the call |
| OutputStaging.ContainedOutputStore.StageNew | core/comfy_output_containment.py:469-571 | a request adds at most `request_bytes` and disturbs no older file; it leaves no receipt if and only if an uncaught exception strikes the directory, the first image not staged, the checks after the last or the removal of an incomplete file; its receipt is verified if and only if every step went well, and retains exactly the new files |
| OutputStaging.ContainedOutputStore.Stage | core/comfy_output_containment.py:446-571 | used bytes are the bytes of the files left and within the aggregate limit, after an uncaught exception too; the provider loop is entered if and only if no receipt exists and nothing refuses the request before, and an entry leaves no receipt if and only if an uncaught exception escapes from it |
| OutputStaging.EnterTwice | core/comfy_output_containment.py:446-571 | a run of the store in which one request enters the provider loop twice, once struck in the provider call and then verified |
| OutputStaging.ContainedOutputStore.Revalidate | core/comfy_output_containment.py:628-648 | a lost file quarantines a verified receipt for good, anything else is answered unchanged |
| OutputStaging.ContainedOutputStore.Quarantine | core/comfy_output_containment.py:661-667 | quarantining touches the receipt alone, never the files or the bytes |
| PromptSubmission.ReadBody | core/comfy_http_submission.py:147-181 | accepts a body if and only if it ends in time within `MAX_REMOTE_BYTES`, and then exactly the bytes read |
| PromptSubmission.PostedAtMostOnce | core/comfy_http_submission.py:128-143 | over interleaved calls no request id is posted twice and at most a hundred are posted |
| PromptSubmission.StartsExactly | core/comfy_http_submission.py:112-128 | over interleaved calls an invalid request is rejected, an id that some call reserved before is answered unknown, and a new one goes on while fewer than a hundred were reserved, and is rejected otherwise |
| PromptSubmission.AttemptedExactly | core/comfy_http_submission.py:122-128 | the ids held as attempted are exactly those some call of the run reserved |
| PromptSubmission.AcceptedIdsAreDistinct | core/comfy_http_submission.py:172-177 | accepted prompt ids are pairwise distinct and belong to calls that posted |
| PromptSubmission.RejectedNeverPosted | core/comfy_http_submission.py:184-193 | a call answered rejected never invoked the post |
| PromptSubmission.PromptHTTPSubmissionTransport.Submit | core/comfy_http_submission.py:115-193 | one whole call: when it posts, what it reserves and registers, exactly when it is rejected, and exactly when it accepts which prompt id |

## Left out

- Windows handles, ACLs, NTFS identities, directory scans and disk-usage calls: they appear as observed inventories, fresh identities and yes-or-no answers.
- JSON encoding, SHA-256 and UUIDs: digests are terms, sizes are exact byte counts of the canonical form, names and identities are fresh numbers.
- LedgerSpec error codes: when several purposes fail a check at once the model reports the first in a fixed purpose order, where the code's order follows its dictionaries.
- JournalDisk.HistoryIsLinear: the version 1 journal shares the file protocol here but not its own observation vocabulary; both writers append events of the multi-request grammar.
- JournalWriter.MultiRequestJournalWriter.Append: the non-blocking `writer_busy` lock is not modelled; a call is atomic here and takes what the disk did as a parameter.
- JournalDisk.OnlyTheLoserIsRefused: observed identities are pairs of integers; the code also accepts lists, and an operation built with lists is unequal to the one it reads back, so its second append is refused with no other writer about.
- LeaseProtocol.EveryExitIsAccounted: the ledger appears as the account of each write; an interrupt strikes between critical sections of the ledger and the owner, not inside one.
- LeaseProtocol.ActKeepsInv: whether the owner is writable, which writer is selected, that writer's own closed, busy and uncertain marks, and the marks of appends outside the capacity path are not modelled; each of them only refuses more first steps.
- JournalEvents.CheckSequence: whether the project's root path is absolute and normal is the path library's answer and no part of a valid operation here.
- The owner's wrapper around a replacement checks roots, scope rows and writer types against modules outside this model; here these are the fields of a journal view.
- The free-bytes observation is not bounded from below by earlier writes: nothing in the code relates two observations.
- Liveness and fairness of waits, and lock ordering: only safety is stated; loops have termination measures.
- OutputStaging.ContainedOutputStore.Stage: an exception strikes in a call, not between a call and the statement that records it (a chunk's write and its count, an unlink and its subtraction, a creation and its listing); a failing write counts as a failing read and leaves no part of its chunk; uncaught exceptions before the loop is entered, or in checking an old receipt, change nothing and are left out; so is a provider that calls back into the busy store; image decoding and the content hash are answers of the surroundings.
- PromptSubmission.PromptHTTPSubmissionTransport.Submit: a connection whose post never starts and whose wire factory fails are one case; the observation record beside the result is left out.
- PromptBinding.Workflow.ReplaceClipTextPrompts: workflow entries do not share input objects, and class names are text.
- ManifestFinalization.FinalizeGenerationManifest: prompt-binding verification is an answer of the surroundings, a blocker or an exception that is none; so is whether one node's parameter rows are acceptable. A class name or inputs of the wrong JSON kind, a node that is no object, a target or workflow missing from the preflight, a random source that raises and the copy limits of the JSON reader are left out.
- Batch operations, routes, MCP catalogue, metadata reading, user interface, sockets and TLS would add easy members or live in modules outside this model.

# MutinyDB, modelled

MutinyDB joins a durable page store, an incremental compute engine and a volatile semantic plane. This
project models the protocols where those pieces meet and proves what they keep over every run, crashes
included:

- **Taint as retraction** (`Resolution`, `Keys`, `Taint`, `TaintCall`, `Healing`): resolving everything downstream of
  a source, journaling it, healing the volatile plane, retracting payload and then derivation rows, and
  resuming after any series of interruptions.
- **The taint ledger's two tiers** (`Ledger`): hot rows, the archive and the passes that move rows between them.
- **The commit queue** (`Queue`, `QueueRuns`, `Bridge`): captures stored inside commits, the manifest chain as
  the queue, prune, collapse, checkpoint and sweep, and the walk that reads the queue back.
- **Maintenance** (`Maintenance`, `MaintainedPlane`): the pass S1 to S6 with the archive step A, stopped
  anywhere, and what opening a tenant then finds.
- **The epoch clock** (`Preparation`, `Handoff`, `Epochs`): what a capture becomes in the compute log, and one
  commit, one sealed epoch, under retries that die between any two log steps; and **re-offering** (`Reoffer`):
  recovery by offering the whole history again.
- **Fork lineage, merge and wake** (`Lineage`, `Merge`, `Wake`): the heal cascade, merges that land once, and a
  bounded wake that rebuilds exactly the live membership.
- **The tenant whole** (`Standing`): store, maintenance, checkpoint and standing sets in one run, killed anywhere.
- **Semantic operators** (`TopK`, `Groups`): the ranking index and the grouping operator against recomputation.
- **The action gateway and the quota window** (`Gateway`, `Quota`).

Each core is a specification on values, proved over every input or run, and, where the code works by changing
state or by loops, a class or method in that form proved against the specification. `Wrappers`, `Order` and
`Engines` hold what the cores share: options and results, string order and sorted listings, and the compute
engine as batches under dedup tokens.

Conventions. Content addresses (manifest ids, segment names, dedup tokens) are the addressed values themselves,
so equal ids mean equal contents. Strings are ordered by code point, which is the byte order of their UTF-8
form. Scores are integers standing for the totally ordered floats the code compares with `total_cmp`. A crash
keeps every durable step and nothing else; "after `n` steps" quantifies over every place a process can die.

Where a property is false of the code the model keeps the code, shows an input or a family of inputs, and proves
the exact condition:

- Healing equals never ingesting if and only if no clean write shares a row with a downstream one
  (`Healing.HealingIsNeverIngesting`, `Healing.CleanRewriteIsLost`).
- Taint resumes across every series of interruptions, process deaths included, if and only if this very closure
  was not journaled before or nothing of it is held (`Taint.ResumesExactly`, `Taint.ForgetfulWorldFails`).
- An integer key reaches taint as eight bytes read as text, so a key such as -1 stops the call at the journal
  (`Keys.MinusOneRefuses`, `TaintCall.Plane.Taint`).
- A taint call gets past its heals if and only if no holder has a key listed twice when its turn comes; one that does
  refuses every retry (`TaintCall.HealAll`, `TaintCall.Plane.Taint`, `TaintCall.RewrittenKeyTraps`).
- A commit on a collapsed root can be recovered if and only if the checkpoint record was logged before it
  (`Maintenance.CollapseRecoversExactly`).
- A maintenance pass, stopped anywhere, leaves a tenant that reopens if and only if its checkpoint is backed and the
  plane was in step with the head or the prune removed nothing; a capture the compute log refused puts it behind
  (`Maintenance.PassReopensExactly`, `Maintenance.UnappliedWriteLocksOut`).
- A retraction is undone by the next reopening exactly by the net weight of the batches that had not landed: never
  on a plane that applied everything (`Reoffer.RetractionUndoneExactly`, `Reoffer.RefusedCaptureUndoesRetraction`).
- No interruption of a merge loses a row if and only if planned rows under one key are one row
  (`Merge.InterruptionsLoseNothingExactly`, `Merge.SharedKeyLosesARow`).
- A merge keeps one copy of each row if and only if no row it commits has a copy already; after a taint whose
  ledger was archived and a reopen, one does, its marker retracted or still unsealed (`Merge.RemergeExactly`,
  `Merge.ArchivedTaintDoubles`, `Merge.PendingMarkerDoubles`).
- Full replay is the live plane if and only if a listed heal reaches every row that a rewind dropped or withheld; a
  plane rebuilt otherwise can be woken from its first checkpoint if and only if every row that returned still has a
  live engine row (`Wake.FullReplayExactly`, `Wake.RebuiltWakesExactly`, `Wake.RewoundRowLocksOut`).
- An open is refused if and only if it finds a checkpointed row without a live engine row, which takes a taint after
  the checkpoint (`Standing.TenantStands`, `Standing.LostRowWasTainted`, `Wake.TaintedSinceLocksOut`).
- An action is performed if and only if its gates pass and the running process was not asked for its id before
  (`Gateway.CalledExactly`, `Gateway.RestartCallsAgain`).
- Retraction by key is refused if and only if a held key is listed twice (`TopK.RetractionIsExact`,
  `TopK.RepeatedKeyIsRefused`).
- The quota's sums let a charge through wrongly if and only if the byte sum wraps back under the quota
  (`Quota.WrapAdmitsExactly`, `Quota.WrapAdmitsTooMuch`).

`dafny verify dfyconfig.toml` checks the whole project with Dafny 4.11.

## Model

| member | source | states |
|---|---|---|
| `Resolution.ClosureIsReachability` | crates/mutiny-taint/src/lib.rs:477-528 | the rows resolution is meant to find are exactly those at the end of a chain from the source whose every further link is an edge from system `mutiny` and record `table/key` of the row before it |
| `Resolution.ClosureIsClosed` | crates/mutiny-taint/src/lib.rs:490-525 | the closure holds the source's own rows and every row that cites a member, cycles included |
| `Resolution.ClosureIsLeast` | crates/mutiny-taint/src/lib.rs:490-525 | it is the least set with that property |
| `Resolution.NextHop` | crates/mutiny-taint/src/lib.rs:502-525 | asking for citations in chunks of 32 finds exactly the rows citing the frontier, or refuses an unquotable citation |
| `Resolution.Round` | crates/mutiny-taint/src/lib.rs:490-525 | one round of the worklist adds exactly the next hop and keeps only what is new as the frontier |
| `Resolution.Resolve` | crates/mutiny-taint/src/lib.rs:477-528 | whenever it answers it returns exactly the ends of chains from the source, every one quotable as `table/key`; it ends on every relation, refuses for its rounds exactly if a row 64 edges away by its shortest chain is cited further, and otherwise only for a citation that cannot be quoted |
| `Resolution.TooDeepIsLong` | crates/mutiny-taint/src/lib.rs:490-500 | the round limit is met if and only if some chain of 65 edges has no shorter way to its 64th row |
| `Resolution.ShallowIsNotTooDeep` | crates/mutiny-taint/src/lib.rs:490-500 | a closure within 63 levels never meets the round limit |
| `Resolution.ClosureAfterRemoval` | crates/mutiny-taint/src/lib.rs:786-808 | once one source's rows are gone, another source resolves to its old closure without them |
| `Resolution.ResolvableAfterRemoval` | crates/mutiny-taint/src/lib.rs:490-528 | removing one closure keeps every other source resolvable: no chain deepens and no citation becomes unquotable |
| `Resolution.RemovalsCommute` | crates/mutiny-taint/src/lib.rs:786-808 | removing two closures leaves the same relation in either order |
| `Taint.TaintResumes` | crates/mutiny-taint/src/lib.rs:370-474 | after any series of attempts stopped anywhere, each with or without a process death a restart can rebuild, one completed attempt leaves the healed world and report of a single uninterrupted call |
| `Taint.UntaintedIsReady` | crates/mutiny-taint/src/lib.rs:352-369 | a world that only ever ingested captures is ready for a taint of any source, process deaths included |
| `Taint.HealedIsOneWorld` | crates/mutiny-taint/src/lib.rs:427-457 | the healed world is determined: same weights, held rows and archive |
| `Taint.HealedExactly` | crates/mutiny-taint/src/lib.rs:427-457 | the healed world written out: payload and derivation rows at the end of a chain are at zero, all others weigh what they did, the ledger gains each such write unless the set was journaled before, and each branch loses exactly the poisoned rows of its own or of a branch above it, a rewound one only its own |
| `Taint.WitnessOutlivesPayload` | crates/mutiny-taint/src/lib.rs:440-457 | while any payload row of the original closure is live, resolution still returns the whole closure |
| `Taint.ResumesExactly` | crates/mutiny-taint/src/lib.rs:370-474 | from any ready world held as a restart rebuilds it, every series of interruptions resumes to the healed world if and only if this set was not journaled before or nothing of it is held |
| `Taint.DeathForgetsHeal` | crates/mutiny-taint/src/lib.rs:619-674 | with this very set journaled before, a death after the retractions brings the held rows back, and the retry heals them only if there was nothing to heal |
| `Taint.ForgetfulWorldFails` | crates/mutiny-taint/src/lib.rs:619-674 | a concrete world, captured, journaled, archived, retracted and captured again, that is ready and not resumed |
| `Taint.AttemptLands` | crates/mutiny-taint/src/lib.rs:370-474 | from any state between attempts, stopping at any step again leaves a state between attempts |
| `Taint.RestartLands` | crates/mutinyd/src/plane.rs:417-490 | so does a process death and the rebuild from captures and hot ledger |
| `Taint.RetractAppendLands` | components/schweep/crates/schweep-server/src/engine.rs:435-551 | an appended retraction brings every named row of the channel to zero and moves no other row |
| `Taint.NothingToRetract` | components/schweep/crates/schweep-server/src/engine.rs:435-551 | a retraction that finds nothing of its rows seals no epoch |
| `TaintCall.HealAll` | crates/mutiny-taint/src/lib.rs:401-426 | branch by branch in order, the grouped heal cuts exactly the resolved rows; it stops if and only if some holder still has a key listed twice when its turn comes, and is then stuck on it |
| `TaintCall.RetractPayload` | crates/mutiny-taint/src/lib.rs:440-452 | payload channels are retracted in table order; a predicate past 512 disjuncts or with a literal that does not quote stops there |
| `TaintCall.RetractAll` | crates/mutiny-taint/src/lib.rs:440-457 | derivation edges go last, after every payload channel |
| `Keys.KeyDecodesExactly` | crates/mutiny-taint/src/lib.rs:881-909 | a key decodes if and only if it is the hexadecimal spelling of the UTF-8 form of some sequence of Unicode scalar values |
| `Keys.KeyQuotesExactly` | crates/mutiny-taint/src/lib.rs:911-924 | and it can be quoted if and only if that text is not empty and holds no quote and no control character |
| `Keys.MinusOneRefuses` | crates/mutiny-taint/src/lib.rs:881-899 | the eight bytes of the integer key -1 do not decode as text |
| `TaintCall.RewrittenKeyTraps` | crates/mutiny-taint/src/lib.rs:417-426 | a concrete world, one key written under two envelopes of a source and still held, in which no call ever reports |
| `TaintCall.Plane.Taint` | crates/mutiny-taint/src/lib.rs:370-474 | one call ends at a named step and reports only when every step landed; without a planned stop it reports if and only if the source and all names can be quoted, no chain is too long, at most 512 rows of known tables resolve, every key is that of a text that can be quoted, and no holder is stuck; a stuck one refuses every retry; it stops at the journal, before any heal, exactly when a resolved key is that of no text |
| `TaintCall.FitIsAdmissible` | crates/mutiny-taint/src/lib.rs:370-474 | the checks a call makes, wherever it makes them, are together that condition |
| `Healing.TaintKeepsReady` | crates/mutiny-taint/src/lib.rs:370-474 | a tainted world is ready for the next taint of any source |
| `Healing.TaintsCompose` | crates/mutiny-taint/src/lib.rs:477-528 | two taints in either order leave payload and derivation relations with exactly the joint closure removed |
| `Healing.ContaminationIsDownstream` | crates/mutiny-bridge/src/lib.rs:489-534 | resolution finds exactly the rows of the writes that are transitively downstream in the write history |
| `Healing.HealingIsNeverIngesting` | crates/mutiny-bridge/src/lib.rs:489-534 | the healed relations are those of the history without every downstream write, if and only if no clean write shares a row with a downstream one |
| `Healing.WrittenOnceIsUnshared` | crates/mutiny-taint/src/lib.rs:747-808 | histories that write each branch, table and key once always meet that condition |
| `Healing.CleanRewriteIsLost` | crates/mutiny-taint/src/lib.rs:747-808 | a clean rewrite of a poisoned row fails it |
| `Ledger.LedgerArchive.Append` | crates/mutiny-taint/src/archive.rs:56-96 | a segment is published before it is named, and nothing else changes |
| `Ledger.LedgerArchive.AllRows` | crates/mutiny-taint/src/archive.rs:120-162 | exactly the rows of all named segments, or a refusal when one is missing or not its own content |
| `Ledger.LedgerArchive.RowsFor` | crates/mutiny-taint/src/archive.rs:101-117 | exactly those rows of one source |
| `Ledger.PassKeepsInv` | crates/mutiny-taint/src/lib.rs:689-745 | an archival pass stopped after any step keeps every remembered row and every hot weight non-negative |
| `Ledger.EventKeepsInv` | crates/mutiny-taint/src/lib.rs:689-745 | so does every journal, seal and other batch |
| `Ledger.LedgerNeverShrinks` | crates/mutiny-taint/src/lib.rs:689-745 | between any two points of any interleaving of journals, passes and crashes on a fresh ledger, hot and archive together lose no row |
| `Ledger.RemembersExactly` | crates/mutiny-taint/src/lib.rs:619-745 | over every run from a fresh ledger, whenever nothing waits for a seal, a row is hot or archived if and only if some event journaled it under its source |
| `Ledger.LedgerIsSound` | crates/mutiny-taint/src/lib.rs:689-745 | hot weights never go negative, a hot row leaves only once a named segment holds it, and every journaled row is remembered |
| `Ledger.PassEmpties` | crates/mutiny-taint/src/lib.rs:705-742 | exactly when a finished pass leaves the hot tier empty |
| `Ledger.TieredLedger.ArchiveResolved` | crates/mutiny-taint/src/lib.rs:689-745 | the pass as the code runs it, killed or not, ends at the specified tiers |
| `Queue.CollectExact` | crates/mutiny-bridge/src/lib.rs:273-327 | past the consumed prefix the walk collects exactly the committed captures |
| `Queue.CollectConsumed` | crates/mutiny-bridge/src/lib.rs:273-327 | inside it the walk fails or meets a sequence twice |
| `Queue.WalkIsExact` | crates/mutiny-bridge/src/lib.rs:273-327 | a walk returns exactly the captures after its offset, in order and as committed, or an error; with the chain present it answers if and only if the offset is not below a consumed sequence |
| `Queue.FirstGap` | crates/mutiny-bridge/src/lib.rs:314-326 | no gap is reported if and only if the sequences are dense |
| `Queue.RefusedUnlessAcceptable` | crates/mutiny-bridge/src/lib.rs:202-230 | a draft is refused if and only if it is malformed, does not carry the next number, does not list exactly the pages written, writes the reserved page or is over one MiB, and each refusal by name means what it says |
| `Queue.CommitFollows` | crates/mutiny-bridge/src/lib.rs:202-230 | the resulting manifest holds each written page as written, the draft on the capture page, and every other page of the head unchanged |
| `Queue.PruneSpares` | crates/mutiny-bridge/src/lib.rs:1053-1091 | a page of the head is kept, unchanged, if and only if it is the capture page or a page some pending capture lists |
| `QueueRuns.CommitDerives` | crates/mutiny-bridge/src/lib.rs:202-230 | an admitted draft always changes the store, carries itself in the commit and takes the next sequence |
| `QueueRuns.StepKeepsInv` | components/substrate/crates/substrate-wal/src/lib.rs:129-200 | commits, prunes, collapses, checkpoints, sweeps and crashes keep the chain carrying the whole history, in memory and in the log |
| `QueueRuns.QueueIsExact` | crates/mutiny-bridge/src/lib.rs:1053-1168 | the capture queue is exact or refuses, after every run |
| `QueueRuns.PagesAreLastWritten` | components/substrate/crates/substrate-pager/src/pager.rs:717-760 | after every run a page of the head holds the bytes of the last accepted commit that wrote it, unless a later prune no pending capture kept it from removed it |
| `QueueRuns.UncheckpointedCollapseDiverges` | crates/mutiny-bridge/src/lib.rs:1093-1114 | a commit on a collapsed root whose collapse was not checkpointed makes recovery refuse |
| `Maintenance.CollapseRecoversExactly` | crates/mutiny-bridge/src/lib.rs:1093-1154 | with nothing, the record or the whole checkpoint after a collapse, a commit on the flat root can be recovered if and only if the record was logged |
| `Bridge.DurableQueue.CommitWithCapture` | crates/mutiny-bridge/src/lib.rs:202-230 | refuses, by a name that says why, exactly what does not follow the head, changing nothing; otherwise the head holds the pages as written, the draft and the rest unchanged, and the writer is handed the capture a walk will return |
| `Bridge.DurableQueue.RecoverPendingCaptures` | crates/mutiny-bridge/src/lib.rs:273-327 | the cursor walk computes the specified walk |
| `Bridge.DurableQueue.CollapsedFloor` | crates/mutiny-bridge/src/lib.rs:1019-1046 | answers exactly when the whole chain is present, with the root's own sequence if it carries one |
| `Bridge.DurableQueue.PruneConsumed` | crates/mutiny-bridge/src/lib.rs:1053-1091 | keeps, unchanged, exactly the capture page and the pages pending captures list, or refuses with the walk |
| `Bridge.DurableQueue.InstallCollapsedRoot` | crates/mutiny-bridge/src/lib.rs:1116-1145 | only the volatile head moves, to a parentless root with the same pages and time |
| `Queue.CheckpointRecovers` | crates/mutiny-bridge/src/lib.rs:1147-1154 | recovery lands on the head from a finished checkpoint, and from the record alone exactly if the log before it replays |
| `Bridge.DurableQueue.CheckpointWal` | crates/mutiny-bridge/src/lib.rs:1147-1154 | killed after the record or not, the head and the manifests stay, and a reopening lands on that head unless the log was already broken |
| `Bridge.DurableQueue.SweepUnreachable` | crates/mutiny-bridge/src/lib.rs:1160-1168 | whatever the head reaches stays, a cut sweep leaves garbage only, and a missing ancestor refuses |
| `Maintenance.FloorCheckpointHead` | crates/mutinyd/src/plane.rs:506-543 | collapse floor <= checkpoint <= head sequence |
| `Maintenance.SafeReopens` | crates/mutinyd/src/plane.rs:256-293 | what is safe to crash on opens on the head's own sequence, and is refused only for a checkpointed row without a live engine row |
| `Maintenance.OpenExactly` | crates/mutinyd/src/plane.rs:256-293 | every open of a recoverable queue by name: unbacked checkpoint, archive or collapsed chain without a checkpoint, captures consumed past where replay starts, and everything else live at the head |
| `Maintenance.PassIsSafe` | crates/mutinyd/src/plane.rs:506-543 | a pass in step with the head may die at S1 to S6, at A, or inside S3, S5 and S6, and the disk stays safe |
| `Maintenance.FinishedPassTidies` | crates/mutinyd/src/plane.rs:506-543 | a finished pass leaves one parentless manifest, which is head, base and all that is present, an empty log, and of the old pages exactly what a prune spares |
| `Maintenance.MaintenanceIsCrashSafe` | crates/mutinyd/src/plane.rs:506-543 | in every run whose passes start in step, no open is refused for the queue, an archive or a collapse: the durable chain is present and nothing past the checkpoint was consumed; the one refusal left is a checkpointed row some open found unbacked |
| `Maintenance.PassReopensExactly` | crates/mutinyd/src/plane.rs:506-543 | wherever a pass stops, its tenant reopens if and only if its checkpointed rows are backed and the plane was in step with the head, or nothing past its sequence was consumed and the prune removed no page |
| `Maintenance.UnappliedWriteLocksOut` | crates/mutinyd/src/plane.rs:1062-1077 | a committed capture the compute log refused, then a pass and a restart, end in a refused open |
| `MaintainedPlane.TenantStore.Maintain` | crates/mutinyd/src/plane.rs:506-543 | the pass step by step leaves the specified disk wherever it is killed: the checkpoint from S2 on, the archive mark from A on, the queue untouched before S3, and tidied when it finishes |
| `MaintainedPlane.TenantStore.Open` | crates/mutinyd/src/plane.rs:256-293 | bounded path with a checkpoint, full replay without one, and the three refusals by name |
| `Preparation.PayloadOrigin` | crates/mutiny-bridge/src/lib.rs:499-521 | a payload batch holds each change's row under its own weight, as often as it was written |
| `Preparation.EdgeOrigin` | crates/mutiny-bridge/src/lib.rs:506-519 | the derivation batch holds exactly the rows that pair a change of some table with a source of the envelope, under the change's weight |
| `Preparation.PreparedHandsOver` | crates/mutiny-bridge/src/lib.rs:489-568 | a batch for each table and one for the derivation relation, in order of their names, all under the commit: each row as often as it was written, each key as often as it was changed for every source of the envelope, and nothing else |
| `Preparation.PreparedTokens` | crates/mutiny-bridge/src/lib.rs:489-568 | every batch of a capture is under a token of its own commit, and no two share one |
| `Preparation.Prepare` | crates/mutiny-bridge/src/lib.rs:439-568 | answers if and only if the draft is well formed and the commit wrote exactly the pages it lists, with the batches so handed over, or with the refusal that applies |
| `Handoff.EdgesAreContributions` | crates/mutiny-bridge/src/lib.rs:506-519 | the derivation batch holds each edge as often as the writes of the draft derive it |
| `Handoff.CaptureIsIngested` | crates/mutiny-bridge/src/lib.rs:489-534 | in the batches of a capture of insertions every payload row and every edge has the multiplicity the write history gives it |
| `Epochs.FeedCanonical` | crates/mutiny-bridge/src/lib.rs:385-402 | known tokens first, then by table, extends a partial append in canonical order up to the crash |
| `Epochs.NextAttempt` | crates/mutiny-bridge/src/lib.rs:333-419 | what one attempt on the next capture does from any reachable log, for every number of log steps survived |
| `Epochs.AttemptExactly` | crates/mutiny-bridge/src/lib.rs:333-419 | every attempt from any reachable log: replayed, mismatched or compacted, a gap, an unknown table, a rival, or on from where the last one stopped and sealed if it lives past its last batch |
| `Epochs.AppliedIsAdmitted` | crates/mutiny-bridge/src/lib.rs:385-419 | on any log, a capture is applied only with each of its batches admitted as it is under its own token, for a known table |
| `Epochs.OneCommitOneEpoch` | crates/mutiny-bridge/src/lib.rs:333-419 | after any schedule of dying attempts and compactions, sealed epoch e holds exactly capture e's batches in canonical order and no commit is in two epochs |
| `Epochs.RetainedIsAnchor` | components/schweep/crates/schweep-log/src/log.rs:692-712 | over every schedule the dropped prefix ends at the largest anchor that named a sealed epoch |
| `Epochs.RetryIsReplayed` | crates/mutiny-bridge/src/lib.rs:342-363 | a retry of a sealed sequence changes nothing and is recognised exactly when it is the sealed capture and not compacted |
| `Epochs.RivalIsRefused` | crates/mutiny-bridge/src/lib.rs:373-384 | while a capture is partly appended, exactly its rivals are refused, and it completes once an attempt lives long enough |
| `Epochs.EpochClock.ApplyCommit` | crates/mutiny-bridge/src/lib.rs:333-419 | the code's checks and loops compute the specified attempt |
| `Reoffer.OfferAddsMissing` | components/schweep/crates/schweep-log/src/log.rs:545-646 | offering batches appends exactly the ones not yet admitted, refuses nothing and admits each token once |
| `Reoffer.OfferAgrees` | components/schweep/crates/schweep-log/src/log.rs:545-646 | and it answers only if no token is held with other content |
| `Reoffer.RecoverAddsMissing` | crates/mutinyd/src/plane.rs:417-454 | recovery adds, over the whole history, exactly the batches that never landed |
| `Reoffer.EveryBatchOnce` | crates/mutinyd/src/plane.rs:1062-1077 | after any run whose stops were all followed by a complete recovery, each batch of a capture committed while serving is admitted once, everything is sealed, and the visible Z-set is those captures' plus the retractions' |
| `Reoffer.HistoryIsCommitted` | crates/mutinyd/src/plane.rs:1062-1077 | the history recovery offers is every capture written while the plane served, and it serves exactly if no stop is unrecovered |
| `Reoffer.RetractionTakesExactly` | components/schweep/crates/schweep-server/src/engine.rs:435-551 | a retraction, sealed or not, takes all of its own rows' weight and nothing of any other row's |
| `Reoffer.RetractionIsGone` | components/schweep/crates/schweep-server/src/engine.rs:435-551 | a completed retraction leaves its rows at zero, and gone for good if and only if no batch that has yet to land weighs them |
| `Reoffer.RetractedStaysGone` | crates/mutinyd/src/plane.rs:417-454 | a row that is gone at some point of a run stays gone through every later run of crashes, refused captures, partial and complete re-offers, retractions and writes that do not weigh it |
| `Reoffer.RetractionUndoneExactly` | crates/mutinyd/src/plane.rs:1024-1026 | after a retraction and a reopening the row weighs exactly what the batches that had not landed weigh |
| `Reoffer.RefusedCaptureUndoesRetraction` | crates/mutinyd/src/plane.rs:1024-1026 | a run in which a capture is refused by compute, its row retracted to zero and back after the reopening |
| `Reoffer.ReopeningAddsUnlanded` | crates/mutinyd/src/plane.rs:417-454 | reopening moves a row's weight by exactly the unlanded batches, and changes nothing on a plane that applied everything |
| `Reoffer.OfferingPlane.Apply` | crates/mutinyd/src/plane.rs:1062-1077 | answers if and only if no token is held with other content, with everything missing sealed behind what was there, as one epoch if there was anything to seal |
| `Reoffer.OfferingPlane.RecoverAll` | crates/mutinyd/src/plane.rs:417-454 | capture by capture |
| `Lineage.FromEvents` | crates/mutiny-forks/src/lib.rs:155-177 | folds if and only if no child is forked twice, and then says of every branch what the events say; otherwise it names the child and its first fork |
| `Lineage.ActiveDescendants` | crates/mutiny-forks/src/lib.rs:204-219 | ends on every fork map, cyclic ones included, with exactly the descendants not rewound, reached through rewound ones, in order |
| `Lineage.Heal` | crates/mutinyd/src/plane.rs:1562-1583 | completes if and only if no holder refuses, and then cuts exactly the named rows from the branch and its active descendants |
| `Lineage.HealIsolated` | crates/mutiny-trust/src/lib.rs:343-367 | no other branch moves |
| `Merge.PlanRows` | crates/mutiny-forks/src/lib.rs:227-248 | the plan is exactly the post-fork rows whose keys carry no merge marker |
| `Merge.StepKeepsInv` | crates/mutiny-incident/src/host.rs:641-735 | every commit stopped after any log step, every taint, archival, reopen and merge only extends the history and keeps each merge marker on the one copy of a post-fork row, given distinct keys in the divergence and a hot ledger that still lists a taint at a reopen |
| `Merge.MergeLandsOnce` | crates/mutiny-incident/src/host.rs:521-626 | in any run of writes, forks, rewinds, taints, archivals, crashes and merges of a child into a target, each stopped after any log step, with distinct keys in the divergence and no reopen after a taint's ledger was archived: everything marked is, field by field, a row the child wrote after its fork, on the target and with the marker among its sources, and no row has two copies |
| `Merge.CompletedMergeLandsAll` | crates/mutiny-incident/src/host.rs:521-626 | a merge that runs to its end puts every row the child wrote after its fork on the target exactly once, same table, key, body and sources, and the next one plans nothing |
| `Merge.InterruptedMergeLands` | crates/mutiny-incident/src/host.rs:556-575 | wherever a merge is cut or dies, a planned row is on the target after the retry if and only if it landed before or shares no key with one that did |
| `Merge.InterruptionsLoseNothingExactly` | crates/mutiny-incident/src/host.rs:556-626 | every planned row arrives under every interruption if and only if planned rows under one key are one row |
| `Merge.SharedKeyLosesARow` | crates/mutiny-incident/src/host.rs:556-575 | one key in two tables and a merge cut after one row lose the other |
| `Merge.RemergeExactly` | crates/mutiny-incident/src/host.rs:864-917 | whatever a taint retracted, a merge keeps one copy of each row if and only if no row it commits has a copy already |
| `Merge.ArchivedTaintDoubles` | crates/mutiny-incident/src/host.rs:864-917 | a run, merged, tainted, archived and reopened, that commits a second copy |
| `Merge.PendingMarkerDoubles` | crates/mutiny-incident/src/host.rs:709-735 | a run that retracts nothing: the engine, ahead of the commits, refuses the merged row and the next reopen, opens on the one after with the marker unsealed, and a second copy is committed |
| `Merge.IncidentHost.PlanMerge` | crates/mutiny-incident/src/host.rs:531-577 | candidates from the history, markers from what the derivation relation shows sealed and not retracted, then the filter |
| `Merge.IncidentHost.MergeDurable` | crates/mutiny-incident/src/host.rs:521-626 | every record it commits is, field by field, a row of the child's on the target with the marker among its sources; denied or tainted it changes nothing; the branch is unknown exactly if no fork of it was recorded, and one commit per row goes up to the limit or the death |
| `Merge.HalfIngestedShows` | crates/mutiny-incident/src/host.rs:709-735 | after a commit that stopped between its batches and a taint, its derivation rows are missing exactly if its table sorts before the derivation relation |
| `Wake.HealAllRows` | crates/mutinyd/src/plane.rs:459-490 | a run of ledger heals removes exactly what some heal of it reaches |
| `Wake.StepKeepsInv` | crates/mutinyd/src/plane.rs:767-809 | every commit, fork, rewind, taint, checkpoint and open keeps live membership equal to the rebuilt one without what later heals cover, as long as full replay brings back no stale row |
| `Wake.HeldExactly` | crates/mutinyd/src/plane.rs:1133-1159 | over every allowed run, from its events alone: a branch holds a row if and only if it was written there or came with the fork from a parent that held it, and since then the branch was not rewound and no taint healed the row on it |
| `Wake.WakeIsLive` | crates/mutinyd/src/plane.rs:617-738 | whenever the bounded wake answers, each branch holds exactly its live set, whichever earlier heals the ledger still lists |
| `Wake.UntaintedIsBacked` | crates/mutinyd/src/plane.rs:676-695 | on a plane no stale row came back to, a wake is refused only if a checkpointed row was tainted after the checkpoint |
| `Wake.TaintedSinceLocksOut` | crates/mutinyd/src/plane.rs:676-695 | a row written, checkpointed and tainted: the checkpoint wakes no more |
| `Wake.BoundedWakeIsLive` | crates/mutinyd/src/plane.rs:256-293 | in runs without a key written twice on a lineage, in which no restart without a checkpoint brings back a stale row, with no checkpointed row tainted since: opening succeeds and equals live, and so does a wake, which is refused exactly without a checkpoint |
| `Wake.FullReplayIsLive` | crates/mutinyd/src/plane.rs:417-454 | without rewinds full replay and the listed heals rebuild the live sets |
| `Wake.FullReplayExactly` | crates/mutinyd/src/plane.rs:417-454 | over every run without a checkpoint, full replay and the listed heals rebuild the live sets if and only if a listed heal reaches every row replay holds and the plane without its heals does not |
| `Wake.FullReplayKeepsRewound` | crates/mutinyd/src/plane.rs:430-438 | right after the first rewind that says: every row the child had is listed as healed in its own name |
| `Wake.RebuiltWakesExactly` | crates/mutinyd/src/plane.rs:676-695 | a plane rebuilt by full replay, tainted and checkpointed can be woken if and only if every stale row that returned still has a live engine row |
| `Wake.RewoundRowLocksOut` | crates/mutinyd/src/plane.rs:430-438 | write, fork, rewind: the live plane holds nothing on the branch, a restart brings its row back, and after a taint of the row and a checkpoint no wake answers |
| `Wake.StandingPlane.ApplyCommit` | crates/mutinyd/src/plane.rs:1133-1159 | a write adds its items to its branch's rows, a fork gives the child the parent's, a rewind empties the child, no other branch changes, and the lineage records the fork or the rewind |
| `Wake.StandingPlane.ApplyLedgerHeals` | crates/mutinyd/src/plane.rs:459-490 | one heal per ledger row through the cascade; a single key is never refused |
| `Wake.StandingPlane.Recover` | crates/mutinyd/src/plane.rs:417-454 | full replay folds every capture, keeps a rewound branch's rows and applies every listed heal |
| `Wake.StandingPlane.WakeFromCheckpoint` | crates/mutinyd/src/plane.rs:617-738 | answers if and only if every checkpointed row has a live engine row, and then holds checkpoint, suffix and heals |
| `Standing.ReadsBack` | crates/mutinyd/src/plane.rs:697-738 | the queue reads back exactly the commits since the checkpoint, so what is rebuilt from disk is what the plane's open holds |
| `Standing.OpenedStands` | crates/mutinyd/src/plane.rs:256-293 | opening a safe disk is refused exactly for a checkpointed row without a live engine row, and otherwise holds the live sets |
| `Standing.TenantStands` | crates/mutinyd/src/plane.rs:256-293 | over every allowed run of writes, forks, rewinds, taints and passes, killed anywhere and opened each time: refused if and only if some open finds an unbacked row, and otherwise at rest on the whole history with every branch holding what a process that never died holds |
| `Standing.LostRowWasTainted` | crates/mutinyd/src/plane.rs:676-695 | a tenant is lost only over a row tainted after the checkpoint that names it |
| `TopK.AnswerIsTopK` | crates/mutiny-semantic/src/lib.rs:205-219 | the answer is k admitted keys or all of them, numbered from 1 with their scores, each above the next and above every admitted key left out: a higher score, or the same and a key that sorts first |
| `TopK.EpochExactly` | crates/mutiny-semantic/src/lib.rs:222-295 | from the deltas alone: an epoch is refused by the first delta that is not acceptable after those before it, for its own reason, and otherwise each key holds what the last delta on it left |
| `TopK.RowsAreNet` | crates/mutiny-semantic/src/lib.rs:222-289 | the rows held are, record by record, the net of the accepted deltas |
| `TopK.NetDeterminesRows` | crates/mutiny-semantic/src/lib.rs:222-289 | two runs with the same net leave the same rows, hence the same answer and bytes |
| `TopK.DiffWeight` | crates/mutiny-semantic/src/lib.rs:1010-1031 | an emitted difference is exactly the change of the answer as a Z-set |
| `TopK.EmittedIsAnswer` | crates/mutiny-semantic/src/lib.rs:222-240 | folding everything emitted from nothing gives the current answer, whatever was refused on the way |
| `TopK.RetractionIsExact` | crates/mutiny-semantic/src/lib.rs:303-318 | retraction by key succeeds if and only if no held key is listed twice, and removes exactly those rows |
| `TopK.RepeatedKeyIsRefused` | crates/mutiny-semantic/src/lib.rs:303-318 | a held key listed twice is refused, whatever else is held |
| `TopK.SemanticTopK.Answer` | crates/mutiny-semantic/src/lib.rs:205-219 | reading the index equals recomputing from the rows |
| `TopK.SemanticTopK.ApplyOneTo` | crates/mutiny-semantic/src/lib.rs:242-295 | one delta keeps rows, index and byte count in step, or is refused by name |
| `TopK.SemanticTopK.ApplyEpoch` | crates/mutiny-semantic/src/lib.rs:222-240 | a whole epoch or nothing, as its deltas say; index, bytes and budget hold afterwards and the difference is emitted |
| `TopK.SemanticTopK.RetractKeys` | crates/mutiny-semantic/src/lib.rs:303-318 | the same by key, skipping keys not held |
| `TopK.AnswerDiff` | crates/mutiny-semantic/src/lib.rs:1010-1031 | removed hits, then new ones |
| `Groups.NearestAnchor` | crates/mutiny-semantic/src/lib.rs:807-817 | the lowest-indexed anchor among the best |
| `Groups.MergeDisjointExact` | crates/mutiny-semantic/src/lib.rs:685-698 | a merge is refused on a shared key or past the budget, and otherwise holds the rows of both |
| `Groups.MergeTreeIsUnion` | crates/mutiny-semantic/src/lib.rs:685-698 | any tree of merges succeeds if and only if its operators are disjoint and together fit the budget, and then holds their union |
| `Groups.MergeOrderIsIrrelevant` | crates/mutiny-semantic/src/lib.rs:665-741 | two trees of merges over the same operators, in any shape and order, succeed together, with the rows of one operator fed everything and the same summaries |
| `Groups.SummariesAreUnique` | crates/mutiny-semantic/src/lib.rs:701-741 | the summaries are determined by the rows and the plan |
| `Groups.SemanticGroups.ApplyEpoch` | crates/mutiny-semantic/src/lib.rs:665-681 | a whole epoch or nothing, as its deltas say, every row on its nearest anchor, bytes equal to the sum |
| `Groups.SemanticGroups.MergeDisjointWith` | crates/mutiny-semantic/src/lib.rs:685-698 | refused on a different space, anchors, predicate or budget, on a shared key or past the budget, and otherwise the rows of both |
| `Groups.SemanticGroups.Summaries` | crates/mutiny-semantic/src/lib.rs:701-741 | one summary per group with admitted members: count, average cost in key order, share of erring members, member keys, and as exemplar the member whose dot product with the anchor is largest, the first key among equals |
| `Gateway.GateIsAllGates` | components/loomdb/crates/loom-action/src/gateway.rs:220-311 | the ordered checks let a proposal through if and only if every gate holds |
| `Gateway.AtMostOneEffect` | components/loomdb/crates/loom-action/src/gateway.rs:204-342 | over every sequence of proposals, switch flips, connector answers and restarts: one call per action id and process at most, success only with the receipt of that call, and no call behind a refusal |
| `Gateway.CalledExactly` | crates/mutiny-incident/src/host.rs:942-945 | from the events of any run: a proposal is performed, once, if and only if the running process was not asked for its id before, nothing disabled the gateway or its tenant since, and evidence, policy and connector let it through |
| `Gateway.RecordsTheFirst` | components/loomdb/crates/loom-action/src/gateway.rs:204-342 | the record of an id is that of the first execution the running process was asked for under it: its own fields, the first refusal that applies, or the outcome told as it was with the policy version and the compensating action |
| `Gateway.RestartCallsAgain` | crates/mutiny-incident/src/host.rs:942-945 | a proposal that passes is called twice across a restart, which meets the bound |
| `Gateway.EffectOnlyThroughGates` | components/loomdb/crates/loom-action/src/gateway.rs:204-342 | the world is touched exactly when a first execution passes every gate |
| `Gateway.RecordsAreFinal` | components/loomdb/crates/loom-action/src/gateway.rs:204-218 | a decided record never changes while the process lives |
| `Gateway.RetryReturnsFirst` | components/loomdb/crates/loom-action/src/gateway.rs:204-218 | every later retry in the same process returns the first record and calls nothing |
| `Gateway.CollidingKeysShareARecord` | components/loomdb/crates/loom-action/src/gateway.rs:204-218 | two keys with one id share the first record, and the second action is not performed |
| `Gateway.SwitchStopsEffects` | components/loomdb/crates/loom-action/src/gateway.rs:110-141 | after everything, or this tenant, is disabled nothing is called until it is enabled again, which for a tenant takes a restart |
| `Gateway.ActionGateway.DecideAndRun` | components/loomdb/crates/loom-action/src/gateway.rs:220-342 | the checks in order, then at most one call |
| `Gateway.ActionGateway.ExecuteProposal` | components/loomdb/crates/loom-action/src/gateway.rs:204-218 | decides once per id and hands back the record kept under it |
| `Quota.WindowBound` | crates/mutinyd/src/server.rs:139-161 | each window admits at most the request and byte quotas |
| `Quota.AnySecondAtMostTwice` | crates/mutinyd/src/server.rs:139-161 | any half-open second of any trace admits at most twice each quota |
| `Quota.FactorTwoIsMet` | crates/mutinyd/src/server.rs:139-161 | a two-charge run meets that factor for requests and bytes |
| `Quota.SecondStartsOver` | crates/mutinyd/src/server.rs:139-161 | a charge a second or more after the window opened is admitted if and only if it fits the quotas alone, and the counters start over at it; an earlier one is held against the window |
| `Quota.WrapAdmitsExactly` | crates/mutinyd/src/server.rs:145-158 | wrapping sums admit what plain ones refuse exactly when the byte sum wraps back under the quota |
| `Quota.WrapAdmitsTooMuch` | crates/mutinyd/src/server.rs:145-158 | a spent ten-byte window admits a charge one short of the width |
| `Quota.QuotaWindow.ChargeFor` | crates/mutinyd/src/server.rs:139-161 | a charge that overflows no sum is admitted if and only if it fits beside what the current window holds, the window stays within both quotas, and no second of the whole trace has admitted more than twice each |

## Left out

- Taint.TaintResumes: says what a completed attempt leaves; a closure past the round limit, past 512 rows a channel or with unquotable keys never completes, and `TaintCall.Plane.Taint` says where it stops.
- TaintCall.Plane.Taint: reports the healed rows only; the section on irreversible actions is a filter over the gateway's records, and an archive that refuses to be read is in `Ledger`. An integer key is carried as its eight bytes in hex and goes through the same decoding.
- Healing.HealingIsNeverIngesting: histories are insertions; updates written as a retraction and an insertion of one key in one commit are not part of it.
- Handoff.EdgesAreContributions: for the same reason it takes drafts of insertions.
- Handoff.CaptureIsIngested: takes captures whose changes are insertions of rows that carry their own keys.
- Lineage.Heal: the per-branch operator stores are represented by the rows they hold, under table and key; the code's stores are keyed by key alone.
- Bridge.DurableQueue.CommitWithCapture: catalog, identifier and envelope-admission refusals come before anything it models and are not modelled.
- Preparation.Prepare: identifier, envelope-admission and manifest-id refusals are not modelled.
- Maintenance.MaintenanceIsCrashSafe: engine compaction (S1) changes nothing the model sees, and whether a checkpoint's rows are backed is an input of each open; `Standing.TenantStands` computes it.
- Standing.TenantStands: takes the runs `Wake.BoundedWakeIsLive` takes, and writes that compute applies or the process dies of; a capture compute refuses is in `Maintenance.PassReopensExactly` and `Reoffer`.
- Epochs.OneCommitOneEpoch: captures are the ones storage hands out, so one commit id means one capture; row arity and column types, envelope admission and identifier syntax are not modelled.
- Reoffer.EveryBatchOnce: batch entries are consolidated to one weight per row, retractions happen on a plane that finished its recovery, and one that fails before its seal ends the process.
- Merge.MergeLandsOnce: merges of other children in the same run and merges back into the child are excluded, since copies of copies carry the same marker; a taint whose journal was appended and not sealed before a death is not among the events.
- Wake.BoundedWakeIsLive: states which rows each branch holds; the record behind a key is looked up by table and key only, so branches that hold different rows under one key are told apart no further than that. A repeated rewind of one branch, which drops rows without a capture, is excluded, and so is a restart without a checkpoint that brings a stale row back, which `Wake.RebuiltWakesExactly` follows.
- TopK.SemanticTopK.ApplyEpoch: byte counts are unbounded, so saturation of the machine word is not modelled; vectors, columns and their validation are opaque.
- Groups.SummariesAreUnique: averages are over the reals in key order, not rounded floats.
- Gateway.AtMostOneEffect: one lock serialises executions, so calls are a sequence; the digest behind an action id is a parameter, and what an external system does with a repeated idempotency key is outside.
- Quota.AnySecondAtMostTwice: takes charges whose sums fit 64 bits; `Quota.WrapAdmitsExactly` says what happens otherwise in a build that wraps.
- Model migration between embedding generations (paired epochs over two top-k operators): it would add only easy members.
- Host profiles, readiness, backup, tenancy, capability tokens, policies and charters.
- HTTP, MCP and SDK surfaces, SQL text and its parser: queries and predicates are set comprehensions.
- Embedding, dot products and normalisation: scores are given.
- The page store, the log and the engine below the operations the cores call: torn writes, checksums, file layout and snapshots.

# A verified model of the Synch sync engine

This project models the decision cores of the Synch client, the code that decides what merges, what is
applied, in what order, and how far the cursor may move, and proves what they promise.

| file | models |
|---|---|
| `TextLines.dfy`, `LineDiff.dfy`, `TextMerge.dfy` | the three-way text merge: line splitter, LCS table, greedy diff, two-pointer merge |
| `PullGroups.dfy` | union-find grouping of what a pull applies |
| `CursorProtocol.dfy`, `CursorOutcome.dfy`, `CursorSafety.dfy`, `CursorFailures.dfy` | pull windows, checkpoints, pushes, replayed answers and stale local writers against a server log: what every step does, what every run keeps, which runs are safe, and runs that fail |
| `PushAccounting.dfy` | what a push does with each mutation |
| `EntryRecords.dfy`, `EntryStore.dfy`, `SyncStore.dfy` | entry records, pending mutations, the store with its unique path keys, accepted pushes |
| `FileRules.dfy` | conflict copies: their names, and why no rules sync them |
| `Planner.dfy`, `PlannerOutcome.dfy` | the manifest planner: managed paths, deferral fixpoint, path reservation, and what becomes of each item |
| `ByteBudget.dfy`, `ContentRuntime.dfy`, `RetryCache.dfy`, `ReclaimLoop.dfy`, `CacheOutcome.dfy` | the byte budget, reservations, the reclaimable ciphertext cache and the loop that reclaims it |
| `PullPipeline.dfy`, `PullProgress.dfy`, `PushPipeline.dfy`, `PushProgress.dfy` | the two preparation pipelines: what they keep, and that they get to their end |
| `AutoSync.dfy`, `AutoSyncProgress.dfy` | the auto-sync loop: drain, reconnect, retry, and that its work comes to an end |
| `AdaptivePolicy.dfy`, `TransferScheduler.dfy` | the transfer lanes and their adaptive limit |
| `ApplyOutcome.dfy`, `PullApplier.dfy`, `ApplyFits.dfy` | applying a prepared group, putting the store back when a step fails, and when the store takes the rows |
| `Reconcile.dfy`, `ReconcileOutcome.dfy`, `ReconcileService.dfy`, `ReconcileRaces.dfy`, `ReconcileProtocol.dfy` | local reconcile: the diff between disk and store, what becomes of each file and entry, alone and beside other writers, and as part of the cursor protocol |

How the model is built:

- Code that computes a value is a function; code that changes things step by step is a method or a class, proved
  against a function on values, and the properties are lemmas about that function.
- Promises, timers and network answers are events of transition systems. A lemma over a run holds for every
  order of events and for every failure in between.
- Encrypted metadata is a box that carries the context it was sealed for and opens only under exactly that
  context. Hashes are strings; equal content has equal hashes.
- The store is a map of records; a write that would give two rows the same visible remote or local path raises and
  changes nothing. A record is dirty exactly when it holds a pending mutation.
- Byte counts are natural numbers (the source floors them first), and rates and times are reals.

Where the code does not do what one would expect, the code is followed:

- `splitLines` drops the text before U+2028 or U+2029 on its line. The round trip and the agreement of the fast paths
  therefore hold if and only if the text has neither character.
- The copy of a file whose extension consists of blanks only, such as `a.` followed by a no-break space, is not
  recognized as a conflict copy: trimming cuts the name back to its dot. Outside reserved places there are rules that sync
  it; for every other path no rules do.
- The cursor promises that the latest commit of an entry at or below it is stored. Every such commit has been taken over
  (`EveryChangeIsTakenOver`), but the store does not compare revisions when it writes, so an entry can be set back behind the
  cursor, in at least four ways. An accepted push is stored without a look at the stored revision: after a lost answer
  and a pull that skips the path of the entry, the repeated push brings the old answer (`ReplaySkipsAChange`). A delete that was
  planned while the entry had no revision drops the row after its first push was answered (`StaleDropSkipsAChange`).
  The re-application of config files writes rows back that a pull has replaced meanwhile (`StaleWriteSkipsAChange`). Restoring
  a version starts a pull that the drain loop does not know of; it can overtake a push (`OverlapMovesTheCursorBack`).
  `NoRemoteChangeIsSkipped` says over all runs exactly when the promise holds. `UndisturbedRunsAreSafe` and
  `RunsWithoutSkipsAreSafe` name steps, each visible to the client at the write, without which it always holds.
- The cursor itself never moves back while pulls and pushes come one after the other; with an overlapping restore it can.
- A pulled file cannot be stored at a path that the store still has as the remote path of another entry while that entry
  is known locally under another one: looking up the path finds no owner, and the unique key on remote paths refuses the row, so the group is
  rolled back unless the state of that entry comes first (`RenamedFileKeepsItsOldPath`). `OwnersAreDealtWith` shows that in a
  final window every owner the planner can find is dealt with.
- `reconnectNow` called while a fresh session unblocks mutations drops that session and starts no other attempt, because
  one is still running; when that one ends, the loop is active without a session, an attempt or a timer
  (`ReconnectIsLost`). `StepKeepsLinked` shows that this is the only such step.
- A stop called while a fresh session unblocks mutations is undone when that wait ends, because the loop
  then sets its state to live.

## Model

| member | source | states |
|---|---|---|
| `TextLines.SplitJoinRoundTrip` | packages/sync-client/src/sync/engine/text-merge.ts:45-55 | Joining the split lines gives the text back if and only if the text has neither U+2028 nor U+2029, at which `.` stops. |
| `TextLines.JoinSplitRoundTrip` | packages/sync-client/src/sync/engine/text-merge.ts:45-55 | Splitting joined lines gives the same lines back, for every sequence whose lines carry their own terminator (the last may lack one) and that has no CR line before a line starting with LF. |
| `TextLines.SplitIsCanonical` | packages/sync-client/src/sync/engine/text-merge.ts:45-55 | For texts without those two characters the split lines always have that form: all but the last terminated, the last not empty, CRLF never split. |
| `LineDiff.CreateLcsTable` | packages/sync-client/src/sync/engine/text-merge.ts:112-127 | The in-place table: every cell (i, j) is the recurrence for the suffixes that start at i and j. |
| `LineDiff.LcsIsUpperBound` | packages/sync-client/src/sync/engine/text-merge.ts:112-127 | No common subsequence of two suffixes is longer than their cell. |
| `LineDiff.LcsIsReached` | packages/sync-client/src/sync/engine/text-merge.ts:112-127 | Some common subsequence of two suffixes is as long as their cell, so the cell is the true maximum. |
| `LineDiff.KeptIsBounded` | packages/sync-client/src/sync/engine/text-merge.ts:61-127 | No ordered edit script keeps more base lines than the cell for base and result. |
| `LineDiff.DiffReplacements` | packages/sync-client/src/sync/engine/text-merge.ts:61-110 | The three loops with an open replacement produce the diff that the lemmas below are about. |
| `LineDiff.DiffRebuildsVariant` | packages/sync-client/src/sync/engine/text-merge.ts:61-110 | Applying the diff to base gives the variant; each replacement changes something and a kept line lies between any two. |
| `LineDiff.DiffIsMinimal` | packages/sync-client/src/sync/engine/text-merge.ts:61-127 | The diff keeps exactly cell (0, 0) base lines, and no script with the same result keeps more. |
| `TextMerge.Choose` | packages/sync-client/src/sync/engine/text-merge.ts:151-186 | One turn of the merge loop: it gives up exactly when the two heads clash, and otherwise takes a head that lies wholly before the other, or both when they are equal. The failing branches at lines 165 and 185 are never taken. |
| `TextMerge.MergeReplacements` | packages/sync-client/src/sync/engine/text-merge.ts:129-190 | The two-pointer walk fails exactly when some local and some remote replacement clash (overlap or same place with different content); otherwise it returns base with the union of both lists applied. |
| `TextMerge.UnionIsSortedUnion` | packages/sync-client/src/sync/engine/text-merge.ts:151-186 | The union holds exactly the edits of the two lists, each once, in base order. |
| `TextMerge.MergeAppliesBothDiffs` | packages/sync-client/src/sync/engine/text-merge.ts:39-42 | For any three line sequences: the merge is clean exactly when no edits clash, and is then base with every edit of either diff applied once. |
| `TextMerge.MergeLinesIsSymmetric` | packages/sync-client/src/sync/engine/text-merge.ts:129-190 | Swapping the two line sequences changes nothing. |
| `TextMerge.MergeIsSymmetric` | packages/sync-client/src/sync/engine/text-merge.ts:18-43 | Swapping local and remote text changes nothing, fast paths and size budget included. |
| `TextMerge.MergeText3` | packages/sync-client/src/sync/engine/text-merge.ts:18-43 | The whole operation on texts, with its fast paths, its budget of 2,000,000 cells and both results. |
| `TextMerge.ConflictExactly` | packages/sync-client/src/sync/engine/text-merge.ts:18-43 | Three different texts conflict exactly when a table of either diff would have more than two million cells, or some local and some remote replacement differ and touch. |
| `TextMerge.MergeLinesTrivialCases` | packages/sync-client/src/sync/engine/text-merge.ts:18-27 | On lines, equal sides merge to that side and an untouched side yields the other. |
| `TextMerge.FastPathsAgree` | packages/sync-client/src/sync/engine/text-merge.ts:18-43 | A fast path returns what diff and merge would return if and only if the text it returns has neither U+2028 nor U+2029. |
| `PullGroups.Root` | packages/sync-client/src/sync/engine/pull-application-groups.ts:35-38 | Finds the representative of a node and compresses the path in place; the forest still represents the same sets. |
| `PullGroups.BuildForest` | packages/sync-client/src/sync/engine/pull-application-groups.ts:34-46 | After all unranked unions two nodes have the same root if and only if a chain of shared keys connects them. |
| `PullGroups.GroupPullApplications` | packages/sync-client/src/sync/engine/pull-application-groups.ts:11-59 | The groups are exactly the connected components: every plan and superseded item once, in input order, groups ordered by first member. |
| `PullGroups.ComponentsAreUnique` | packages/sync-client/src/sync/engine/pull-application-groups.ts:47-58 | There is only one such grouping of an input. |
| `PullGroups.GroupsAreIndependent` | packages/sync-client/src/sync/engine/pull-application-groups.ts:8-10 | Every node is in a group, and nodes of different groups share no entry key and no path key. |
| `PullGroups.KeysDistinguish` | packages/sync-client/src/sync/engine/pull-application-groups.ts:19-31 | The prefixed key strings never confuse an entry with a path, nor two names. |
| `CursorProtocol.StepKeepsInvariant` | packages/sync-client/src/sync/engine/pull-service.ts:89-210 | Any number of pulls, one push, local work, rows written back or dropped long after they were read, failures, replayed answers and foreign commits may interleave at every wait; each step keeps the invariant: every latest commit at or below the stored cursor, and at or below the cursor each task works with, has been taken over, and what lies between it and the last page of a pull has been taken over or is still in hand. |
| `CursorProtocol.FreshClientIsSafe` | packages/sync-client/src/sync/engine/pull-service.ts:98-102 | A new client (cursor 0, nothing stored, nothing pending, nothing running) satisfies it against any server log. |
| `CursorProtocol.EveryChangeIsTakenOver` | packages/sync-client/src/sync/engine/pull-service.ts:212-231 | In every such state every latest commit at or below the cursor has been taken over at some time, at exactly its revision. |
| `CursorProtocol.NoRemoteChangeIsSkipped` | packages/sync-client/src/sync/engine/pull-service.ts:148-201 | Over every run, for each entry that starts level (stored at the highest revision it ever had): the promise of the cursor holds throughout if and only if no step writes a revision below the stored one, or drops a row that has one, behind the cursor, and no checkpoint passes the latest commit of the entry while it is set back; the stored revision never falls if and only if no step writes or drops like that at all, and then every latest commit at or below the cursor is stored at exactly its revision. |
| `CursorProtocol.PromiseMeans` | packages/sync-client/src/sync/engine/pull-service.ts:212-231 | The promise for an entry fails exactly when the cursor is past its latest commit and the entry has been set back since it was taken over. |
| `CursorProtocol.PromiseBreaksExactly` | packages/sync-client/src/sync/store/entry-record.ts:395-410 | One step ends a kept promise exactly when it sets the entry back behind the cursor or moves the cursor past the latest commit of an entry that is set back. |
| `CursorProtocol.StepIsMonotone` | packages/sync-client/src/sync/engine/pull-service.ts:212-231 | A stored revision falls exactly when a step writes a lower one or drops the row, the cursor exactly when a task writes a lower one; an entry that is level stays so exactly as long as its revision does not fall. |
| `CursorProtocol.AllAnsweredSets` | packages/sync-client/src/sync/store/entry-record.ts:417-451 | Writing a batch clears the mutation that was answered and keeps a newer one of the same entry. |
| `CursorProtocol.NothingIsDropped` | packages/sync-client/src/sync/engine/pull-service.ts:128-133 | The filter on already received states drops nothing, since a page starts after all received so far. |
| `CursorProtocol.EachEntryOnce` | packages/sync-client/src/sync/engine/pull-service.ts:106-134 | A pull never holds two states of one entry, over all its pages and deferrals. |
| `CursorProtocol.LookedFits` | packages/sync-client/src/sync/engine/pull-manifest-planner.ts:62-72 | Refusing an item that is below the stored revision at the moment the planner looks at it loses no latest state. |
| `CursorProtocol.WindowDoneKeepsInvariant` | packages/sync-client/src/sync/engine/pull-service.ts:212-266 | The checkpoint of a window passes nothing that has not been taken over. |
| `CursorProtocol.CheckpointIsLargest` | packages/sync-client/src/sync/engine/pull-service.ts:212-266 | And it is as far as it may go: up to just before the first deferred item; without deferred items up to the last item of the window; after the last window up to the target. It never falls, and it is stored whenever it moves. |
| `CursorProtocol.FinishedPullReachesTarget` | packages/sync-client/src/sync/engine/pull-service.ts:198-201 | A pull that ends normally has taken over everything up to its target, and leaves the cursor there or beyond unless another task sets it back between the last look and the end. |
| `CursorProtocol.GetContiguousAcceptedCursor` | packages/sync-client/src/sync/engine/push-service.ts:477-491 | The loop that drains the set returns the end of the run of accepted numbers right after the cursor. |
| `CursorProtocol.ContiguousIsUnique` | packages/sync-client/src/sync/engine/push-service.ts:477-491 | Only one cursor is such an end. |
| `CursorProtocol.PushFinishKeepsInvariant` | packages/sync-client/src/sync/engine/push-service.ts:334-341 | The checkpoint after a push passes only commits of this client that the server accepted and that have been stored. |
| `CursorProtocol.PushCheckpointIsLargest` | packages/sync-client/src/sync/engine/push-service.ts:334-341 | And it passes all of them that directly follow the cursor the push started from, and no further. |
| `CursorSafety.CursorNeverMovesBack` | packages/sync-client/src/sync/engine/pull-service.ts:212-231 | Over every run in which no pull or push starts while another one runs, the stored cursor never decreases, replays included. |
| `CursorSafety.RunsWithoutSkipsAreSafe` | packages/sync-client/src/sync/engine/pull-entry-state-applier.ts:302-317 | Over every run of a new client with one pull or push at a time, in which no skipped item has a pending mutation and no row is written or put back from a stale read: no stored revision falls, the cursor never moves back and no remote change at or below it is skipped, however many answers are lost and replayed. |
| `CursorSafety.UndisturbedRunsAreSafe` | packages/sync-client/src/sync/runtime/version-history-service.ts:285-295 | The same with pulls and pushes overlapping at will, as long as in addition no item is stored over a mutation a push has in hand, nor below what has come in since the planner looked at it. |
| `CursorSafety.StepKeepsClean` | packages/sync-client/src/sync/store/entry-record.ts:395-438 | Only these disturbing steps, each visible to the client at the write, can make an answer old or set an entry back: any other step keeps every entry level and every mutation that waits, is listed or is answered at or above the stored revision. |
| `CursorSafety.StepKeepsAbove` | packages/sync-client/src/sync/engine/pull-manifest-planner.ts:62-72 | With one task at a time nothing newer comes in between the look of the planner at an item and its write. |
| `CursorSafety.BatchSettles` | packages/sync-client/src/sync/engine/push-service.ts:263-281 | In such runs writing a batch raises every answered entry to its answer, and whatever the entry has queued since is new to the server; so no push sets back an entry it has written an answer for. |
| `CursorFailures.ReplaySkipsAChange` | packages/sync-client/src/sync/engine/push-service.ts:231-266 | A failing run of a new client: the answer to a push is lost, another client changes the entry, the pull skips its path and keeps the mutation, and the old answer to the repeated push is written over the newer revision, which the cursor has passed. |
| `CursorFailures.StaleDropSkipsAChange` | packages/sync-client/src/sync/engine/local-reconcile-service.ts:71-246 | A second one: a reconcile lists the row of an entry without a revision and plans to drop it, the first push of the entry is answered and the cursor moves, and then the row is dropped. |
| `CursorFailures.StaleWriteSkipsAChange` | packages/sync-client/src/sync/engine/vault-config-reapply.ts:38-127 | A third one: the re-application of config files reads a row, a pull takes a newer state over and moves the cursor, and then the row is written back. |
| `CursorFailures.OverlapMovesTheCursorBack` | packages/sync-client/src/sync/runtime/version-history-service.ts:285-295 | A fourth one: a pull beside the drain loop, as a restore starts one, overtakes a push, whose old answer is then written over the newer revision behind the cursor; the end of the push moves the cursor back. |
| `CursorOutcome.PullBegins` | packages/sync-client/src/sync/engine/pull-service.ts:98-110 | A pull asks for what came after the stored cursor, with nothing in hand; other pulls, the push and the store do not notice. |
| `CursorOutcome.PageJoinsWindow` | packages/sync-client/src/sync/engine/pull-service.ts:128-146 | A page joins the window as a whole, and the planner gets the window exactly when it is full or no more pages follow. |
| `CursorOutcome.RefusedExactly` | packages/sync-client/src/sync/engine/pull-manifest-planner.ts:62-72 | An item is refused exactly when it is below the stored revision at the moment the planner looks at it, so one at the stored revision is applied. |
| `CursorOutcome.PlannedExactly` | packages/sync-client/src/sync/engine/pull-service.ts:148-170 | Exactly the items are applied that are neither refused nor deferred. |
| `CursorOutcome.WindowGoesOn` | packages/sync-client/src/sync/engine/pull-service.ts:196-201 | A window that is done leaves its deferred items to the next one; the last page ends the loop. |
| `CursorOutcome.PullCloses` | packages/sync-client/src/sync/engine/pull-service.ts:198-210 | A pull that ends stores its target exactly if that is beyond the cursor it has just read; one that fails leaves everything as it is. |
| `CursorOutcome.PushBegins` | packages/sync-client/src/sync/engine/push-service.ts:98-118 | A push counts from the stored cursor; one that fails leaves the store as it is. |
| `CursorOutcome.PushLists` | packages/sync-client/src/sync/engine/push-service.ts:142-149 | It lists a mutation as it waits. |
| `CursorOutcome.PushGivesUp` | packages/sync-client/src/sync/engine/push-service.ts:156-185 | A dropped mutation is only no longer in hand, a blocked one is written back besides. |
| `CursorOutcome.ServerAnswers` | packages/sync-client/src/sync/engine/push-service.ts:197-258 | A new mutation on the latest revision becomes the next commit, of the next revision and under its id; one committed before is answered with the number and revision it had then. |
| `CursorOutcome.BatchIsCounted` | packages/sync-client/src/sync/engine/push-service.ts:225-265 | A written batch is no longer in hand and its commit numbers are counted. |
| `CursorOutcome.LocalWork` | packages/sync-client/src/sync/store/entry-record.ts:395-438 | An edit waits under a new id on the revision it was made on; a row that was read may be written back or dropped at any later time. |
| `CursorOutcome.AppliedExactly` | packages/sync-client/src/sync/engine/pull-entry-state-applier.ts:440-458 | An applied item is stored at its revision; the mutation of its entry is dropped, kept, or replaced by a new one based on the item, and no other entry changes. |
| `CursorOutcome.BatchStores` | packages/sync-client/src/sync/store/entry-record.ts:395-463 | Writing a batch stores each answered entry at the revision of its answer; its mutation is gone if it is the one answered, and waits under its id on that revision if it is a newer one. |
| `PushAccounting.EveryMutationHasOneFate` | packages/sync-client/src/sync/engine/push-service.ts:142-332 | In every run of a push, each listed mutation is still owned or was accepted, rejected, blocked, requeued or given up, once for each time it was listed. |
| `PushAccounting.RequeuesAreLimited` | packages/sync-client/src/sync/engine/push-service.ts:123-148 | No entry is requeued more than twice without an acceptance in between; twice is exactly what reaches the limit, and then nothing more is loaded. |
| `PushAccounting.StepKeepsInvariant` | packages/sync-client/src/sync/engine/push-service.ts:142-332 | Loading entries and disposing of a batch keep the account and the limit. |
| `PushAccounting.HistoryDecides` | packages/sync-client/src/sync/engine/push-service.ts:142-332 | What a push may still do follows from the fates of its mutations: while it runs, a pull is due exactly once one was stale; a batch may be sent exactly while none was stale or over the quota; more may be loaded exactly while, besides, no entry has been put back twice since it was last accepted. |
| `PushAccounting.BatchFinishes` | packages/sync-client/src/sync/engine/push-service.ts:156-327 | A batch gives up exactly its own mutations and finishes each with its fate. |
| `PushAccounting.LoadOwns` | packages/sync-client/src/sync/engine/push-service.ts:142-149 | Loading makes exactly the loaded entries owned besides those that are. |
| `EntryRecords.CreateNextBlobId` | packages/sync-client/src/sync/core/mutation-queue.ts:157-173 | A blob id is reused only for the blob of live content with the same hash. |
| `EntryRecords.BuildLocalUpsert` | packages/sync-client/src/sync/core/mutation-queue.ts:61-104 | A queued upsert carries revision, blob and hash of its base, or none without a base; its metadata opens to its path and hash under the next revision and under no other. |
| `EntryRecords.BuildLocalDelete` | packages/sync-client/src/sync/core/mutation-queue.ts:128-155 | A queued delete likewise, without blob and hash of its own. |
| `EntryRecords.RebaseMerged` | packages/sync-client/src/sync/engine/pull-pending-mutation-handler.ts:170-181 | The mutation of a text merge carries revision, blob and hash of the pulled state it is based on, and opens for the next revision only. |
| `EntryStore.WriteKeepsInvariant` | apps/cli/src/host/sqlite-store/store.ts:182-534 | Every store write that succeeds keeps the invariant: each pending row is bound to its context, its base triple equals the base triple of the record, and no two rows hold the same visible remote path or local path. |
| `EntryStore.UnblockKeepsInvariant` | apps/cli/src/host/sqlite-store/store.ts:438-455 | Unblocking by reason keeps it. |
| `SyncStoreClass.WritesKeepInvariant` | apps/cli/src/host/sqlite-store/store.ts:97-534 | So does any sequence of writes of any writers; a write that raises leaves the table as it was. |
| `SyncStoreClass.PlanIsGood` | packages/sync-client/src/sync/store/entry-record.ts:362-393 | Sealing the metadata of a newer edit again never fails in a reachable store, and the result fits whatever row still carries that mutation id. |
| `SyncStoreClass.ApplyAcceptedIsGood` | packages/sync-client/src/sync/store/entry-record.ts:395-463 | Applying an accepted push records the accepted state as the remote one, touches the local state only if it is unknown or the very content pushed, cleans an entry without newer edits, and keeps a newer edit with its id and content, based on the accepted revision. |
| `SyncStoreClass.FreshPlansFit` | apps/cli/src/host/sqlite-store/store.ts:557-588 | A batch planned against the table it is applied to is never sent back for a retry. |
| `SyncStoreClass.OutdatedEntry` | packages/sync-client/src/sync/store/entry-record.ts:430-438 | A batch is retried exactly when some entry has a pending mutation that is neither the pushed one nor the one planned for. |
| `SyncStoreClass.WrittenExactly` | apps/cli/src/host/sqlite-store/store.ts:557-600 | The rows of a batch are written if and only if none of them wants a visible path that an earlier row of the batch has, or an entry that none of them replaces. |
| `SyncStoreClass.SyncStore.TryBatch` | apps/cli/src/host/sqlite-store/store.ts:557-600 | One attempt with other writers in between writes all rows or none; a retry means another writer came in between. |
| `SyncStoreClass.SyncStore.ApplyAcceptedPushBatch` | apps/cli/src/host/sqlite-store/store.ts:545-605 | At most three attempts: applied as a whole on the table the last transaction found, or raised without a write, because a path key was taken or other writers came in between each time. |
| `SyncStoreClass.SyncStore.PutEntry` | apps/cli/src/host/sqlite-store/store.ts:666-668 | Inserts or replaces one row, and raises exactly when another row holds one of its path keys. |
| `SyncStoreClass.SyncStore.ApplyRemoteState` | apps/cli/src/host/sqlite-store/store.ts:182-200 | The new table of the write, or the old one when it raises. |
| `SyncStoreClass.SyncStore.ClearRemoteState` | apps/cli/src/host/sqlite-store/store.ts:202-224 | Likewise; a row with nothing left disappears. |
| `SyncStoreClass.SyncStore.MarkEntryDirty` | apps/cli/src/host/sqlite-store/store.ts:385-397 | Likewise, and the mutation id is recorded. |
| `SyncStoreClass.SyncStore.ClearDirtyEntryByMutationId` | apps/cli/src/host/sqlite-store/store.ts:457-466 | Cleans the one row whose pending mutation has the id. |
| `SyncStoreClass.SyncStore.ApplyReconcileEntryUpdates` | apps/cli/src/host/sqlite-store/store.ts:486-534 | One transaction: all updates in order, or the table as it was. |
| `ApplyOutcome.EffectOfWrite` | apps/cli/src/host/sqlite-store/store.ts:182-466 | A write changes only the entry it names, and of it only the part the write is about. |
| `FileRules.GetAvailableConflictCopyPath` | packages/sync-client/src/sync/core/conflict-file.ts:19-33 | Returns the first candidate that does not exist, after at most one attempt more than there are existing paths. |
| `FileRules.AttemptsDiffer` | packages/sync-client/src/sync/core/conflict-file.ts:53-72 | Different attempts give different paths. |
| `FileRules.Extension` | packages/sync-client/src/sync/core/conflict-file.ts:60-64 | The extension starts at the last dot that is not the first character and holds no other dot; it is not empty when there is such a dot. |
| `FileRules.ConflictCopyIsRecognized` | packages/sync-client/src/sync/core/file-rules.ts:219-223 | After normalization a conflict copy is recognized as one if and only if the original extension is empty or has a character that trimming keeps. |
| `FileRules.ConflictCopyIsNeverSynced` | packages/sync-client/src/sync/core/file-rules.ts:72-123 | No file rules sync a conflict copy if and only if the original extension is empty or not blank throughout, or the copy lies in a reserved place (a reserved segment, or the config folder). |
| `FileRules.BlankExtensionEscapes` | packages/sync-client/src/sync/core/file-rules.ts:19-20 | The counterexample to the unconditional claim: the copy of `a.` followed by a no-break space is synced by rules that include other files and exclude no folder. |
| `FileRules.NormalizedCopy` | packages/sync-client/src/sync/core/file-rules.ts:182-184 | Normalizing a conflict path changes it only before its mark and after its counter. |
| `FileRules.ConflictCopyIsNotManaged` | packages/sync-client/src/sync/core/vault-config-rules.ts:79-162 | Under no config rules is a conflict copy a managed config path. |
| `FileRules.SyncedUnderSomeRules` | packages/sync-client/src/sync/core/file-rules.ts:72-123 | Some rules sync a path if and only if it has a name, is no conflict copy and lies in no reserved place. |
| `FileRules.MoreRulesSyncMore` | packages/sync-client/src/sync/core/file-rules.ts:72-123 | Including more kinds or hidden folders, or excluding fewer folders, never takes a path out. |
| `FileRules.FolderTakesItsOwn` | packages/sync-client/src/sync/core/file-rules.ts:192-200 | Excluding one more folder takes out exactly the folder itself and what lies in it. |
| `FileRules.HiddenNeedsAFolder` | packages/sync-client/src/sync/core/file-rules.ts:92-98 | A path with a segment that starts with a dot is synced only under an included hidden folder; any other is judged without them. |
| `FileRules.OneFlagMatters` | packages/sync-client/src/sync/core/file-rules.ts:99-122 | Notes are synced whatever kinds are included; of the kinds only the flag of the own extension matters. |
| `Planner.Triage` | packages/sync-client/src/sync/engine/pull-manifest-planner.ts:53-73 | The first loop: the first invalid item raises; the others are accepted, skipped or reported as rollbacks, in order. |
| `Planner.FindWinners` | packages/sync-client/src/sync/engine/pull-manifest-planner.ts:276-302 | One pass finds the winner of each managed path. |
| `Planner.WinnerIsNewest` | packages/sync-client/src/sync/engine/pull-manifest-planner.ts:284-297 | The winner is the live item of the path that no other item of it beats by updatedSeq, then by entry id. |
| `Planner.SettleManagedPaths` | packages/sync-client/src/sync/engine/pull-manifest-planner.ts:76-100 | Items that lose their managed path are superseded or reported as rollbacks; the others stay active. |
| `Planner.SupersededLostToNewer` | packages/sync-client/src/sync/engine/pull-manifest-planner.ts:79-98 | A superseded item lost its path to an active live item that is newer, unless it is a delete itself. |
| `Planner.DeferPass` | packages/sync-client/src/sync/engine/pull-manifest-planner.ts:107-134 | One pass of the deferral loop, judged against the ids active when the pass began. |
| `Planner.Defer` | packages/sync-client/src/sync/engine/pull-manifest-planner.ts:102-136 | The loop ends, in the fixpoint of its passes. |
| `Planner.DeferralIsLeast` | packages/sync-client/src/sync/engine/pull-manifest-planner.ts:102-136 | That fixpoint is the least set closed under "its path is owned by an entry outside the rest, not adoptable, not managed". |
| `Planner.DeferralIgnoresOrder` | packages/sync-client/src/sync/engine/pull-manifest-planner.ts:113-134 | It does not depend on the order of the items. |
| `Planner.ThresholdIsSmallest` | packages/sync-client/src/sync/engine/pull-manifest-planner.ts:138-145 | The threshold is the smallest updatedSeq among the items set aside. |
| `Planner.DeferredExactly` | packages/sync-client/src/sync/engine/pull-manifest-planner.ts:138-208 | The deferred items are exactly those that wait; among them are all active items at or above the smallest updatedSeq set aside. |
| `Planner.FinalWindowDefersNothing` | packages/sync-client/src/sync/engine/pull-manifest-planner.ts:103-160 | A final window defers nothing. |
| `Planner.PlanActive` | packages/sync-client/src/sync/engine/pull-manifest-planner.ts:146-253 | The second loop, with its reserved paths, computes the plans that the lemmas below are about. |
| `Planner.PlanManifest` | packages/sync-client/src/sync/engine/pull-manifest-planner.ts:43-256 | All passes together, including the errors they raise. |
| `Planner.ManifestIsPartitioned` | packages/sync-client/src/sync/engine/pull-manifest-planner.ts:53-255 | As multisets the pulled items are the planned, deferred, superseded, skipped and reported ones: none lost, none twice. |
| `Planner.PlansAreSound` | packages/sync-client/src/sync/engine/pull-manifest-planner.ts:162-252 | No plan goes below the stored revision; each target is the pulled path or a free conflict name, and a pulled path owned by another entry is adopted, displaced or owned by an entry planned in the window. |
| `PlannerOutcome.RefusedExactly` | packages/sync-client/src/sync/engine/pull-manifest-planner.ts:62-98 | A reported item has a stored row of positive revision and is below that revision; no such item is planned, superseded or skipped, and every other one is one of these or deferred. |
| `PlannerOutcome.SkippedExactly` | packages/sync-client/src/sync/engine/pull-manifest-planner.ts:70-73 | Exactly the items are skipped whose path is not applied here, unless their stored row is newer. |
| `PlannerOutcome.SupersededExactly` | packages/sync-client/src/sync/engine/pull-manifest-planner.ts:76-100 | Exactly the items are superseded that are applied here, not older than their row, and name a managed path that another item wins; the winner is the newest, ties broken by the greater entry id. |
| `PlannerOutcome.ActiveExactly` | packages/sync-client/src/sync/engine/pull-manifest-planner.ts:53-100 | The items that take part in planning are those applied here and not beaten for a managed path. |
| `PlannerOutcome.AfterIsLexicographic` | packages/sync-client/src/sync/engine/pull-manifest-planner.ts:284-297 | Greater means by the first code unit that differs, and a proper prefix comes first. |
| `PlannerOutcome.RefusedManifest` | packages/sync-client/src/sync/engine/pull-manifest-planner.ts:53-60 | A manifest with a live item without blob or hash, or a deletion with a hash, raises; one whose items are well formed and have a path where they are live is planned, and no plan ends at an empty path. |
| `PlannerOutcome.SetAsideExactly` | packages/sync-client/src/sync/engine/pull-manifest-planner.ts:102-136 | The entries set aside first are the least set that contains each active entry whose unmanaged path is owned by an entry that neither moves along nor can be adopted. |
| `PlannerOutcome.WaitsExactly` | packages/sync-client/src/sync/engine/pull-manifest-planner.ts:138-160 | An item waits exactly when it takes part and some item set aside does not come after it, or, in a window that is not final, it is not older than its row and its path is held by an entry that does not move along. |
| `PlannerOutcome.AdoptsExactly` | packages/sync-client/src/sync/engine/pull-manifest-planner.ts:338-373 | A live plan adopts exactly the owner of its path that is another, undeleted entry never accepted by the server, with a pending upsert that opens to that path with a hash; the hashes match exactly when both the sealed one and the one of the row are those of the item. |
| `PlannerOutcome.TargetsExactly` | packages/sync-client/src/sync/engine/pull-manifest-planner.ts:188-237 | A live item goes to its own path unless another plan or an entry that stays holds it and it is not managed; then to a conflict name. |
| `PlannerOutcome.MovesExactly` | packages/sync-client/src/sync/engine/pull-manifest-planner.ts:205-252 | A file is moved, to the final path of its plan, exactly when its entry has a clean live row at another path whose file exists, the item goes to its own path and takes over no other entry, and no file is there. |
| `Planner.FinalWindowOwnersMove` | packages/sync-client/src/sync/engine/pull-manifest-planner.ts:191-227 | In a final window the owner of a planned path is planned itself, or was refused as a rollback. |
| `Planner.CollisionPathIsFree` | packages/sync-client/src/sync/engine/pull-manifest-planner.ts:375-405 | The path of a collision is a conflict name that neither exists nor is reserved. |
| `Planner.LiveTargetsAreDistinct` | packages/sync-client/src/sync/engine/pull-manifest-planner.ts:188-237 | For distinct entry ids, all live plans have pairwise distinct final paths, given that conflict names are not managed. |
| `Planner.ConfigRulesManageNoCopies` | packages/sync-client/src/sync/core/vault-config-rules.ts:156-162 | The config rules do give that. |
| `Planner.ReachableStoresOpen` | packages/sync-client/src/sync/engine/pull-manifest-planner.ts:338-373 | In a reachable store judging an adoption never fails to open the metadata, and the owner of a path is an existing row. |
| `ByteBudget.BytesInFlightBudget.TryAcquire` | packages/sync-client/src/sync/core/bytes-in-flight.ts:41-47 | Admits at once only behind an empty queue and when the bytes fit; raises when disposed. |
| `ByteBudget.BytesInFlightBudget.Acquire` | packages/sync-client/src/sync/core/bytes-in-flight.ts:49-61 | Admits at once or joins the end of the queue. |
| `ByteBudget.BytesInFlightBudget.ResizeReservation` | packages/sync-client/src/sync/core/bytes-in-flight.ts:67-70 | Changes the size of one live reservation, then drains. |
| `ByteBudget.BytesInFlightBudget.Release` | packages/sync-client/src/sync/core/bytes-in-flight.ts:72-80 | Ends one live reservation, then drains; the guard against negative counters never fires for the owner of a reservation. |
| `ByteBudget.BytesInFlightBudget.Drain` | packages/sync-client/src/sync/core/bytes-in-flight.ts:115-131 | The in-place loop; both counters equal number and sum of the live reservations. |
| `ByteBudget.BytesInFlightBudget.Dispose` | packages/sync-client/src/sync/core/bytes-in-flight.ts:91-100 | Rejects everybody who waits; live reservations stay. |
| `ByteBudget.DrainAdmitsPrefix` | packages/sync-client/src/sync/core/bytes-in-flight.ts:115-131 | Draining admits a prefix of the queue, in order, and leaves a head that is not admissible. |
| `ByteBudget.StepIsGood` | packages/sync-client/src/sync/core/bytes-in-flight.ts:102-131 | After every operation the head of the queue is not admissible; without growth the bytes stay within the budget or one reservation is alone. |
| `ByteBudget.RunIsFirstInFirstOut` | packages/sync-client/src/sync/core/bytes-in-flight.ts:41-131 | Over every run the grants followed by those still waiting are the requests in their order. |
| `ByteBudget.WaitersImplyHolders` | packages/sync-client/src/sync/core/bytes-in-flight.ts:102-108 | While somebody waits, somebody holds: the queue never stalls by itself. |
| `ByteBudget.AdmittedExactly` | packages/sync-client/src/sync/core/bytes-in-flight.ts:41-61 | A request is admitted at once exactly when nobody waits and it fits beside the live bytes or nothing is live; otherwise an acquire joins the end of the line and a try changes nothing. |
| `ByteBudget.FrontIsAdmitted` | packages/sync-client/src/sync/core/bytes-in-flight.ts:115-131 | Draining admits the waiters from the front up to the first that does not fit in its turn. |
| `ContentRuntime.SyncContentRuntime.Reserve` | packages/sync-client/src/sync/core/content-runtime.ts:56-61 | Acquires bytes and creates the reservation that owns them. |
| `ContentRuntime.SyncContentRuntime.TryReserve` | packages/sync-client/src/sync/core/content-runtime.ts:64-66 | The same without waiting, or nothing. |
| `ContentRuntime.SyncContentRuntime.Retain` | packages/sync-client/src/sync/core/content-runtime.ts:81-89 | Raises for a released reservation or an invalid count; grows the reservation once more is retained than was estimated. |
| `ContentRuntime.SyncContentRuntime.Release` | packages/sync-client/src/sync/core/content-runtime.ts:90-94 | Gives the bytes back once, however often it is called. |
| `ContentRuntime.SyncContentRuntime.RegisterIdleContent` | packages/sync-client/src/sync/core/content-runtime.ts:68-71 | Appends content to what may be reclaimed. |
| `ContentRuntime.SyncContentRuntime.UnregisterIdleContent` | packages/sync-client/src/sync/core/content-runtime.ts:73-75 | Takes it out again. |
| `ContentRuntime.RequestingIsSound` | packages/sync-client/src/sync/core/content-runtime.ts:56-61 | A new reservation keeps reservations and live bytes in one-to-one correspondence. |
| `ContentRuntime.RetainedByIsSound` | packages/sync-client/src/sync/core/content-runtime.ts:81-89 | So does growth: the recorded size stays the live size. |
| `ContentRuntime.ReleasedByIsSound` | packages/sync-client/src/sync/core/content-runtime.ts:90-94 | So does a release. |
| `RetryCache.PushBlobRetryCache.Get` | packages/sync-client/src/sync/engine/push-blob-retry-cache.ts:21-27 | Ciphertext is found exactly for the same blob, vault and sealed metadata. |
| `RetryCache.PushBlobRetryCache.Put` | packages/sync-client/src/sync/engine/push-blob-retry-cache.ts:29-53 | Replaces the entry of the blob, evicts the oldest ones until it fits the cap, and adds it only if its bytes are admitted at once. |
| `RetryCache.PushBlobRetryCache.Delete` | packages/sync-client/src/sync/engine/push-blob-retry-cache.ts:55-62 | Removes the entry, its registration and its reservation; other entries stay. |
| `RetryCache.PushBlobRetryCache.ReclaimIdleContent` | packages/sync-client/src/sync/core/content-runtime.ts:98-107 | The reclaim loop, with nothing in between its discards, ends with nobody waiting or an empty cache. |
| `RetryCache.EvictedFits` | packages/sync-client/src/sync/engine/push-blob-retry-cache.ts:34-38 | Eviction drops a prefix, oldest first, and afterwards the new bytes fit the cap. |
| `RetryCache.DeletedIsLinked` | packages/sync-client/src/sync/engine/push-blob-retry-cache.ts:55-62 | Dropping an entry keeps entries, registrations and live reservations one-to-one and the byte total exact. |
| `RetryCache.AddedIsLinked` | packages/sync-client/src/sync/engine/push-blob-retry-cache.ts:40-52 | Adding one keeps that too, within the cap. |
| `RetryCache.CachedBytesAreReserved` | packages/sync-client/src/sync/engine/push-blob-retry-cache.ts:11-62 | Conservation: reserved bytes are the cached bytes plus the bytes of the live reservations that are not cached. |
| `RetryCache.ReclaimingServesWaiters` | packages/sync-client/src/sync/core/content-runtime.ts:98-107 | Reclaiming without interruption ends with an empty queue or an empty cache, all links kept. |
| `ReclaimLoop.StepKeepsInvariant` | packages/sync-client/src/sync/core/content-runtime.ts:56-114 | With reservations, releases, growth, cache writes and disposal between its discards, and its second look after it ends: all links stay, and at rest nobody waits or nothing can be discarded. |
| `ReclaimLoop.NobodyWaitsAtRest` | packages/sync-client/src/sync/core/content-runtime.ts:98-114 | In every reachable state, while somebody waits and something can be discarded, a loop is on its way. |
| `ReclaimLoop.WaitersAreLookedAfter` | packages/sync-client/src/sync/core/content-runtime.ts:98-114 | That loop has a step to take: its next turn, or its second look, which starts it again. |
| `ReclaimLoop.LoopEnds` | packages/sync-client/src/sync/core/content-runtime.ts:101-107 | Left alone, the loop ends after at most one turn more than there are cached entries. |
| `CacheOutcome.PutOutcome` | packages/sync-client/src/sync/engine/push-blob-retry-cache.ts:29-53 | A write replaces what is cached for the blob and evicts the oldest entries only as far as the cap asks for it; the new bytes become the newest entry or are not stored, and while nobody waits they are stored exactly when they fit cap and budget. |
| `CacheOutcome.EventOutcome` | packages/sync-client/src/sync/core/content-runtime.ts:98-114 | The cache loses an entry only to a deletion, to a write, or, the oldest first and one a turn, to the loop while somebody waits; a reservation waits exactly when somebody waits already or it does not fit. |
| `CacheOutcome.RuntimeOutcome` | packages/sync-client/src/sync/core/content-runtime.ts:77-96 | A released reservation holds nothing any more, a live one is charged with the larger of its estimate and all it has retained, and only an owned budget is disposed. |
| `CacheOutcome.RetainRefuses` | packages/sync-client/src/sync/core/content-runtime.ts:81-83 | Retaining is refused exactly for a released reservation and for counts that are negative or no safe integers. |
| `PullPipeline.StepKeepsInvariant` | packages/sync-client/src/sync/engine/pull-preparation-pipeline.ts:17-71 | Every step of the consumer, its tasks and other users of the budget keeps the invariant: a started group holds, waits for or has given back exactly one reservation, in plan order. |
| `PullPipeline.AppliedInPlanOrder` | packages/sync-client/src/sync/engine/pull-preparation-pipeline.ts:49-61 | In every reachable state the applied groups are a prefix of plan order. |
| `PullPipeline.NormalExitAppliesAll` | packages/sync-client/src/sync/engine/pull-preparation-pipeline.ts:48-61 | A loop that ends without failure has applied all groups. |
| `PullPipeline.ThereIsATaskToAwait` | packages/sync-client/src/sync/engine/pull-preparation-pipeline.ts:49-53 | The consumer never shifts from an empty queue. |
| `PullPipeline.AtMostConcurrencyOutstanding` | packages/sync-client/src/sync/engine/pull-preparation-pipeline.ts:50-52 | At most `concurrency` reservations are outstanding, waiting or admitted. |
| `PullPipeline.NoGroupOvertakes` | packages/sync-client/src/sync/engine/pull-preparation-pipeline.ts:3-7 | No later group holds bytes while an earlier one waits for its own. |
| `PullPipeline.NeverWaitsForItself` | packages/sync-client/src/sync/engine/pull-preparation-pipeline.ts:53-54 | While the awaited group still waits, no group of this pipeline holds bytes. |
| `PullPipeline.EveryReservationIsReleasedOnce` | packages/sync-client/src/sync/engine/pull-preparation-pipeline.ts:24-70 | Never twice; and when the pipeline has finished, by success or any failure, every admitted reservation has been released once and none is left. |
| `PullProgress.NeverHangs` | packages/sync-client/src/sync/engine/pull-preparation-pipeline.ts:28-70 | In every reachable state a pipeline that has not finished has a step of its own to take, or waits for bytes that somebody else holds. |
| `PullProgress.RunsAreBounded` | packages/sync-client/src/sync/engine/pull-preparation-pipeline.ts:48-70 | Whatever fails and whoever interferes, a run takes at most eight steps of its own per group and two more. |
| `PullProgress.OwnStepsCountDown` | packages/sync-client/src/sync/engine/pull-preparation-pipeline.ts:28-70 | Each own step lowers that bound, and no step of another user of the budget raises it. |
| `PullProgress.FailureStops` | packages/sync-client/src/sync/engine/pull-preparation-pipeline.ts:42-60 | A failed preparation stops the pipeline once its error is caught, a failed application at once. |
| `PullProgress.NothingAfterFailure` | packages/sync-client/src/sync/engine/pull-preparation-pipeline.ts:32-56 | After that no run starts a group, begins to prepare one, or applies any but the one it was applying. |
| `PullProgress.GroupsReserveTheirEstimates` | packages/sync-client/src/sync/engine/pull-preparation-pipeline.ts:29 | In every run a group that waits for bytes, or was just given them, asks for its estimate. |
| `PullProgress.AdvanceStartsAll` | packages/sync-client/src/sync/engine/pull-preparation-pipeline.ts:49-53 | Each turn of an undisturbed loop leaves as many groups started as `concurrency` allows, counted from the one it awaits, each reserving. |
| `PullProgress.DisposingRejects` | packages/sync-client/src/sync/core/bytes-in-flight.ts:91-100 | A disposed budget keeps what is held; each task that waits for bytes is rejected. |
| `PushPipeline.StepKeepsInvariant` | packages/sync-client/src/sync/engine/push-preparation-pipeline.ts:15-115 | Every turn of generator, jobs, timer and consumer keeps ownership, the account of prepared values and the control invariants. |
| `PushPipeline.SortingSorts` | packages/sync-client/src/sync/engine/push-preparation-pipeline.ts:89-90 | Sorting by load index orders the ready works and keeps all of them. |
| `PushPipeline.OwnershipIsExclusive` | packages/sync-client/src/sync/engine/push-preparation-pipeline.ts:70-96 | The owned entries are exactly those loaded and not yet consumed: at most 100, none twice. |
| `PushPipeline.BatchesAreOrderedAndBounded` | packages/sync-client/src/sync/engine/push-preparation-pipeline.ts:83-92 | A batch has 1 to 100 works, strictly in load order. |
| `PushPipeline.EveryValueIsDisposedOnce` | packages/sync-client/src/sync/engine/push-preparation-pipeline.ts:44-113 | No prepared value is disposed twice; once the generator has closed, by normal end, failure or early return, each has been disposed once and no job runs. |
| `PushPipeline.NormalExitIsClean` | packages/sync-client/src/sync/engine/push-preparation-pipeline.ts:83-100 | A normal end leaves no job, nothing ready, and nothing owned unless it yields to a pull. |
| `PushPipeline.SleeperWillWake` | packages/sync-client/src/sync/engine/push-preparation-pipeline.ts:101-104 | No wake-up is lost: a sleeping generator has been woken, or a job will wake it, and ready works have a timer. |
| `PushProgress.NeverHangs` | packages/sync-client/src/sync/engine/push-preparation-pipeline.ts:44-113 | In every reachable state, until the generator has closed, there is a step to take, without waiting for the timer. |
| `PushProgress.RunsAreBounded` | packages/sync-client/src/sync/engine/push-preparation-pipeline.ts:44-113 | A run takes at most twelve steps per entry loaded and four more; so once the store has nothing more, the generator ends. |
| `PushProgress.PumpExactly` | packages/sync-client/src/sync/engine/push-preparation-pipeline.ts:36-60 | Pumping starts the first waiting works in order, one for each free worker, and stops at the first wish to yield, which is never forgotten. |
| `PushProgress.TurnOutcome` | packages/sync-client/src/sync/engine/push-preparation-pipeline.ts:64-105 | A turn loads exactly when nothing failed, nobody asks to yield, the store may have more, and fewer than 100 entries are owned; otherwise it fails, hands out all that is ready in load order, ends, or sleeps, each under its exact condition. |
| `PushProgress.LoadOutcome` | packages/sync-client/src/sync/engine/push-preparation-pipeline.ts:67-81 | Loaded entries wait in order under consecutive indices and the free workers start; a wish to yield during the load drops it. |
| `PushProgress.PreparedOutcome` | packages/sync-client/src/sync/engine/push-preparation-pipeline.ts:41-50 | A prepared value is ready with the timer running, or given back once the pipeline has stopped. |
| `PushProgress.BrokenOutcome` | packages/sync-client/src/sync/engine/push-preparation-pipeline.ts:51-54 | A failed preparation stops the pipeline and yields no value. |
| `PushProgress.JobOutcome` | packages/sync-client/src/sync/engine/push-preparation-pipeline.ts:55-59 | A job that ends frees its worker for the next waiting work and wakes the generator. |
| `PushProgress.BatchOutcome` | packages/sync-client/src/sync/engine/push-preparation-pipeline.ts:91-97 | A consumed batch is given back, no longer owned, and the store is asked again; after an early return it is given back and stays owned. |
| `PushProgress.SmallSteps` | packages/sync-client/src/sync/engine/push-preparation-pipeline.ts:44-113 | The timer asks for a flush and wakes; a failed load gives up what is ready; the generator closes when the last job has ended. |
| `AutoSync.PendingSyncWorkQueue.RequestPush` | packages/sync-client/src/sync/engine/auto-sync-work-queue.ts:20-22 | Asks for a push; a requested pull stays. |
| `AutoSync.PendingSyncWorkQueue.RequestPull` | packages/sync-client/src/sync/engine/auto-sync-work-queue.ts:24-34 | Requests merge: every target asked for before or now is reached. |
| `AutoSync.PendingSyncWorkQueue.HasPendingWork` | packages/sync-client/src/sync/engine/auto-sync-work-queue.ts:36-38 | Whether push or pull is asked for. |
| `AutoSync.PendingSyncWorkQueue.TakePendingWork` | packages/sync-client/src/sync/engine/auto-sync-work-queue.ts:40-47 | Hands over everything and is empty afterwards. |
| `AutoSync.PendingSyncWorkQueue.Clear` | packages/sync-client/src/sync/engine/auto-sync-work-queue.ts:49-52 | Forgets everything. |
| `AutoSync.StepKeepsInvariant` | packages/sync-client/src/sync/engine/auto-sync.ts:370-781 | Every turn of the loop keeps the invariant: when active with no drain and no connection attempt in flight, pending work has a retry timer, or a reconnect timer and no session. |
| `AutoSync.OwedWorkIsScheduled` | packages/sync-client/src/sync/engine/auto-sync.ts:611-781 | In every reachable state of an active loop, owed work is in flight or a timer will bring it up. |
| `AutoSync.RequestIsNeverDropped` | packages/sync-client/src/sync/engine/auto-sync.ts:663-751 | A request, pending, taken, or a pull that the answer to a push demands, stays asked for at least as far through every turn but its completion or a stop; a push that ends on the storage quota is not completed but discarded by the stop. |
| `AutoSync.DemandedPullIsOwed` | packages/sync-client/src/sync/engine/auto-sync.ts:714-743 | A pull that a push demands is owed from the answer on, and is put back with its target when it fails. |
| `AutoSync.RequestsPersist` | packages/sync-client/src/sync/engine/auto-sync.ts:611-751 | The same over any stretch of a run. |
| `AutoSync.LoopIsNotReentered` | packages/sync-client/src/sync/engine/auto-sync.ts:622-661 | When a drain ends, the two later looks for more work find none. |
| `AutoSync.OwedExactly` | packages/sync-client/src/sync/engine/auto-sync.ts:611-781 | The exact account of every step but a stop: afterwards a request is owed if and only if the step asks for it, or it was owed and the step does not complete it. |
| `AutoSync.PushIsRequestedBy` | packages/sync-client/src/sync/engine/auto-sync.ts:128-160 | The debounce timer, an active `syncNow`, a flush with the timer set, unblocked mutations and a push with more to do each leave a push owed. |
| `AutoSync.PullIsRequestedBy` | packages/sync-client/src/sync/engine/auto-sync.ts:148-240 | An active `syncNow` or `requestPull`, a server that is ahead, and a push that demands it each leave a pull owed, at least as far as they ask. |
| `AutoSync.LocalChangesArePushed` | packages/sync-client/src/sync/engine/auto-sync.ts:119-146 | A local change of an active loop sets the push timer, and a set timer ends only in a stop or in an owed push. |
| `AutoSync.StepKeepsLinked` | packages/sync-client/src/sync/engine/auto-sync.ts:370-520 | An active loop that has a session, an attempt or a reconnect timer keeps one of them, but for one step: an attempt ends its unblocking although its session is lost meanwhile and no timer is set. |
| `AutoSync.ReconnectIsLost` | packages/sync-client/src/sync/engine/auto-sync.ts:351-359 | That step happens: `reconnectNow` during the unblocking drops the session and starts no attempt, and the loop stays active without a session, an attempt or a timer. |
| `AutoSyncProgress.StopsExactly` | packages/sync-client/src/sync/engine/auto-sync.ts:98-107 | An active loop stops exactly by being stopped, when the vault is unavailable, when the local cursor is ahead of the server, or after a push over the storage quota. |
| `AutoSyncProgress.StopForgets` | packages/sync-client/src/sync/engine/auto-sync.ts:98-107 | A stop forgets session, timers and pending work at once; a drain and an attempt that are under way go on. |
| `AutoSyncProgress.FailedDrainRests` | packages/sync-client/src/sync/engine/auto-sync.ts:726-749 | A drain that fails rests; unless the failure stops the loop, its uncompleted work is pending again, merged with what has come in, and the retry timer is set. |
| `AutoSyncProgress.NoSessionPutsBack` | packages/sync-client/src/sync/engine/auto-sync.ts:675-688 | A drain that gets no session puts its work back with the reconnect timer set. |
| `AutoSyncProgress.SessionsAreSought` | packages/sync-client/src/sync/engine/auto-sync.ts:322-367 | Starting, using, resuming and the reconnect timer leave a session or an attempt; losing a session or failing to get one sets the reconnect timer. |
| `AutoSyncProgress.OneAttemptAtATime` | packages/sync-client/src/sync/engine/auto-sync.ts:322-333 | Whoever only asks for a session leaves one that is there, or an attempt that runs, alone. |
| `AutoSyncProgress.DrainTakesAll` | packages/sync-client/src/sync/engine/auto-sync.ts:663-697 | A drain takes all that is pending at once, whatever starts it, and with a session it pulls before it pushes. |
| `AutoSyncProgress.IterationGoesOn` | packages/sync-client/src/sync/engine/auto-sync.ts:691-725 | An iteration goes from its pull to its push, and to another pull if the push asks for it; then the next one takes what has come in meanwhile, and the loop rests exactly if nothing has. |
| `AutoSyncProgress.WellStepsCountDown` | packages/sync-client/src/sync/engine/auto-sync.ts:611-781 | When nothing fails and nothing new comes in, every step of an active loop brings it closer to its rest. |
| `AutoSyncProgress.OwedWorkMovesOn` | packages/sync-client/src/sync/engine/auto-sync.ts:611-781 | In every reachable state of an active loop that owes work or has local changes to push there is a step of its own to take. |
| `AutoSync.StoppedLoopWakesOnlyBy` | packages/sync-client/src/sync/engine/auto-sync.ts:370-488 | A stopped loop becomes active exactly by being started or used, or by the end of a connection attempt that was unblocking mutations while it was stopped. |
| `AutoSync.StopIsUndone` | packages/sync-client/src/sync/engine/auto-sync.ts:448-463 | A run in which a stop during that wait is undone by the state set at line 458. |
| `AdaptivePolicy.AdaptiveConcurrencyPolicy.Observe` | packages/sync-client/src/sync/remote/adaptive-concurrency-policy.ts:28-57 | The new state of every branch; the limit stays in 1..maximum and a probe holds its baseline plus one. |
| `AdaptivePolicy.AdaptiveConcurrencyPolicy.Congested` | packages/sync-client/src/sync/remote/adaptive-concurrency-policy.ts:59-69 | Halves at most once per cool-down. |
| `AdaptivePolicy.AdaptiveConcurrencyPolicy.Idle` | packages/sync-client/src/sync/remote/adaptive-concurrency-policy.ts:71-78 | Ends a probe at its baseline. |
| `AdaptivePolicy.StepIsGood` | packages/sync-client/src/sync/remote/adaptive-concurrency-policy.ts:28-78 | Every call keeps: limit in 1..maximum, and a running probe is exactly its baseline plus one. |
| `AdaptivePolicy.LimitChangesOnlyBy` | packages/sync-client/src/sync/remote/adaptive-concurrency-policy.ts:28-78 | The limit changes only by a halving (rounded down, at least 1), by starting a probe, or by giving its slot back. |
| `AdaptivePolicy.HalvingsAreSpaced` | packages/sync-client/src/sync/remote/adaptive-concurrency-policy.ts:59-69 | Over every run two halvings are at least 5000 ms apart. |
| `AdaptivePolicy.ProbeIsDecided` | packages/sync-client/src/sync/remote/adaptive-concurrency-policy.ts:31-44 | A probe keeps its slot exactly when the throughput rose by a tenth and the latency at most doubled; a failed one gives it back and pauses probing for ten seconds. |
| `AdaptivePolicy.SlowWindowsHalve` | packages/sync-client/src/sync/remote/adaptive-concurrency-policy.ts:45-50 | The second window in a row that is much slower in both rate and latency halves the limit; a single one changes only the count. |
| `AdaptivePolicy.CalmWindowsProbe` | packages/sync-client/src/sync/remote/adaptive-concurrency-policy.ts:51-56 | Any other window becomes the one to compare with, and starts a probe exactly when the pause is over and a slot is left. |
| `AdaptivePolicy.CongestionHalves` | packages/sync-client/src/sync/remote/adaptive-concurrency-policy.ts:59-69 | Congestion halves the limit, rounded down but at least 1, and forgets all measurements; within five seconds of the last halving it does nothing. |
| `AdaptivePolicy.IdleForgets` | packages/sync-client/src/sync/remote/adaptive-concurrency-policy.ts:71-78 | An idle lane gives a probed slot back and forgets all measurements, but no pause. |
| `AdaptivePolicy.EmptyWindowsSayNothing` | packages/sync-client/src/sync/remote/adaptive-concurrency-policy.ts:29 | A window without bytes or time changes nothing. |
| `AdaptivePolicy.FreshMayProbe` | packages/sync-client/src/sync/remote/adaptive-concurrency-policy.ts:12-24 | A new lane starts at eight slots or the maximum, and may probe and halve at once. |
| `AdaptivePolicy.ProbesAreSpaced` | packages/sync-client/src/sync/remote/adaptive-concurrency-policy.ts:28-69 | Over every run the limit rises only ten seconds or more after each failed probe and each halving before. |
| `TransferScheduler.TransferLane.Run` | packages/sync-client/src/sync/remote/transfer-scheduler.ts:32-65 | Queues a job and pumps; refused when closed. |
| `TransferScheduler.TransferLane.Finish` | packages/sync-client/src/sync/remote/transfer-scheduler.ts:43-54 | A finished job adds to a running observation, or tells the policy of congestion and drops the observation. |
| `TransferScheduler.TransferLane.End` | packages/sync-client/src/sync/remote/transfer-scheduler.ts:55-58 | Frees the slot and pumps. |
| `TransferScheduler.TransferLane.Pump` | packages/sync-client/src/sync/remote/transfer-scheduler.ts:75-110 | Judges the observation, starts what fits, and sets the busy clock. |
| `TransferScheduler.TransferLane.Dispose` | packages/sync-client/src/sync/remote/transfer-scheduler.ts:67-73 | Closes and rejects everything queued. |
| `TransferScheduler.PumpedIsOrderly` | packages/sync-client/src/sync/remote/transfer-scheduler.ts:97-110 | A pump starts a prefix of the queue, in order, never above the limit, and leaves the queue empty or the limit reached. |
| `TransferScheduler.StepKeepsOrder` | packages/sync-client/src/sync/remote/transfer-scheduler.ts:32-110 | Every event keeps the lane orderly; started jobs only grow from the front of the queue. |
| `TransferScheduler.LaneIsFirstInFirstOut` | packages/sync-client/src/sync/remote/transfer-scheduler.ts:32-110 | Over every run jobs start in submission order, none is lost before disposal, at most the maximum runs, and a queue at rest means the limit is reached. |
| `TransferScheduler.PumpJudges` | packages/sync-client/src/sync/remote/transfer-scheduler.ts:75-96 | A pump judges exactly a measurement of two seconds and four jobs, with its rate and mean duration, and lets the policy idle exactly after a pause of ten seconds. |
| `TransferScheduler.PumpKeepsTime` | packages/sync-client/src/sync/remote/transfer-scheduler.ts:97-110 | The clock runs exactly while jobs are left waiting; otherwise the lane pauses from the first such moment on, keeping what was measured unless it was judged. |
| `TransferScheduler.FinishMeasures` | packages/sync-client/src/sync/remote/transfer-scheduler.ts:43-54 | A job that succeeds while others wait counts with its bytes and duration, and otherwise leaves no trace; a failed one drops the measurement. |
| `TransferScheduler.EndFreesASlot` | packages/sync-client/src/sync/remote/transfer-scheduler.ts:55-58 | A job that ends frees its slot for the next in line. |
| `TransferScheduler.SubmitJoinsTheLine` | packages/sync-client/src/sync/remote/transfer-scheduler.ts:32-65 | A closed lane refuses a job; any other one queues it last and starts whoever fits. |
| `TransferScheduler.DisposeRejects` | packages/sync-client/src/sync/remote/transfer-scheduler.ts:67-73 | Disposing rejects whoever waits and stops nobody. |
| `PullApplier.PullEntryStateApplier.ApplyPreparedManifest` | packages/sync-client/src/sync/engine/pull-entry-state-applier.ts:378-490 | Applied, every entry is as the composition of the steps leaves it. After a failure at any step, remote state, local state and pending mutation of every entry are as before; it fails only where a vault operation does or the store refuses a write. |
| `ApplyOutcome.OutcomeOfGroup` | packages/sync-client/src/sync/engine/pull-entry-state-applier.ts:412-458 | What that composition means: a planned entry has the pulled state, clean or with a merge of its own on top; an adopted one is gone; a superseded or displaced one has lost local state, mutation and path; any other keeps its states and loses at most a mutation that a conflict names. |
| `ApplyOutcome.DisplacedKeeps` | packages/sync-client/src/sync/engine/pull-entry-state-applier.ts:566-574 | A displaced owner keeps what the server knows of it; only a live one loses its path there. |
| `ApplyOutcome.FreedExactly` | packages/sync-client/src/sync/engine/pull-entry-state-applier.ts:596-612 | Before the rows are written, exactly the planned entries that leave a path have no path at all. |
| `ApplyFits.RowRefusedExactly` | apps/cli/src/host/sqlite-store/store.ts:84-93 | The store refuses the row of a plan if and only if another entry is visible at its path, locally or on the server. |
| `ApplyFits.FreeingFits` | packages/sync-client/src/sync/engine/pull-entry-state-applier.ts:596-612 | A row without a path is never refused. |
| `ApplyFits.FoundExactly` | apps/cli/src/host/sqlite-store/store.ts:623-637 | Looking up a path finds exactly the entry that holds it and is not hidden: not one whose path it is on the server only, while the entry is known locally under another path or another entry is there. |
| `ApplyFits.OwnersAreDealtWith` | packages/sync-client/src/sync/engine/pull-manifest-planner.ts:188-237 | In a final window whoever holds the path of a plan is hidden or dealt with: it is the own entry, adopted, displaced, planned itself to another path, or reported as a rollback. |
| `ApplyFits.RenamedFileKeepsItsOldPath` | apps/cli/src/host/sqlite-store/store.ts:623-637 | A hidden owner does occur: after a pull and a local rename the planner lets a pulled file go to the old path, and the store refuses its row. |
| `PullApplier.PullEntryStateApplier.ApplySteps` | packages/sync-client/src/sync/engine/pull-entry-state-applier.ts:412-458 | All steps in order, each only for snapshotted entries. |
| `PullApplier.PullEntryStateApplier.ApplySupersededRemoteEntries` | packages/sync-client/src/sync/engine/pull-entry-state-applier.ts:536-576 | Superseded entries get the pulled state without a live path; other displaced owners keep theirs without the path; both lose local state and mutation. |
| `PullApplier.PullEntryStateApplier.ApplyPendingConflicts` | packages/sync-client/src/sync/engine/pull-pending-mutation-handler.ts:137-155 | Drops exactly the mutations whose conflict is copied aside. |
| `PullApplier.PullEntryStateApplier.ApplyAdoptedLocalEntries` | packages/sync-client/src/sync/engine/pull-entry-state-applier.ts:516-534 | Adopted entries are gone, no other entry changes, and nothing raises. |
| `PullApplier.PullEntryStateApplier.ClearChangingStorePaths` | packages/sync-client/src/sync/engine/pull-entry-state-applier.ts:596-612 | Exactly the planned entries that leave a path give it up. |
| `PullApplier.PullEntryStateApplier.UpsertPlans` | packages/sync-client/src/sync/engine/pull-entry-state-applier.ts:440-452 | Every planned entry has its target state. |
| `PullApplier.PullEntryStateApplier.ApplyPendingMerges` | packages/sync-client/src/sync/engine/pull-pending-mutation-handler.ts:157-194 | Drops mutations the remote already has, queues merged ones; a merge can only succeed for the entry the plan is for. |
| `PullApplier.OnlyOwnPathFits` | packages/sync-client/src/sync/engine/pull-pending-mutation-handler.ts:184-193 | The plan holds its path, so the merged local state of any other entry is refused. |
| `PullApplier.PullEntryStateApplier.SnapshotManifestEntries` | packages/sync-client/src/sync/engine/pull-entry-state-applier.ts:614-640 | Remote and local state of every entry a group touches. |
| `PullApplier.PullEntryStateApplier.SnapshotDirtyEntries` | packages/sync-client/src/sync/engine/pull-entry-state-applier.ts:642-668 | Their pending mutations, and those of the conflicts. |
| `PullApplier.PullEntryStateApplier.RestoreManifestEntries` | packages/sync-client/src/sync/engine/pull-entry-state-applier.ts:670-696 | After any partial application, states are restored and no write raises on the way. |
| `PullApplier.PullEntryStateApplier.RestoreDirtyEntries` | packages/sync-client/src/sync/engine/pull-entry-state-applier.ts:698-711 | Then the pending mutations are, and nothing else changes. |
| `PullApplier.WriteStaysFramed` | packages/sync-client/src/sync/engine/pull-entry-state-applier.ts:614-668 | A write for a snapshotted entry leaves all others as before. |
| `PullApplier.ClearedKeysAreOld` | packages/sync-client/src/sync/engine/pull-entry-state-applier.ts:674-677 | Once the snapshotted entries are cleared, only untouched entries hold path keys, their own. |
| `PullApplier.RemoteComesBack` | packages/sync-client/src/sync/engine/pull-entry-state-applier.ts:680-682 | Then every old remote state fits, in any order. |
| `PullApplier.LocalComesBack` | packages/sync-client/src/sync/engine/pull-entry-state-applier.ts:686-688 | And every old local state. |
| `ReconcileService.IndexLocalEntriesByPath` | packages/sync-client/src/sync/engine/local-reconcile-service.ts:357-368 | The index maps each path to the last listed entry living there. |
| `ReconcileService.IndexPendingDeleteEntriesByPath` | packages/sync-client/src/sync/engine/local-reconcile-service.ts:290-315 | Each deleted path to the last listed entry that deletes it and is locally known. |
| `ReconcileService.IndexVisibleRemoteEntriesByPath` | packages/sync-client/src/sync/engine/local-reconcile-service.ts:382-397 | Each remote path to the last listed live remote entry not moved locally. |
| `ReconcileService.IndexRenameCandidates` | packages/sync-client/src/sync/engine/local-reconcile-service.ts:80-98 | The buckets hold, per hash and in order, the retained entries whose file is gone. |
| `ReconcileService.TakeRenameCandidate` | packages/sync-client/src/sync/engine/local-reconcile-service.ts:340-355 | Takes the first candidate of the hash and leaves the others. |
| `ReconcileService.DecideFile` | packages/sync-client/src/sync/engine/local-reconcile-service.ts:101-194 | One file: skipped, touched, or queued for the entry that lives there, is restored, is renamed, is known remotely, or is new. |
| `ReconcileService.DecideVanished` | packages/sync-client/src/sync/engine/local-reconcile-service.ts:198-243 | One entry without its file, unless a rename took it: the update the loop decides on. |
| `ReconcileService.PlanRun` | packages/sync-client/src/sync/engine/local-reconcile-service.ts:62-244 | All loops: the updates of a run and its two counts. |
| `ReconcileService.ReconcileInParts` | packages/sync-client/src/sync/engine/local-reconcile-service.ts:399-408 | Applying a list of updates in parts has the effect of applying it at once. |
| `ReconcileService.ApplyReconcileUpdatesInChunks` | packages/sync-client/src/sync/engine/local-reconcile-service.ts:399-408 | Chunks of 500, each one transaction, together have the effect of the whole list. |
| `ReconcileService.ReconcileOnce` | packages/sync-client/src/sync/engine/local-reconcile-service.ts:48-253 | A run on the shared store: afterwards every file and every entry is as `RunOutcome` says, the upserts reported are the files not recorded before, and the deletes reported are the entries whose deletion now waits. |
| `ReconcileRaces.UntouchedEntriesEndAsPlanned` | packages/sync-client/src/sync/engine/local-reconcile-service.ts:71-246 | With any other writers between listing and chunks, and even if a later chunk raises: as far as the chunks have been applied, each entry the others leave alone has exactly what the run planned for it. |
| `ReconcileRaces.UntouchedEntriesEndAsAlone` | packages/sync-client/src/sync/engine/local-reconcile-service.ts:71-246 | After the last chunk such an entry is exactly as if the run had been alone. |
| `ReconcileRaces.UntouchedFilesAreRecorded` | packages/sync-client/src/sync/engine/local-reconcile-service.ts:134-196 | So each scanned file whose entry is left alone is recorded with its path and content. |
| `ReconcileRaces.UntouchedPathsAreScanned` | packages/sync-client/src/sync/engine/local-reconcile-service.ts:198-244 | And the visible synced path of an entry left alone is a scanned file. |
| `Reconcile.FatesAreDistinct` | packages/sync-client/src/sync/engine/local-reconcile-service.ts:101-169 | No two files are matched to the same entry. |
| `Reconcile.EachEntryHasOneUpdate` | packages/sync-client/src/sync/engine/local-reconcile-service.ts:62-244 | Each entry gets at most one update, from cleanup, from its file, or from the lack of one. |
| `Reconcile.UpdatesApply` | packages/sync-client/src/sync/engine/local-reconcile-service.ts:246 | The store takes every update: no path key is held by another entry on the way. |
| `Reconcile.EveryFileIsRecorded` | packages/sync-client/src/sync/engine/local-reconcile-service.ts:134-196 | Afterwards the matched entry records the path and hash of the file. |
| `Reconcile.EveryRecordHasItsFile` | packages/sync-client/src/sync/engine/local-reconcile-service.ts:198-244 | Afterwards every visible synced local path is the path of the file matched to the entry. |
| `Reconcile.RunKeepsInvariant` | packages/sync-client/src/sync/engine/local-reconcile-service.ts:62-253 | A run keeps the invariant of the store. |
| `ReconcileOutcome.LostEntries` | packages/sync-client/src/sync/engine/local-reconcile-service.ts:198-243 | An entry whose synced file is gone and that no file took by rename is gone too if it has no remote or revision 0; otherwise it stays, locally deleted, with a delete on revision, blob and hash of its remote that opens to the lost path. |
| `ReconcileOutcome.OutsideEntries` | packages/sync-client/src/sync/engine/local-reconcile-service.ts:62-78 | An entry whose visible path the rules no longer sync is gone under the same condition, and otherwise only loses its mutation. |
| `ReconcileOutcome.FileOutcomes` | packages/sync-client/src/sync/engine/local-reconcile-service.ts:101-196 | Each file goes to the entry that lives at its path; else to the last listed one that waits to delete it; else to the first listed one with a lost file of its content that no earlier file took; else to the last listed one the server has there; else to a new entry. An unchanged file changes nothing, one with the recorded content its time and size only, and any other queues an upsert on the listed server state, reusing the blob of unchanged live content. |
| `ReconcileOutcome.QueuedOnListedState` | packages/sync-client/src/sync/engine/local-reconcile-service.ts:134-243 | Whatever a run newly queues carries revision, blob and hash of the listed remote, in mutation and base alike, or none without a remote, and opens for the next revision only. |
| `ReconcileOutcome.RunOutcomes` | packages/sync-client/src/sync/engine/local-reconcile-service.ts:62-246 | All of it for the whole table: every other entry stays exactly as it was listed. |
| `ReconcileService.RunCounts` | packages/sync-client/src/sync/engine/local-reconcile-service.ts:62-253 | The two counts are the files the store did not record yet, and the entries whose deletion waits afterwards. |
| `ReconcileProtocol.QueuedAreLocalEdits` | packages/sync-client/src/sync/engine/local-reconcile-service.ts:134-243 | In the cursor protocol: whatever a run queues is an edit on the revision it has listed, as that protocol allows it. |
| `ReconcileProtocol.DroppedWereUnpushed` | packages/sync-client/src/sync/engine/local-reconcile-service.ts:71-246 | And whatever it drops is a row it has listed without a revision. |
| `Reconcile.SecondRunSkipsEveryFile` | packages/sync-client/src/sync/engine/local-reconcile-service.ts:101-117 | On the same disk a second run skips every file. |
| `Reconcile.SecondRunFindsNothingLost` | packages/sync-client/src/sync/engine/local-reconcile-service.ts:198-210 | It finds no entry without its file. |
| `Reconcile.SecondRunQueuesNothing` | packages/sync-client/src/sync/engine/local-reconcile-service.ts:62-253 | So it queues no upsert and no delete. |

## Left out

What the theorems assume:

- The server numbers commits one after the other and lists the latest state of each entry, increasing in its number, within (since, target]; a page that says more follow is not empty.
- One push runs at a time, as the drain loop arranges; pulls, local work and commits of other clients run beside it at any time.
- A load of the push pipeline returns at most as many entries as asked for, and none of the excluded ids.
- The server accepts a mutation that is based on the latest revision of its entry, and answers one it has committed already as it did the first time.
- Mutation, entry and blob ids are random: a new id is never one in use. A mutation id keeps its entry, operation, blob and content.
- Reconcile: pending deletes are settled (locally deleted, or still at their own path), scanned files are distinct and syncable, equal time and size mean equal content, and the store lists entries in a stable order.
- Conflict timestamps have eight digits, a dash and six digits (a four-digit year); formatting a date is not modelled.

Weaker than one might wish:

- Planner.LiveTargetsAreDistinct: needs distinct, non-empty entry ids, because an empty id counts as no reservation, and conflict names that are not managed, which `ConfigRulesManageNoCopies` provides.
- Planner.PlansAreSound: in a window that is not final the owner of a planned path may still be deferred later in the same pass, since the fixpoint is not computed again for the smaller id set; so a planned target is not claimed to be free.
- Planner.FinalWindowOwnersMove: the owner may have been refused as a rollback instead of being planned.
- TextMerge.MergeAppliesBothDiffs: speaks about line sequences; joining a merge can fuse an unterminated last line with the line after it.
- PullApplier.PullEntryStateApplier.ApplyPreparedManifest: the base part of a record is not restored, as in the source, and vault files are not either; failures during the restore itself and other writers at the same time are not modelled. Vault operations are opaque steps that may fail.
- CursorProtocol.StepKeepsInvariant: unblocking mutations by reason is one step of the store that changes no revision and no mutation id, so it is no event here; a group of items is applied item by item. A failed group counts as having applied none, or as items applied and rows put back, when others look in between.
- CursorProtocol.NoRemoteChangeIsSkipped: purging deleted entries on the server, and replacing the store after the cursor was found ahead of the server, are not modelled.
- CursorSafety.BatchSettles: holds in runs without disturbing steps; a stale writer or an overlapping pull can set back what a push has written.
- CursorSafety.CursorNeverMovesBack: needs tasks one after the other; `OverlapMovesTheCursorBack` is the run that shows why.
- ReconcileService.ReconcileOnce: no other writer changes the store between the listing and the last chunk, although hashing and encryption await in between; `ReconcileRaces` says what holds when others do.
- ReconcileRaces.UntouchedEntriesEndAsPlanned: says nothing of entries another writer changes meanwhile; a chunk may raise when another writer has taken a path key.
- Reconcile.SecondRunQueuesNothing: entries outside the file rules get their cleanup update again in a second run; it queues nothing.
- ApplyFits.OwnersAreDealtWith: speaks of plans that go to their own path in a final window; a conflict name is free in the vault, but may still be the remote path of an entry.
- AutoSyncProgress.WellStepsCountDown: assumes that nothing fails, the session lasts and nothing new is asked for; with failures the retries go on.
- PushAccounting.HistoryDecides: speaks of the loop of a push; when it is over, a pull is also asked for if an accepted commit lies beyond the checkpoint.
- PushProgress.RunsAreBounded: counts steps and loaded entries, not time; a store that always has more keeps the generator going.
- ContentRuntime.SyncContentRuntime.RegisterIdleContent: does not start the reclaim loop; the module ReclaimLoop does, with other steps between its discards.
- RetryCache.PushBlobRetryCache.ReclaimIdleContent: runs without interruption; ReclaimLoop is the loop with interruptions.
- SyncStoreClass.SyncStore.MarkEntryDirty: the check that a required base blob is cached, and the blob cache itself, are not modelled.
- AutoSync.StepKeepsInvariant: each event is one turn run to completion; deferral is off, delays are only timers being set or not, and flushing the push debounce stands for the pair with `waitForInFlightDrain`.
- AutoSync.LoopIsNotReentered: depends on turns being atomic; work requested in a microtask between the end of the loop and the later looks would be found by them.

Not modelled:

- "Not dirty implies base equals remote" is not claimed: clearing a pending mutation does not refresh the base.
- Progress reports, conflict and rollback notifications beyond which items they name, and counters of applied files.
- `PullOnlyOnce`, presence and storage-status watching, and back-off durations of the auto-sync loop.
- What `pushPendingMutations` reports besides its checkpoint and the fate of each mutation.
- Blobs, their download and their decryption only supply bytes.
- Which pending mutation conflicts with a plan (`findConflictingPendingMutation`) is an input of the applier, bound to the history of its id.
- Paths a group removes or writes in the vault, and marking files that are current already (`markAlreadyCurrentVaultWrites`).
- Normalizing the folders of the file rules, and which config files the config rules pick; for the claims about conflict copies any folders and any choice will do.
- The portable-path check of names.
- Both lanes of the transfer scheduler share no state; one lane is modelled.
- HTTP, WebSocket, SQLite, the file system, cryptography, the hash worker pool, the lock file, settings, and the user interface.
- The in-memory store used in tests, which treats the base differently in reconcile updates.

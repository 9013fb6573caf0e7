/**
 What a reconcile run leaves in the store, told by the listed rows, the scan and the table afterwards: where each file goes,
 which mutation it queues and on what base, and what becomes of an entry whose file is gone.
 */
module ReconcileOutcome {
  import opened Common
  import opened EntryRecords
  import opened EntryStore
  import opened Reconcile

  // ---------------------------------------------------------------- words for the listed rows

  ghost predicate Lives(run: Run, id: EntryId, path: Path) {
    id in run.table && LocalKey(run.table[id]) == Some(path)
  }

  /** The entry, not kept at a path outside the rules, is known locally and waits to delete this path. */
  ghost predicate Deletes(run: Run, id: EntryId, path: Path) {
    && id in run.table && run.table[id].local.Some? && run.table[id].pending.Some? && run.table[id].pending.value.op.Delete?
    && (LocalKey(run.table[id]).Some? ==> run.syncable(LocalKey(run.table[id]).value))
    && var content := Open(run.table[id].pending.value.metadata, MutationContext(run.table[id].pending.value));
       content.Some? && content.value.path == path
  }

  /** The entry, not kept at a path outside the rules, is at this path on the server and not moved away locally. */
  ghost predicate IsRemotelyAt(run: Run, id: EntryId, path: Path) {
    && id in run.table && RemoteKey(run.table[id]) == Some(path)
    && (LocalKey(run.table[id]).Some? ==> run.syncable(LocalKey(run.table[id]).value))
    && (run.table[id].local.None? || run.table[id].local.value.path == Some(path))
  }

  /** Of the entries that wait to delete the path it is the last one listed; likewise for the server's path. */
  ghost predicate LastDeletes(run: Run, id: EntryId, path: Path) {
    exists k :: 0 <= k < |run.order| && run.order[k] == id && Deletes(run, id, path)
      && forall j | k < j < |run.order| :: !Deletes(run, run.order[j], path)
  }

  ghost predicate LastRemotelyAt(run: Run, id: EntryId, path: Path) {
    exists k :: 0 <= k < |run.order| && run.order[k] == id && IsRemotelyAt(run, id, path)
      && forall j | k < j < |run.order| :: !IsRemotelyAt(run, run.order[j], path)
  }

  /** The entry had a synced file that the scan does not find. */
  ghost predicate HasLostFile(run: Run, id: EntryId) {
    && id in run.table && LocalKey(run.table[id]).Some? && run.syncable(LocalKey(run.table[id]).value)
    && forall i | 0 <= i < |run.files| :: run.files[i].path != LocalKey(run.table[id]).value
  }

  /** One of the first `n` files is recorded by the entry. */
  ghost predicate IsTaken(run: Run, after: Entries, id: EntryId, n: nat)
    requires n <= |run.files|
  {
    exists i :: 0 <= i < n && id in after && Records(after[id].local, run.files[i])
  }

  // ---------------------------------------------------------------- the model's words mean these

  lemma LastOfExactly(order: seq<EntryId>, holds: EntryId -> bool, id: EntryId)
    requires DistinctIds(order)
    ensures LastOf(order, holds) == Some(id) <==>
      exists k :: 0 <= k < |order| && order[k] == id && holds(id) && forall j | k < j < |order| :: !holds(order[j])
  {
    if LastOf(order, holds) == Some(id) {
      var k :| 0 <= k < |order| && order[k] == id;
      forall j | k < j < |order| ensures !holds(order[j]) {
        if holds(order[j]) {
          LastOfIsLast(order, holds, j);
          assert false;
        }
      }
    }
    if k :| 0 <= k < |order| && order[k] == id && holds(id) && forall j | k < j < |order| :: !holds(order[j]) {
      LastOfIsLast(order, holds, k);
    }
  }

  lemma ExistingExactly(run: Run, history: History, path: Path, id: EntryId)
    requires GoodRun(run, history) && run.syncable(path)
    ensures Existing(run, path) == Some(id) <==> Lives(run, id, path)
    ensures Existing(run, path).None? <==> forall other :: !Lives(run, other, path)
  {
    forall other ensures LivesAt(run, other, path) <==> Lives(run, other, path) {
    }
    if Existing(run, path).Some? && Lives(run, id, path) {
      SameKeyMeansSame(run.table, history, Existing(run, path).value, id);
    }
    hide LastOf, Invariant;
  }

  lemma DeleterExactly(run: Run, history: History, path: Path, id: EntryId)
    requires GoodRun(run, history)
    ensures PendingDelete(run, path) == Some(id) <==> LastDeletes(run, id, path)
    ensures PendingDelete(run, path).None? <==> forall other :: !Deletes(run, other, path)
  {
    forall other ensures DeletesAt(run, other, path) <==> Deletes(run, other, path) {
    }
    hide LastOf, Invariant, DeletesAt, Deletes;
    LastOfExactly(run.order, Deleting(run, path), id);
  }

  lemma RemoteExactly(run: Run, history: History, path: Path, id: EntryId)
    requires GoodRun(run, history)
    ensures VisibleRemote(run, path) == Some(id) <==> LastRemotelyAt(run, id, path)
    ensures VisibleRemote(run, path).None? <==> forall other :: !IsRemotelyAt(run, other, path)
  {
    forall other ensures RemotelyAt(run, other, path) <==> IsRemotelyAt(run, other, path) {
    }
    LastOfExactly(run.order, Remote(run, path), id);
    hide LastOf, Invariant, RemotelyAt, IsRemotelyAt;
  }

  lemma LostExactly(run: Run, id: EntryId)
    ensures Lost(run, id) <==> HasLostFile(run, id)
  {
  }

  // ---------------------------------------------------------------- a lost file

  /** A record whose mutation and base are those of this server state, or of none; its metadata opens for the next
      revision and for no other. */
  ghost predicate BasedOn(record: EntryRecord, remote: Option<RemoteRow>) {
    var revision := if remote.Some? then remote.value.revision else 0;
    var blobId := if remote.Some? then remote.value.blobId else None;
    var hash := if remote.Some? then remote.value.hash else None;
    && record.base.revision == revision && record.base.blobId == blobId && record.base.hash == hash
    && record.pending.Some?
    && var m := record.pending.value;
       && m.entryId == record.entryId && m.baseRevision == revision && m.baseBlobId == blobId && m.baseHash == hash
       && forall r: nat :: Open(m.metadata, Context(record.entryId, r, m.op, m.blobId)).Some? <==> r == revision + 1
  }

  /** An entry with a lost file that no file took: it is gone if the server has never accepted it; otherwise it stays, known as
      deleted, and waits to delete its path on the server. */
  ghost predicate LostOutcome(run: Run, after: Entries, id: EntryId)
    requires id in run.table && LocalKey(run.table[id]).Some?
  {
    var remote := run.table[id].remote;
    if remote.None? || remote.value.revision == 0 then id !in after
    else
      && id in after && after[id].entryId == id && after[id].remote == remote
      && after[id].local.Some? && after[id].local.value.deleted && after[id].local.value.path.None?
      && BasedOn(after[id], remote)
      && var m := after[id].pending.value;
         && m.op.Delete? && m.blobId.None? && m.hash.None? && m.status.Waiting?
         && Open(m.metadata, MutationContext(m)) == Some(Metadata(LocalKey(run.table[id]).value, None))
  }

  lemma LostEntries(run: Run, history: History, id: EntryId)
    requires GoodRun(run, history) && HasLostFile(run, id)
    ensures ReconcileAll(run.table, Updates(run)).Some?
    ensures IsTaken(run, Reconcile.After(run), id, |run.files|) <==> id in RenamedIds(run)
    ensures !IsTaken(run, Reconcile.After(run), id, |run.files|) ==> LostOutcome(run, Reconcile.After(run), id)
  {
    UpdatesApply(run, history);
    LostExactly(run, id);
    TakenExactly(run, history, id, |run.files|);
    if id !in RenamedIds(run) {
      VanishedRow(run, history, id);
    }
  }

  lemma VanishedRow(run: Run, history: History, id: EntryId)
    requires GoodRun(run, history) && Vanished(run, id) && ReconcileAll(run.table, Updates(run)).Some?
    ensures LostOutcome(run, Reconcile.After(run), id)
  {
    var k :| 0 <= k < |run.order| && run.order[k] == id;
    var u := VanishedUpdate(run, k).value;
    assert run.table[id].entryId == id by {
      assert GoodRecord(history, id, run.table[id]);
    }
    VanishedIsListed(run, k);
    UpdateTakesEffect(run, history, u);
    VanishedRowFits(run, k, Reconcile.After(run));
  }

  lemma VanishedRowFits(run: Run, k: nat, after: Entries)
    requires k < |run.order| && Vanished(run, run.order[k]) && run.table[run.order[k]].entryId == run.order[k]
    requires var u := VanishedUpdate(run, k).value;
      if u.deleteEntry then u.entryId !in after else u.entryId in after && after[u.entryId] == RowAfter(run.table, u)
    ensures LostOutcome(run, after, run.order[k])
  {
    hide RenamedIds, WellBound;
  }

  /** An entry with a lost file is taken by a file exactly when the file was matched to it as a rename. */
  lemma TakenExactly(run: Run, history: History, id: EntryId, n: nat)
    requires GoodRun(run, history) && HasLostFile(run, id) && n <= |run.files|
    ensures ReconcileAll(run.table, Updates(run)).Some?
    ensures IsTaken(run, Reconcile.After(run), id, n) <==> exists i :: 0 <= i < n && IsRename(FateAt(run, i)) && FateAt(run, i).id == id
  {
    UpdatesApply(run, history);
    if IsTaken(run, Reconcile.After(run), id, n) {
      var i :| 0 <= i < n && id in Reconcile.After(run) && Records(Reconcile.After(run)[id].local, run.files[i]);
      RecorderIsMatched(run, history, i, id);
      LostIsRenamed(run, history, i);
    }
    if i :| 0 <= i < n && IsRename(FateAt(run, i)) && FateAt(run, i).id == id {
      EveryFileIsRecorded(run, history, i);
    }
    hide GoodRun, Updates, ReconcileAll, FateAt, HasLostFile;
  }

  /** Only the matched entry records the file afterwards. */
  lemma RecorderIsMatched(run: Run, history: History, i: nat, id: EntryId)
    requires GoodRun(run, history) && i < |run.files| && ReconcileAll(run.table, Updates(run)).Some?
    requires id in Reconcile.After(run) && Records(Reconcile.After(run)[id].local, run.files[i])
    ensures FateAt(run, i).id == id
  {
    EveryFileIsRecorded(run, history, i);
    RunKeepsInvariant(run, history);
    assert run.files[i].path != "";
    hide GoodRun, Updates, ReconcileAll, FateAt, LegalUpdates, AfterUpdates;
    SameKeyMeansSame(Reconcile.After(run), AfterUpdates(history, Updates(run)), id, FateAt(run, i).id);
  }

  lemma LostIsRenamed(run: Run, history: History, i: nat)
    requires GoodRun(run, history) && i < |run.files| && HasLostFile(run, FateAt(run, i).id)
    ensures IsRename(FateAt(run, i))
  {
    FateClaims(run, history, i);
    hide GoodRun, FateAt, Candidates;
  }

  lemma VanishedIsListed(run: Run, k: nat)
    requires k < |run.order| && VanishedUpdate(run, k).Some?
    ensures VanishedUpdate(run, k).value in Updates(run)
  {
    VanishedAreFrom(run, |run.order|);
    hide VanishedUpdate, FileUpdates, Cleanups, VanishedUpdates;
  }

  // ---------------------------------------------------------------- an entry outside the rules

  /** An entry whose visible path the rules no longer sync: it is gone if the server has never accepted it; otherwise only its
      pending mutation is. */
  lemma OutsideEntries(run: Run, history: History, id: EntryId)
    requires GoodRun(run, history) && id in run.table
    requires LocalKey(run.table[id]).Some? && !run.syncable(LocalKey(run.table[id]).value)
    ensures ReconcileAll(run.table, Updates(run)).Some?
    ensures var remote, after := run.table[id].remote, Reconcile.After(run);
      if remote.None? || remote.value.revision == 0 then id !in after
      else id in after && after[id] == run.table[id].(pending := None)
  {
    UpdatesApply(run, history);
    var k :| 0 <= k < |run.order| && run.order[k] == id;
    var u := CleanupUpdate(run, k).value;
    CleanupIsListed(run, k);
    UpdateTakesEffect(run, history, u);
    hide GoodRun, Updates, ReconcileAll;
  }

  lemma CleanupIsListed(run: Run, k: nat)
    requires k < |run.order| && CleanupUpdate(run, k).Some?
    ensures CleanupUpdate(run, k).value in Updates(run)
  {
    CleanupsAreFrom(run, |run.order|);
    hide CleanupUpdate, FileUpdates, Cleanups, VanishedUpdates;
  }

  // ---------------------------------------------------------------- where a file goes

  /** An entry with a lost file of this content that none of the first `n` files took. */
  ghost predicate IsFree(run: Run, after: Entries, id: EntryId, hash: string, n: nat)
    requires n <= |run.files|
  {
    HasLostFile(run, id) && run.table[id].local.value.hash == Some(hash) && !IsTaken(run, after, id, n)
  }

  ghost predicate FirstFree(run: Run, after: Entries, id: EntryId, hash: string, n: nat)
    requires n <= |run.files|
  {
    exists k :: 0 <= k < |run.order| && run.order[k] == id && IsFree(run, after, id, hash, n)
      && forall j | 0 <= j < k :: !IsFree(run, after, run.order[j], hash, n)
  }

  /** A file goes to the entry that lives at its path; else to the one listed last that waits to delete the path; else to
      the first listed one that lost a file of the same content and was not taken by an earlier file; else to the one
      listed last that is at the path on the server; else to a new one. */
  ghost predicate GoesTo(run: Run, after: Entries, i: nat, id: EntryId)
    requires i < |run.files|
  {
    var path, hash := run.files[i].path, run.files[i].hash;
    if exists other :: Lives(run, other, path) then Lives(run, id, path)
    else if exists other :: Deletes(run, other, path) then LastDeletes(run, id, path)
    else if exists other :: IsFree(run, after, other, hash, i) then FirstFree(run, after, id, hash, i)
    else if exists other :: IsRemotelyAt(run, other, path) then LastRemotelyAt(run, id, path)
    else id == run.mintEntry(i)
  }

  lemma {:induction false} FirstInFilter(order: seq<EntryId>, keep: EntryId -> bool, holds: EntryId -> bool)
    ensures var first := FirstOf(Filter(order, keep), holds);
      && (first.None? <==> forall j | 0 <= j < |order| :: !(keep(order[j]) && holds(order[j])))
      && (first.Some? ==> exists k ::
            && 0 <= k < |order| && order[k] == first.value && keep(order[k]) && holds(order[k])
            && forall j | 0 <= j < k :: !(keep(order[j]) && holds(order[j])))
  {
    if order != [] {
      var init, last := order[..|order| - 1], order[|order| - 1];
      FirstInFilter(init, keep, holds);
      FirstOfJoined(Filter(init, keep), if keep(last) then [last] else [], holds);
      assert forall j | 0 <= j < |init| :: init[j] == order[j];
      var before, first := FirstOf(Filter(init, keep), holds), FirstOf(Filter(order, keep), holds);
      if before.Some? {
        var k :| 0 <= k < |init| && init[k] == before.value && keep(init[k]) && holds(init[k])
          && forall j | 0 <= j < k :: !(keep(init[j]) && holds(init[j]));
        assert order[k] == first.value;
      } else if keep(last) && holds(last) {
        assert order[|init|] == first.value;
      }
    }
  }

  lemma FirstOfJoined(a: seq<EntryId>, b: seq<EntryId>, holds: EntryId -> bool)
    ensures FirstOf(a + b, holds) == if FirstOf(a, holds).Some? then FirstOf(a, holds) else FirstOf(b, holds)
  {
    if a == [] {
      assert a + b == b;
    } else {
      assert (a + b)[0] == a[0] && (a + b)[1..] == a[1..] + b;
      FirstOfJoined(a[1..], b, holds);
    }
  }

  /** The candidates left before file `n`, as one condition on the listed entries. */
  function Left(run: Run, n: nat): EntryId -> bool
    requires n <= |run.files|
  {
    id => RenameCandidate(run, id) && !(exists i :: 0 <= i < n && IsRename(FateAt(run, i)) && FateAt(run, i).id == id)
  }

  lemma FilterAgrees(order: seq<EntryId>, a: EntryId -> bool, b: EntryId -> bool)
    requires forall id | id in order :: a(id) == b(id)
    ensures Filter(order, a) == Filter(order, b)
  {
  }

  lemma FilterOne(order: seq<EntryId>, last: EntryId, keep: EntryId -> bool)
    ensures Filter(order + [last], keep) == Filter(order, keep) + if keep(last) then [last] else []
  {
    assert (order + [last])[..|order|] == order;
  }

  lemma {:induction false} FilterTwice(order: seq<EntryId>, a: EntryId -> bool, b: EntryId -> bool, both: EntryId -> bool)
    requires forall id | id in order :: both(id) == (a(id) && b(id))
    ensures Filter(Filter(order, a), b) == Filter(order, both)
  {
    if order != [] {
      var init, last := order[..|order| - 1], order[|order| - 1];
      assert order == init + [last];
      FilterTwice(init, a, b, both);
      FilterOne(init, last, a);
      FilterOne(init, last, both);
      FilterOne(Filter(init, a), last, b);
      assert Filter(init, a) + [] == Filter(init, a);
      hide Filter;
    }
  }

  lemma LeftStep(run: Run, n: nat, id: EntryId)
    requires n < |run.files|
    ensures Left(run, n + 1)(id) == (Left(run, n)(id) && !(IsRename(FateAt(run, n)) && FateAt(run, n).id == id))
  {
    hide FateAt, RenameCandidate;
  }

  lemma {:induction false} CandidatesAreLeft(run: Run, n: nat)
    requires n <= |run.files|
    ensures Candidates(run, n) == Filter(run.order, Left(run, n))
  {
    hide FateAt, FateOf, Candidates, Left, Filter, OtherThan, Renamable, WithoutId, IsRename;
    if n == 0 {
      NoneLeftOut(run);
    } else {
      CandidatesAreLeft(run, n - 1);
      CandidatesStep(run, n - 1);
      LeftOnward(run, n - 1);
    }
  }

  lemma NoneLeftOut(run: Run)
    ensures Candidates(run, 0) == Filter(run.order, Left(run, 0))
  {
    hide RenameCandidate, Filter;
    FilterAgrees(run.order, Renamable(run), Left(run, 0));
  }

  lemma LeftOnward(run: Run, n: nat)
    requires n < |run.files|
    ensures Filter(run.order, Left(run, n + 1)) ==
      if IsRename(FateAt(run, n)) then WithoutId(Filter(run.order, Left(run, n)), FateAt(run, n).id)
      else Filter(run.order, Left(run, n))
  {
    hide FateAt, Left, Filter;
    var fate := FateAt(run, n);
    forall id ensures Left(run, n + 1)(id) == (Left(run, n)(id) && !(IsRename(fate) && fate.id == id)) {
      LeftStep(run, n, id);
    }
    if IsRename(fate) {
      FilterTwice(run.order, Left(run, n), OtherThan(fate.id), Left(run, n + 1));
    } else {
      FilterAgrees(run.order, Left(run, n), Left(run, n + 1));
    }
  }

  lemma CandidatesStep(run: Run, n: nat)
    requires n < |run.files|
    ensures Candidates(run, n + 1) ==
      if IsRename(FateAt(run, n)) then WithoutId(Candidates(run, n), FateAt(run, n).id) else Candidates(run, n)
  {
    hide FateOf;
  }

  lemma FreeExactly(run: Run, history: History, id: EntryId, hash: string, n: nat)
    requires GoodRun(run, history) && n <= |run.files| && hash != ""
    ensures ReconcileAll(run.table, Updates(run)).Some?
    ensures IsFree(run, Reconcile.After(run), id, hash, n) <==> Left(run, n)(id) && HasHash(run, hash)(id)
  {
    UpdatesApply(run, history);
    LostExactly(run, id);
    if HasLostFile(run, id) {
      TakenExactly(run, history, id, n);
    }
    hide GoodRun, Updates, ReconcileAll, FateAt, Lost, HasLostFile, IsTaken;
  }

  /** The rename a file is matched to, if nothing lives at its path and nothing waits to delete it. */
  lemma RenameExactly(run: Run, history: History, i: nat)
    requires GoodRun(run, history) && i < |run.files|
    ensures ReconcileAll(run.table, Updates(run)).Some?
    ensures var matched := FirstOf(Candidates(run, i), HasHash(run, run.files[i].hash));
      var after, hash := Reconcile.After(run), run.files[i].hash;
      && (matched.Some? ==> FirstFree(run, after, matched.value, hash, i))
      && (matched.None? ==> forall other :: !IsFree(run, after, other, hash, i))
  {
    UpdatesApply(run, history);
    var hash := run.files[i].hash;
    assert hash != "";
    forall id ensures IsFree(run, Reconcile.After(run), id, hash, i) <==> Left(run, i)(id) && HasHash(run, hash)(id) {
      FreeExactly(run, history, id, hash, i);
    }
    forall id | IsFree(run, Reconcile.After(run), id, hash, i) ensures id in run.order {
    }
    CandidatesAreLeft(run, i);
    FirstInFilter(run.order, Left(run, i), HasHash(run, hash));
    hide GoodRun, Updates, ReconcileAll, Candidates, FirstOf, Filter, Left, HasHash, IsFree;
  }

  lemma MatchedEntry(run: Run, i: nat)
    requires i < |run.files|
    ensures var existing, deleter := Existing(run, run.files[i].path), PendingDelete(run, run.files[i].path);
      var matched := FirstOf(Candidates(run, i), HasHash(run, run.files[i].hash));
      var remote := VisibleRemote(run, run.files[i].path);
      FateAt(run, i).id ==
        if existing.Some? then existing.value
        else if deleter.Some? then deleter.value
        else if matched.Some? then matched.value
        else if remote.Some? then remote.value
        else run.mintEntry(i)
    ensures FateAt(run, i).Queue? ==>
      (FateAt(run, i).origin.ByRemote? || FateAt(run, i).origin.Added? <==>
        && Existing(run, run.files[i].path).None? && PendingDelete(run, run.files[i].path).None?
        && FirstOf(Candidates(run, i), HasHash(run, run.files[i].hash)).None?)
  {
    hide Candidates, FirstOf, HasHash, PendingDelete, VisibleRemote, CanSkipHash;
  }

  lemma FileGoes(run: Run, history: History, i: nat)
    requires GoodRun(run, history) && i < |run.files|
    ensures ReconcileAll(run.table, Updates(run)).Some?
    ensures GoesTo(run, Reconcile.After(run), i, FateAt(run, i).id)
  {
    UpdatesApply(run, history);
    var path, hash, id := run.files[i].path, run.files[i].hash, FateAt(run, i).id;
    assert run.syncable(path);
    hide GoodRun, Updates, ReconcileAll, Candidates, FirstOf, HasHash, IsFree, FirstFree, Lives, Deletes, LastDeletes, IsRemotelyAt,
      LastRemotelyAt, Existing, PendingDelete, VisibleRemote, FateAt, Reconcile.After;
    MatchedEntry(run, i);
    ExistingExactly(run, history, path, id);
    if Existing(run, path).None? {
      DeleterExactly(run, history, path, id);
      if PendingDelete(run, path).None? {
        RenameExactly(run, history, i);
        var matched := FirstOf(Candidates(run, i), HasHash(run, hash));
        if matched.Some? {
          FirstIsFree(run, Reconcile.After(run), matched.value, hash, i);
        } else {
          RemoteExactly(run, history, path, id);
        }
      }
    }
  }

  lemma FirstIsFree(run: Run, after: Entries, id: EntryId, hash: string, n: nat)
    requires n <= |run.files| && FirstFree(run, after, id, hash, n)
    ensures IsFree(run, after, id, hash, n)
  {
    hide IsFree;
  }

  // ---------------------------------------------------------------- what a file leaves

  /** The file is where its entry lives, unless the entry is the one that waits to delete the path. */
  ghost predicate IsHome(run: Run, i: nat, id: EntryId)
    requires i < |run.files|
  {
    Lives(run, id, run.files[i].path) && !LastDeletes(run, id, run.files[i].path)
  }

  ghost predicate SameStamps(run: Run, i: nat, id: EntryId)
    requires i < |run.files| && Lives(run, id, run.files[i].path)
  {
    var local := run.table[id].local.value;
    local.hash.Some? && local.hash.value != "" && local.mtime == Some(run.files[i].mtime) && local.size == Some(run.files[i].size)
  }

  /** The content a queued upsert continues: the server's, when the file was found by the server's path only; nothing for a
      new entry; the local one otherwise. */
  ghost function Continued(run: Run, after: Entries, i: nat, id: EntryId): Option<(bool, Option<string>, Option<string>)>
    requires i < |run.files|
  {
    var path := run.files[i].path;
    if id !in run.table then None
    else if (exists other :: Lives(run, other, path)) || (exists other :: Deletes(run, other, path))
         || (exists other :: IsFree(run, after, other, run.files[i].hash, i))
    then
      if run.table[id].local.None? then None
      else Some((run.table[id].local.value.deleted, run.table[id].local.value.blobId, run.table[id].local.value.hash))
    else if run.table[id].remote.None? then None
    else Some((run.table[id].remote.value.deleted, run.table[id].remote.value.blobId, run.table[id].remote.value.hash))
  }

  /** The entry records the file and waits to push it on top of the listed server state; unchanged live content keeps its blob. */
  ghost predicate IsQueued(run: Run, after: Entries, i: nat, id: EntryId)
    requires i < |run.files|
  {
    var file, listed := run.files[i], if id in run.table then run.table[id].remote else None;
    && id in after && after[id].entryId == id && after[id].remote == listed && BasedOn(after[id], listed)
    && var m := after[id].pending.value;
       && m.op.Upsert? && m.status.Waiting? && m.mutationId == run.mint(i) && m.hash == Some(file.hash)
       && Open(m.metadata, MutationContext(m)) == Some(Metadata(file.path, Some(file.hash)))
       && after[id].local == Some(LocalRow(id, Some(file.path), m.blobId, Some(file.hash), false, run.now,
            Some(file.mtime), Some(file.size)))
       && var continued := Continued(run, after, i, id);
          m.blobId ==
            if continued.Some? && !continued.value.0 && continued.value.2 == Some(file.hash)
               && continued.value.1.Some? && continued.value.1.value != ""
            then continued.value.1 else Some(run.mintBlob(i))
  }

  /** An unchanged file changes nothing, one with the recorded content only its time and size; any other is queued. */
  ghost predicate FileOutcome(run: Run, after: Entries, i: nat, id: EntryId)
    requires i < |run.files|
  {
    if IsHome(run, i, id) && SameStamps(run, i, id) then id in after && after[id] == run.table[id]
    else if IsHome(run, i, id) && run.table[id].local.value.hash == Some(run.files[i].hash) then
      && id in after
      && after[id] == run.table[id].(local :=
           Some(run.table[id].local.value.(mtime := Some(run.files[i].mtime), size := Some(run.files[i].size))))
    else IsQueued(run, after, i, id)
  }

  lemma FateIsHome(run: Run, history: History, i: nat)
    requires GoodRun(run, history) && i < |run.files|
    ensures var fate := FateAt(run, i);
      && (fate.Skip? <==> IsHome(run, i, fate.id) && SameStamps(run, i, fate.id))
      && (fate.Touch? <==>
            && IsHome(run, i, fate.id) && !SameStamps(run, i, fate.id)
            && run.table[fate.id].local.value.hash == Some(run.files[i].hash))
  {
    var path, id := run.files[i].path, FateAt(run, i).id;
    assert run.syncable(path);
    ExistingExactly(run, history, path, id);
    DeleterExactly(run, history, path, id);
    if Existing(run, path).None? {
      assert !Lives(run, id, path);
    }
    hide GoodRun, Candidates, FirstOf, HasHash, LastDeletes, Deletes, Existing, PendingDelete, VisibleRemote;
  }

  lemma TouchedRow(run: Run, history: History, i: nat)
    requires GoodRun(run, history) && i < |run.files| && FateAt(run, i).Touch? && ReconcileAll(run.table, Updates(run)).Some?
    requires Lives(run, FateAt(run, i).id, run.files[i].path)
    ensures var id, after := FateAt(run, i).id, Reconcile.After(run);
      && id in after
      && after[id] == run.table[id].(local :=
           Some(run.table[id].local.value.(mtime := Some(run.files[i].mtime), size := Some(run.files[i].size))))
  {
    FileUpdateIsListed(run, i);
    UpdateTakesEffect(run, history, FileUpdate(run, i).value);
    hide GoodRun, FateAt, Updates, ReconcileAll;
  }

  lemma QueuedRow(run: Run, history: History, i: nat)
    requires GoodRun(run, history) && i < |run.files| && FateAt(run, i).Queue? && ReconcileAll(run.table, Updates(run)).Some?
    ensures var id, after, m := FateAt(run, i).id, Reconcile.After(run), UpsertMutation(run, i, FateAt(run, i));
      && id in after && after[id].entryId == id
      && after[id].remote == (if id in run.table then run.table[id].remote else None)
      && BasedOn(after[id], after[id].remote) && after[id].pending == Some(m)
      && after[id].local == Some(LocalRow(id, Some(run.files[i].path), m.blobId, Some(run.files[i].hash), false, run.now,
           Some(run.files[i].mtime), Some(run.files[i].size)))
  {
    var id := FateAt(run, i).id;
    if id in run.table {
      assert GoodRecord(history, id, run.table[id]);
    }
    FileUpdateIsListed(run, i);
    UpdateTakesEffect(run, history, FileUpdate(run, i).value);
    hide GoodRun, FateAt, Updates, ReconcileAll, WellBound, GoodRecord, UpsertMutation, RowAfter, BasedOn;
    QueuedRowFits(run, i, RowAfter(run.table, FileUpdate(run, i).value));
  }

  lemma QueuedRowFits(run: Run, i: nat, row: EntryRecord)
    requires i < |run.files| && FateAt(run, i).Queue? && row == RowAfter(run.table, FileUpdate(run, i).value)
    requires FateAt(run, i).id in run.table ==> run.table[FateAt(run, i).id].entryId == FateAt(run, i).id
    ensures var id, m := FateAt(run, i).id, UpsertMutation(run, i, FateAt(run, i));
      && row.entryId == id && row.remote == (if id in run.table then run.table[id].remote else None)
      && BasedOn(row, row.remote) && row.pending == Some(m)
      && row.local == Some(LocalRow(id, Some(run.files[i].path), m.blobId, Some(run.files[i].hash), false, run.now,
           Some(run.files[i].mtime), Some(run.files[i].size)))
  {
    hide FateAt, WellBound, Previous, CreateNextBlobId;
    var id, m := FateAt(run, i).id, UpsertMutation(run, i, FateAt(run, i));
    assert row.pending == Some(m) && row.base.revision == m.baseRevision;
  }

  /** Whether a file was matched by the server's path only, or not at all. */
  lemma UnmatchedExactly(run: Run, history: History, i: nat)
    requires GoodRun(run, history) && i < |run.files| && FateAt(run, i).Queue?
    ensures ReconcileAll(run.table, Updates(run)).Some?
    ensures var path, after := run.files[i].path, Reconcile.After(run);
      (FateAt(run, i).origin.ByRemote? || FateAt(run, i).origin.Added?) <==>
        && (forall other :: !Lives(run, other, path)) && (forall other :: !Deletes(run, other, path))
        && (forall other :: !IsFree(run, after, other, run.files[i].hash, i))
  {
    UpdatesApply(run, history);
    var path, hash := run.files[i].path, run.files[i].hash;
    assert run.syncable(path);
    hide GoodRun, Updates, ReconcileAll, Candidates, FirstOf, HasHash, IsFree, FirstFree, Lives, Deletes, LastDeletes,
      Existing, PendingDelete, FateAt, Reconcile.After;
    MatchedEntry(run, i);
    ExistingExactly(run, history, path, "");
    DeleterExactly(run, history, path, "");
    RenameExactly(run, history, i);
    var matched := FirstOf(Candidates(run, i), HasHash(run, hash));
    if matched.Some? { FirstIsFree(run, Reconcile.After(run), matched.value, hash, i); }
    if Existing(run, path).Some? { ExistingExactly(run, history, path, Existing(run, path).value); }
    if PendingDelete(run, path).Some? {
      DeleterExactly(run, history, path, PendingDelete(run, path).value);
      LastDeletesDeletes(run, PendingDelete(run, path).value, path);
    }
  }

  lemma LastDeletesDeletes(run: Run, id: EntryId, path: Path)
    requires LastDeletes(run, id, path)
    ensures Deletes(run, id, path)
  {
    hide Deletes;
  }

  /** What a queued upsert continues, by the way its file was matched. */
  lemma ContinuedExactly(run: Run, history: History, i: nat)
    requires GoodRun(run, history) && i < |run.files| && FateAt(run, i).Queue? && ReconcileAll(run.table, Updates(run)).Some?
    ensures var fate, continued := FateAt(run, i), Continued(run, Reconcile.After(run), i, FateAt(run, i).id);
      if fate.origin.Added? then continued.None?
      else
        && fate.id in run.table
        && if fate.origin.ByRemote? then
             && run.table[fate.id].remote.Some?
             && var r := run.table[fate.id].remote.value; continued == Some((r.deleted, r.blobId, r.hash))
           else
             && run.table[fate.id].local.Some?
             && var l := run.table[fate.id].local.value; continued == Some((l.deleted, l.blobId, l.hash))
  {
    UnmatchedExactly(run, history, i);
    FateClaims(run, history, i);
    MatchedIsLocal(run, i);
    hide GoodRun, Updates, ReconcileAll, FateAt, Lives, Deletes, IsFree, Reconcile.After, Claims, Candidates;
  }

  /** The blob of a queued upsert. */
  lemma BlobExactly(run: Run, history: History, i: nat)
    requires GoodRun(run, history) && i < |run.files| && FateAt(run, i).Queue? && ReconcileAll(run.table, Updates(run)).Some?
    ensures var continued := Continued(run, Reconcile.After(run), i, FateAt(run, i).id);
      UpsertMutation(run, i, FateAt(run, i)).blobId ==
        if continued.Some? && !continued.value.0 && continued.value.2 == Some(run.files[i].hash)
           && continued.value.1.Some? && continued.value.1.value != ""
        then continued.value.1 else Some(run.mintBlob(i))
  {
    ContinuedExactly(run, history, i);
    FateClaims(run, history, i);
    MatchedIsLocal(run, i);
    BlobOfUpsert(run, i, FateAt(run, i));
    hide GoodRun, Updates, ReconcileAll, FateAt, Continued, Reconcile.After, UpsertMutation, Claims;
  }

  lemma BlobOfUpsert(run: Run, i: nat, fate: Fate)
    requires i < |run.files| && fate.Queue? && (fate.origin.Added? <==> fate.id !in run.table)
    requires fate.origin.ByRemote? ==> run.table[fate.id].remote.Some?
    requires !fate.origin.ByRemote? && !fate.origin.Added? ==> run.table[fate.id].local.Some?
    ensures var continued :=
        if fate.origin.Added? then None
        else if fate.origin.ByRemote? then
          var r := run.table[fate.id].remote.value; Some((r.deleted, r.blobId, r.hash))
        else
          var l := run.table[fate.id].local.value; Some((l.deleted, l.blobId, l.hash));
      UpsertMutation(run, i, fate).blobId ==
        if continued.Some? && !continued.value.0 && continued.value.2 == Some(run.files[i].hash)
           && continued.value.1.Some? && continued.value.1.value != ""
        then continued.value.1 else Some(run.mintBlob(i))
  {
    hide WellBound, MadeOn;
  }

  /** An entry matched otherwise is known locally; a new one is not listed. */
  lemma MatchedIsLocal(run: Run, i: nat)
    requires i < |run.files| && FateAt(run, i).Queue? && Claims(run, i, FateAt(run, i))
    ensures var fate := FateAt(run, i);
      && (!fate.origin.ByRemote? && !fate.origin.Added? ==> fate.id in run.table && run.table[fate.id].local.Some?)
      && (fate.origin.Added? ==> fate.id !in run.table)
      && (fate.origin.ByRemote? ==> fate.id in run.table && run.table[fate.id].remote.Some?)
  {
    hide FateAt, Candidates;
  }

  /** Each scanned file goes to an entry, and leaves it as told above. */
  lemma FileOutcomes(run: Run, history: History, i: nat) returns (id: EntryId)
    requires GoodRun(run, history) && i < |run.files|
    ensures ReconcileAll(run.table, Updates(run)).Some?
    ensures GoesTo(run, Reconcile.After(run), i, id) && FileOutcome(run, Reconcile.After(run), i, id)
  {
    id := FateAt(run, i).id;
    UpdatesApply(run, history);
    FileGoes(run, history, i);
    FateIsHome(run, history, i);
    hide GoodRun, Updates, ReconcileAll, FateAt, GoesTo, Lives, LastDeletes, SameStamps, Reconcile.After, BasedOn, Continued,
      UpsertMutation, WellBound;
    match FateAt(run, i)
    case Skip(_) =>
      SkippedIsUntouched(run, history, i);
      SkippedRecords(run, history, i);
    case Touch(_) => TouchedRow(run, history, i);
    case Queue(_, _) =>
      QueuedRow(run, history, i);
      BlobExactly(run, history, i);
      MutationSays(run, i);
  }

  lemma MutationSays(run: Run, i: nat)
    requires i < |run.files| && FateAt(run, i).Queue?
    ensures var m, file := UpsertMutation(run, i, FateAt(run, i)), run.files[i];
      && m.op.Upsert? && m.status.Waiting? && m.mutationId == run.mint(i) && m.hash == Some(file.hash)
      && Open(m.metadata, MutationContext(m)) == Some(Metadata(file.path, Some(file.hash)))
  {
    hide FateAt, Previous;
  }

  // ---------------------------------------------------------------- whatever is queued

  /** Whatever a run newly queues, for a file or for a lost one, is based on the listed server state of its entry. */
  lemma QueuedOnListedState(run: Run, history: History, id: EntryId)
    requires GoodRun(run, history)
    ensures ReconcileAll(run.table, Updates(run)).Some?
    ensures var after, listed := Reconcile.After(run), if id in run.table then run.table[id].remote else None;
      id in after && after[id].pending.Some? && (id !in run.table || after[id].pending != run.table[id].pending) ==>
        BasedOn(after[id], listed) && after[id].remote == listed
  {
    UpdatesApply(run, history);
    var after := Reconcile.After(run);
    hide GoodRun, Updates, ReconcileAll, Reconcile.After, BasedOn, RowAfter;
    if u :| u in Updates(run) && u.entryId == id {
      UpdateTakesEffect(run, history, u);
      UpdateIsBased(run, history, u);
    } else {
      UntouchedStays(run, history, id);
    }
  }

  /** If the update changes the pending mutation, the row it leaves is based on the listed server state. */
  ghost predicate IsBased(run: Run, u: Update) {
    var row, id := RowAfter(run.table, u), u.entryId;
    !u.deleteEntry && row.pending.Some? && (id !in run.table || row.pending != run.table[id].pending) ==>
      BasedOn(row, row.remote) && row.remote == if id in run.table then run.table[id].remote else None
  }

  lemma UpdateIsBased(run: Run, history: History, u: Update)
    requires GoodRun(run, history) && u in Updates(run)
    ensures IsBased(run, u)
  {
    hide GoodRun, Updates, IsBased, FileUpdate, CleanupUpdate, VanishedUpdate;
    EachEntryHasOneUpdate(run, history);
    if FromFile(run, u) {
      var i :| 0 <= i < |run.files| && FileUpdate(run, i) == Some(u);
      FileUpdateIsBased(run, history, i);
    } else if FromVanished(run, u) {
      var k :| 0 <= k < |run.order| && VanishedUpdate(run, k) == Some(u);
      VanishedUpdateIsBased(run, history, k);
    } else {
      var k :| 0 <= k < |run.order| && CleanupUpdate(run, k) == Some(u);
      CleanupClears(run, k);
    }
  }

  lemma FileUpdateIsBased(run: Run, history: History, i: nat)
    requires GoodRun(run, history) && i < |run.files| && FileUpdate(run, i).Some?
    ensures IsBased(run, FileUpdate(run, i).value)
  {
    FileUpdateId(run, i);
    var id := FateAt(run, i).id;
    if id in run.table {
      assert GoodRecord(history, id, run.table[id]);
    }
    hide GoodRun, FateAt, BasedOn, UpsertMutation, GoodRecord;
    if FateAt(run, i).Queue? {
      QueuedRowFits(run, i, RowAfter(run.table, FileUpdate(run, i).value));
    }
  }

  lemma VanishedUpdateIsBased(run: Run, history: History, k: nat)
    requires GoodRun(run, history) && k < |run.order| && VanishedUpdate(run, k).Some?
    ensures IsBased(run, VanishedUpdate(run, k).value)
  {
    var id := run.order[k];
    assert GoodRecord(history, id, run.table[id]);
    hide GoodRun, RenamedIds, WellBound, GoodRecord;
  }

  lemma CleanupClears(run: Run, k: nat)
    requires k < |run.order| && CleanupUpdate(run, k).Some?
    ensures IsBased(run, CleanupUpdate(run, k).value)
  {
  }

  // ---------------------------------------------------------------- the whole run

  ghost predicate IsOutside(run: Run, id: EntryId) {
    id in run.table && LocalKey(run.table[id]).Some? && !run.syncable(LocalKey(run.table[id]).value)
  }

  ghost predicate OutsideOutcome(run: Run, after: Entries, id: EntryId)
    requires id in run.table
  {
    var remote := run.table[id].remote;
    if remote.None? || remote.value.revision == 0 then id !in after
    else id in after && after[id] == run.table[id].(pending := None)
  }

  ghost predicate FileSettles(run: Run, after: Entries, i: nat)
    requires i < |run.files|
  {
    exists id :: GoesTo(run, after, i, id) && FileOutcome(run, after, i, id)
  }

  ghost predicate LostSettles(run: Run, after: Entries, id: EntryId) {
    HasLostFile(run, id) && !IsTaken(run, after, id, |run.files|) ==> LostOutcome(run, after, id)
  }

  ghost predicate OutsideSettles(run: Run, after: Entries, id: EntryId) {
    IsOutside(run, id) ==> OutsideOutcome(run, after, id)
  }

  /** An entry that has not lost its file, is not outside the rules and takes no file stays as listed. */
  ghost predicate OtherSettles(run: Run, after: Entries, id: EntryId) {
    HasLostFile(run, id) || IsOutside(run, id) || (exists i :: 0 <= i < |run.files| && GoesTo(run, after, i, id))
    || SameRow(run.table, after, id)
  }

  /** What becomes of every file and of every entry. */
  ghost predicate RunOutcome(run: Run, after: Entries) {
    && (forall i | 0 <= i < |run.files| :: FileSettles(run, after, i))
    && (forall id: EntryId :: LostSettles(run, after, id) && OutsideSettles(run, after, id) && OtherSettles(run, after, id))
  }

  lemma OthersStay(run: Run, history: History, id: EntryId)
    requires GoodRun(run, history) && !HasLostFile(run, id) && !IsOutside(run, id)
    requires ReconcileAll(run.table, Updates(run)).Some?
    requires forall i | 0 <= i < |run.files| :: !GoesTo(run, Reconcile.After(run), i, id)
    ensures SameRow(run.table, Reconcile.After(run), id)
  {
    LostExactly(run, id);
    assert Outside(run, id) <==> IsOutside(run, id);
    hide GoodRun, Updates, ReconcileAll, FateAt, GoesTo, HasLostFile, IsOutside, Reconcile.After, Lost, Outside;
    forall i | 0 <= i < |run.files| ensures FateAt(run, i).id != id {
      FileGoes(run, history, i);
    }
    NoUpdateFor(run, history, id);
    UntouchedStays(run, history, id);
  }

  lemma RunOutcomes(run: Run, history: History)
    requires GoodRun(run, history)
    ensures ReconcileAll(run.table, Updates(run)).Some? && RunOutcome(run, Reconcile.After(run))
  {
    UpdatesApply(run, history);
    hide GoodRun, Updates, ReconcileAll, Reconcile.After, FileSettles, LostSettles, OutsideSettles, OtherSettles;
    forall i | 0 <= i < |run.files| ensures FileSettles(run, Reconcile.After(run), i) {
      FileIsSettled(run, history, i);
    }
    forall id: EntryId
      ensures var after := Reconcile.After(run);
        LostSettles(run, after, id) && OutsideSettles(run, after, id) && OtherSettles(run, after, id)
    {
      EntryIsSettled(run, history, id);
    }
  }

  lemma FileIsSettled(run: Run, history: History, i: nat)
    requires GoodRun(run, history) && i < |run.files|
    ensures ReconcileAll(run.table, Updates(run)).Some? && FileSettles(run, Reconcile.After(run), i)
  {
    hide GoodRun, Updates, ReconcileAll, Reconcile.After, GoesTo, FileOutcome;
    var id := FileOutcomes(run, history, i);
  }

  lemma EntryIsSettled(run: Run, history: History, id: EntryId)
    requires GoodRun(run, history)
    ensures ReconcileAll(run.table, Updates(run)).Some?
    ensures var after := Reconcile.After(run);
      LostSettles(run, after, id) && OutsideSettles(run, after, id) && OtherSettles(run, after, id)
  {
    UpdatesApply(run, history);
    LostIsListed(run, id);
    hide GoodRun, Updates, ReconcileAll, Reconcile.After, GoesTo, HasLostFile, IsTaken, LostOutcome, IsOutside, OutsideOutcome,
      SameRow;
    if HasLostFile(run, id) {
      LostEntries(run, history, id);
    } else if IsOutside(run, id) {
      OutsideIsListed(run, history, id);
    } else if forall i | 0 <= i < |run.files| :: !GoesTo(run, Reconcile.After(run), i, id) {
      OthersStay(run, history, id);
    }
  }

  lemma LostIsListed(run: Run, id: EntryId)
    ensures HasLostFile(run, id) ==> id in run.table && LocalKey(run.table[id]).Some? && !IsOutside(run, id)
  {
  }

  lemma OutsideIsListed(run: Run, history: History, id: EntryId)
    requires GoodRun(run, history) && IsOutside(run, id)
    ensures ReconcileAll(run.table, Updates(run)).Some?
    ensures id in run.table && OutsideOutcome(run, Reconcile.After(run), id)
  {
    OutsideEntries(run, history, id);
  }

  // ---------------------------------------------------------------- the counts

  /** The entry waits for the server to delete a file that is gone. */
  ghost predicate DeleteWaits(run: Run, after: Entries, id: EntryId) {
    && HasLostFile(run, id) && !IsTaken(run, after, id, |run.files|)
    && run.table[id].remote.Some? && run.table[id].remote.value.revision > 0
  }

  ghost function WaitingBefore(run: Run, after: Entries, n: nat): set<EntryId>
    requires n <= |run.order|
  {
    set k | 0 <= k < n && DeleteWaits(run, after, run.order[k]) :: run.order[k]
  }

  lemma WaitingStep(run: Run, after: Entries, n: nat)
    requires n < |run.order| && DistinctIds(run.order)
    ensures run.order[n] !in WaitingBefore(run, after, n)
    ensures WaitingBefore(run, after, n + 1) ==
      WaitingBefore(run, after, n) + if DeleteWaits(run, after, run.order[n]) then {run.order[n]} else {}
  {
    hide DeleteWaits;
  }

  lemma NoneWaits(run: Run, after: Entries)
    ensures WaitingBefore(run, after, 0) == {}
  {
  }

  lemma OrderIsDistinct(run: Run, history: History)
    requires GoodRun(run, history)
    ensures DistinctIds(run.order)
  {
  }

  /** The store records the file already, as far as its content goes. */
  ghost predicate IsRecorded(run: Run, i: nat)
    requires i < |run.files|
  {
    exists id :: IsHome(run, i, id) && (SameStamps(run, i, id) || run.table[id].local.value.hash == Some(run.files[i].hash))
  }

  lemma RecordedExactly(run: Run, history: History, i: nat)
    requires GoodRun(run, history) && i < |run.files|
    ensures IsRecorded(run, i) <==> !FateAt(run, i).Queue?
  {
    FateIsHome(run, history, i);
    var path, id := run.files[i].path, FateAt(run, i).id;
    assert run.syncable(path);
    forall other | Lives(run, other, path) ensures other == id {
      ExistingExactly(run, history, path, other);
      MatchedEntry(run, i);
    }
    hide GoodRun, FateAt, Lives, LastDeletes, SameStamps;
  }

  lemma DeleteWaitsExactly(run: Run, history: History, k: nat)
    requires GoodRun(run, history) && k < |run.order| && ReconcileAll(run.table, Updates(run)).Some?
    ensures DeleteWaits(run, Reconcile.After(run), run.order[k]) <==>
      VanishedUpdate(run, k).Some? && VanishedUpdate(run, k).value.dirty.Some?
  {
    var id := run.order[k];
    LostExactly(run, id);
    if HasLostFile(run, id) { LostEntries(run, history, id); }
    hide GoodRun, Updates, ReconcileAll, Reconcile.After, RenamedIds, HasLostFile, Lost, IsTaken, WellBound;
  }
}

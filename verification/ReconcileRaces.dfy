/**
 A reconcile run beside other writers. The run lists the store, hashes files and seals metadata, and then applies its
 updates in chunks; pulls, pushes and recorded events may change the table at any time in between.
 */
module ReconcileRaces {
  import opened Common
  import opened EntryRecords
  import opened EntryStore
  import opened Reconcile

  /** A chunk that has been applied: its updates, the table it found and the table it left. */
  datatype Part = Part(updates: seq<Update>, found: Entries, left: Entries)

  function Joined(parts: seq<Part>): seq<Update> {
    if parts == [] then [] else Joined(parts[..|parts| - 1]) + parts[|parts| - 1].updates
  }

  function LastTable(table: Entries, parts: seq<Part>): Entries {
    if parts == [] then table else parts[|parts| - 1].left
  }

  /** Each chunk was one transaction on whatever table it found. */
  ghost predicate AllApplied(parts: seq<Part>) {
    forall k | 0 <= k < |parts| ::
      OwnKeys(parts[k].found) && ReconcileAll(parts[k].found, parts[k].updates) == Some(parts[k].left)
  }

  /** No other writer touches the entry between the listing and the last chunk. */
  ghost predicate LeftAlone(table: Entries, parts: seq<Part>, id: EntryId) {
    forall k | 0 <= k < |parts| :: SameRow(LastTable(table, parts[..k]), parts[k].found, id)
  }

  /** The entry has the row its update makes of the listed one, or none, or the listed row when it has no update. */
  ghost predicate AsPlanned(table: Entries, updates: seq<Update>, after: Entries, id: EntryId) {
    && (forall k | 0 <= k < |updates| && updates[k].entryId == id ::
          if updates[k].deleteEntry then id !in after else id in after && after[id] == RowAfter(table, updates[k]))
    && ((forall k | 0 <= k < |updates| :: updates[k].entryId != id) ==> SameRow(table, after, id))
  }

  lemma OneUpdate(found: Entries, u: Update, left: Entries)
    requires OwnKeys(found) && ReconcileOne(found, u) == Some(left)
    ensures OwnKeys(left)
    ensures if u.deleteEntry then u.entryId !in left else u.entryId in left && left[u.entryId] == RowAfter(found, u)
    ensures forall id | id != u.entryId :: SameRow(found, left, id)
  {
  }

  lemma {:induction false} ChunkEndsAsPlanned(found: Entries, updates: seq<Update>, left: Entries, id: EntryId)
    requires OwnKeys(found) && OneEach(updates) && ReconcileAll(found, updates) == Some(left)
    ensures OwnKeys(left) && AsPlanned(found, updates, left, id)
  {
    if updates != [] {
      hide RowAfter, AsPlanned, ReconcileOne, OwnKeys, SameRow;
      var init, u := updates[..|updates| - 1], updates[|updates| - 1];
      assert updates == init + [u];
      var before := ReconcileAll(found, init).value;
      ChunkEndsAsPlanned(found, init, before, id);
      OneUpdate(before, u, left);
      PlannedOnce(found, init, u, before, left, id);
    }
  }

  /** One more update after others of other entries. */
  lemma PlannedOnce(table: Entries, init: seq<Update>, u: Update, before: Entries, after: Entries, id: EntryId)
    requires OneEach(init + [u]) && AsPlanned(table, init, before, id)
    requires if u.deleteEntry then u.entryId !in after else u.entryId in after && after[u.entryId] == RowAfter(before, u)
    requires forall other | other != u.entryId :: SameRow(before, after, other)
    ensures AsPlanned(table, init + [u], after, id)
  {
    var all := init + [u];
    assert all[|init|] == u && forall k | 0 <= k < |init| :: all[k] == init[k];
    if u.entryId == id {
      assert forall k | 0 <= k < |init| :: init[k].entryId != id;
      assert RowAfter(before, u) == RowAfter(table, u);
    } else {
      assert SameRow(before, after, id);
    }
  }

  /** Applied to tables that agree on the entry, a list leaves it the same. */
  lemma PlanCarriesOver(table: Entries, found: Entries, updates: seq<Update>, after: Entries, id: EntryId)
    requires SameRow(table, found, id) && AsPlanned(found, updates, after, id)
    ensures AsPlanned(table, updates, after, id)
  {
    forall k | 0 <= k < |updates| && updates[k].entryId == id
      ensures RowAfter(table, updates[k]) == RowAfter(found, updates[k])
    {
    }
    hide RowAfter;
  }

  lemma JoinedPlans(table: Entries, first: seq<Update>, second: seq<Update>, before: Entries, after: Entries, id: EntryId)
    requires OneEach(first + second) && AsPlanned(table, first, before, id) && AsPlanned(before, second, after, id)
    ensures AsPlanned(table, first + second, after, id)
  {
    var all := first + second;
    assert forall k | 0 <= k < |all| :: all[k] == if k < |first| then first[k] else second[k - |first|];
    if j :| 0 <= j < |first| && first[j].entryId == id {
      forall k | 0 <= k < |second| ensures second[k].entryId != id {
        assert all[j].entryId != all[|first| + k].entryId;
      }
      assert SameRow(before, after, id);
    } else {
      assert SameRow(table, before, id);
      PlanCarriesOver(table, before, second, after, id);
      assert forall k | 0 <= k < |second| :: all[|first| + k] == second[k];
    }
  }

  lemma PrefixIsOneEach(first: seq<Update>, second: seq<Update>)
    requires OneEach(first + second)
    ensures OneEach(first) && OneEach(second)
  {
    var all := first + second;
    forall i, j | 0 <= i < j < |first| ensures first[i].entryId != first[j].entryId {
      assert all[i] == first[i] && all[j] == first[j];
    }
    forall i, j | 0 <= i < j < |second| ensures second[i].entryId != second[j].entryId {
      assert all[|first| + i] == second[i] && all[|first| + j] == second[j];
    }
  }

  lemma {:induction false} EntryEndsAsPlanned(table: Entries, parts: seq<Part>, id: EntryId)
    requires OneEach(Joined(parts)) && AllApplied(parts) && LeftAlone(table, parts, id)
    ensures AsPlanned(table, Joined(parts), LastTable(table, parts), id)
  {
    if parts != [] {
      var n := |parts| - 1;
      var init, part := parts[..n], parts[n];
      assert forall k | 0 <= k < n :: init[k] == parts[k] && init[..k] == parts[..k];
      assert Joined(parts) == Joined(init) + part.updates;
      PrefixIsOneEach(Joined(init), part.updates);
      EntryEndsAsPlanned(table, init, id);
      ChunkEndsAsPlanned(part.found, part.updates, part.left, id);
      PlanCarriesOver(LastTable(table, init), part.found, part.updates, part.left, id);
      JoinedPlans(table, Joined(init), part.updates, LastTable(table, init), part.left, id);
    }
  }

  /** Whatever other writers do, and even if a later chunk raises: as far as the chunks of a run have been applied, each entry
      the others leave alone has what the run planned for it. */
  lemma UntouchedEntriesEndAsPlanned(run: Run, history: History, parts: seq<Part>, id: EntryId)
    requires GoodRun(run, history) && Joined(parts) <= Updates(run)
    requires AllApplied(parts) && LeftAlone(run.table, parts, id)
    ensures AsPlanned(run.table, Joined(parts), LastTable(run.table, parts), id)
  {
    EachEntryHasOneUpdate(run, history);
    assert forall k | 0 <= k < |Joined(parts)| :: Joined(parts)[k] == Updates(run)[k];
    hide GoodRun, Updates, FromCleanup, FromFile, FromVanished;
    EntryEndsAsPlanned(run.table, parts, id);
  }

  /** After the last chunk such an entry is exactly as if the run had been alone. */
  lemma UntouchedEntriesEndAsAlone(run: Run, history: History, parts: seq<Part>, id: EntryId)
    requires GoodRun(run, history) && Joined(parts) == Updates(run)
    requires AllApplied(parts) && LeftAlone(run.table, parts, id)
    ensures ReconcileAll(run.table, Updates(run)).Some?
    ensures SameRow(Reconcile.After(run), LastTable(run.table, parts), id)
  {
    UntouchedEntriesEndAsPlanned(run, history, parts, id);
    UpdatesApply(run, history);
    hide GoodRun, Updates, RowAfter;
    var updates := Updates(run);
    if k :| 0 <= k < |updates| && updates[k].entryId == id {
      assert updates[k].deleteEntry || Reconcile.After(run)[id] == RowAfter(run.table, updates[k]);
    } else {
      assert SameRow(run.table, Reconcile.After(run), id);
    }
  }

  /** So each scanned file whose entry is left alone is recorded, */
  lemma UntouchedFilesAreRecorded(run: Run, history: History, parts: seq<Part>, i: nat)
    requires GoodRun(run, history) && Joined(parts) == Updates(run) && i < |run.files|
    requires AllApplied(parts) && LeftAlone(run.table, parts, FateAt(run, i).id)
    ensures var last, id := LastTable(run.table, parts), FateAt(run, i).id;
      id in last && Records(last[id].local, run.files[i])
  {
    EveryFileIsRecorded(run, history, i);
    UntouchedEntriesEndAsAlone(run, history, parts, FateAt(run, i).id);
  }

  /** and each visible synced path of an entry left alone is a scanned file. */
  lemma UntouchedPathsAreScanned(run: Run, history: History, parts: seq<Part>, id: EntryId)
    requires GoodRun(run, history) && Joined(parts) == Updates(run)
    requires AllApplied(parts) && LeftAlone(run.table, parts, id)
    requires var last := LastTable(run.table, parts);
      id in last && LocalKey(last[id]).Some? && run.syncable(LocalKey(last[id]).value)
    ensures Scanned(run.files, LocalKey(LastTable(run.table, parts)[id]).value)
  {
    UntouchedEntriesEndAsAlone(run, history, parts, id);
    EveryRecordHasItsFile(run, history, id);
  }
}

/**
 What a reconcile run is in the cursor protocol: what it queues are local edits on revisions it has read, and what it
 drops are rows it has read without a revision.
 */
module ReconcileProtocol {
  import opened Common
  import opened EntryRecords
  import opened EntryStore
  import opened Reconcile
  import opened ReconcileOutcome
  import Cursor = CursorProtocol

  function ListedRevision(table: Entries, id: EntryId): nat {
    if id in table && table[id].remote.Some? then table[id].remote.value.revision else 0
  }

  /** The rows of the listing have been read; the store may have changed since. */
  ghost predicate HasListed(s: Cursor.State, table: Entries) {
    forall id | id in table :: Cursor.HasRead(s.rows, id, ListedRevision(table, id))
  }

  /** Whatever a run newly queues is an edit on the listed revision of its entry; a new entry is not stored yet. */
  lemma QueuedAreLocalEdits(run: Run, history: History, s: Cursor.State, id: EntryId)
    requires GoodRun(run, history) && HasListed(s, run.table) && (id !in run.table ==> Cursor.Stored(s.stored, id) == 0)
    ensures ReconcileAll(run.table, Updates(run)).Some?
    ensures var after := Reconcile.After(run);
      id in after && after[id].pending.Some? && (id !in run.table || after[id].pending != run.table[id].pending) ==>
        && after[id].pending.value.baseRevision == ListedRevision(run.table, id)
        && Cursor.Enabled(s, Cursor.LocalEdit(id, after[id].pending.value.baseRevision))
  {
    QueuedOnListedState(run, history, id);
    hide GoodRun, Updates, ReconcileAll, Reconcile.After;
  }

  /** Whatever a run drops was listed without a revision. */
  lemma DroppedWereUnpushed(run: Run, history: History, s: Cursor.State, id: EntryId)
    requires GoodRun(run, history) && HasListed(s, run.table) && id in run.table
    ensures ReconcileAll(run.table, Updates(run)).Some?
    ensures id !in Reconcile.After(run) ==>
      && ListedRevision(run.table, id) == 0
      && exists row: Cursor.Row :: row.entry == id && Cursor.Enabled(s, Cursor.RowDropped(row))
  {
    UpdatesApply(run, history);
    if id !in Reconcile.After(run) {
      DropsAreUnpushed(run, history, id);
      assert Cursor.HasRead(s.rows, id, 0);
      var row: Cursor.Row :| row in s.rows && row.entry == id && row.revision == 0;
      assert Cursor.Enabled(s, Cursor.RowDropped(row));
    }
    hide GoodRun, Updates, ReconcileAll, Reconcile.After;
  }

  lemma DropsAreUnpushed(run: Run, history: History, id: EntryId)
    requires GoodRun(run, history) && id in run.table && ReconcileAll(run.table, Updates(run)).Some?
    requires id !in Reconcile.After(run)
    ensures ListedRevision(run.table, id) == 0
  {
    hide GoodRun, Updates, ReconcileAll, Reconcile.After, FileUpdate, VanishedUpdate, CleanupUpdate, RowAfter;
    EachEntryHasOneUpdate(run, history);
    if u :| u in Updates(run) && u.entryId == id {
      UpdateTakesEffect(run, history, u);
      assert u.deleteEntry;
      DropIsUnpushed(run, u);
    } else {
      UntouchedStays(run, history, id);
    }
  }

  lemma DropIsUnpushed(run: Run, u: Update)
    requires (FromCleanup(run, u) || FromFile(run, u) || FromVanished(run, u)) && u.deleteEntry
    ensures ListedRevision(run.table, u.entryId) == 0
  {
    hide FateAt, RenamedIds, WellBound, Lost;
  }
}

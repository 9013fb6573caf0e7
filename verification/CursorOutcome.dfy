/** What each step of the cursor protocol does, and what it leaves alone. */
module CursorOutcome {
  import opened Common
  import opened CursorProtocol

  // ---------------------------------------------------------------- pulls

  /** A pull asks for what came after the stored cursor, and begins with nothing in hand; other pulls, the push and the
      store do not notice. */
  lemma PullBegins(s: State, pull: nat, windowSize: nat)
    requires Enabled(s, PullStart(pull))
    ensures var t := Next(s, PullStart(pull), windowSize);
      && t == s.(pulls := t.pulls) && t.pulls.Keys == s.pulls.Keys + {pull}
      && (forall other | other in s.pulls :: t.pulls[other] == s.pulls[other])
      && var p := t.pulls[pull];
         && p.since == p.cursor == s.cursor && p.after == 0 && p.hasMore && p.target.None?
         && p.page.None? && p.received == {} && p.window == [] && p.job.Collecting?
  {
  }

  /** A page joins the window as a whole, and the planner gets the window once it is full or the listing is over. */
  lemma PageJoinsWindow(s: State, pull: nat, windowSize: nat)
    requires Invariant(s) && Enabled(s, PageConsumed(pull))
    ensures var p, t := s.pulls[pull], Next(s, PageConsumed(pull), windowSize);
      var q, page := t.pulls[pull], p.page.value;
      && t == s.(pulls := s.pulls[pull := q])
      && q.window == p.window + page.items && q.hasMore == page.hasMore && q.target == Some(page.target) && q.page.None?
      && q.after == (if page.items == [] then p.after else page.items[|page.items| - 1].number)
      && q.since == p.since && q.cursor == p.cursor
      && (q.job.Collecting? <==> page.hasMore && |q.window| < windowSize)
      && (!q.job.Collecting? ==> q.job == Planning(set item | item in q.window, {}))
  {
    var p := s.pulls[pull];
    assert PullInvariant(s.log, s.taken, p);
    NothingIsDropped(s.log, p.page.value.items, p.received, p.after);
    hide Invariant, Gathered, ValidPage, Complete;
  }

  /** The planner refuses an item exactly when it is below the stored revision at that moment. */
  lemma RefusedExactly(s: State, pull: nat, item: Item, windowSize: nat)
    requires Enabled(s, ItemLooked(pull, item))
    ensures var p, t := s.pulls[pull], Next(s, ItemLooked(pull, item), windowSize);
      && t == s.(pulls := s.pulls[pull := t.pulls[pull]]) && t.pulls[pull] == p.(job := t.pulls[pull].job)
      && t.pulls[pull].job.Planning? && t.pulls[pull].job.unseen == p.job.unseen - {item}
      && forall other :: other in t.pulls[pull].job.kept <==>
           other in p.job.kept || (other == item && !(item.entry in s.stored && item.revision < s.stored[item.entry]))
  {
  }

  /** Whatever is neither refused nor deferred is applied. */
  lemma PlannedExactly(s: State, pull: nat, later: seq<Item>, windowSize: nat)
    requires Enabled(s, WindowPlanned(pull, later))
    ensures var p, t := s.pulls[pull], Next(s, WindowPlanned(pull, later), windowSize);
      && t == s.(pulls := s.pulls[pull := t.pulls[pull]]) && t.pulls[pull] == p.(job := t.pulls[pull].job)
      && t.pulls[pull].job.Applying? && t.pulls[pull].job.deferred == later
      && forall item :: item in t.pulls[pull].job.todo <==> item in p.job.kept && item !in later
  {
  }

  /** An applied item is stored at its revision and is done; the mutation of its entry is dropped, kept, or replaced by a
      new one based on the item. No other entry changes. */
  lemma AppliedExactly(s: State, pull: nat, item: Item, handling: Handling, windowSize: nat)
    requires Enabled(s, ItemApplied(pull, item, handling))
    ensures var t, e := Next(s, ItemApplied(pull, item, handling), windowSize), item.entry;
      && e in t.stored && t.stored[e] == item.revision
      && t.cursor == s.cursor && t.push == s.push && t.log == s.log && t.rows == s.rows
      && t.pulls == s.pulls[pull := s.pulls[pull].(job := s.pulls[pull].job.(todo := s.pulls[pull].job.todo - {item}))]
      && (forall other | other != e ::
            && (other in t.stored <==> other in s.stored) && (other in s.stored ==> t.stored[other] == s.stored[other])
            && (other in t.pending <==> other in s.pending) && (other in s.pending ==> t.pending[other] == s.pending[other]))
      && (handling.Keeps? ==> t.pending == s.pending && t.nextId == s.nextId)
      && (handling.Drops? ==> e !in t.pending && t.nextId == s.nextId)
      && (handling.Merges? ==>
            e in t.pending && t.pending[e] == Pending(s.nextId, item.revision) && t.nextId == s.nextId + 1)
  {
  }

  /** A window that is done leaves its deferred items to the next one; the pull ends its loop with the last page. */
  lemma WindowGoesOn(s: State, pull: nat, windowSize: nat)
    requires Enabled(s, WindowDone(pull))
    ensures var p, t := s.pulls[pull], Next(s, WindowDone(pull), windowSize);
      && t == s.(cursor := t.cursor, pulls := s.pulls[pull := t.pulls[pull]])
      && t.pulls[pull] == p.(cursor := t.pulls[pull].cursor, window := p.job.deferred, job := t.pulls[pull].job)
      && t.pulls[pull].job == (if p.hasMore then Collecting else Closing(None))
  {
  }

  /** A pull that ends leaves its target as the cursor if that is beyond the one it has just read, and is gone; one that
      fails is gone and leaves everything as it is. */
  lemma PullCloses(s: State, pull: nat, windowSize: nat)
    ensures Enabled(s, PullLooked(pull)) ==>
      var p := s.pulls[pull].(job := Closing(Some(s.cursor)));
      Next(s, PullLooked(pull), windowSize) == s.(pulls := s.pulls[pull := p])
    ensures Enabled(s, PullEnd(pull)) && s.pulls[pull].target.Some? ==>
      var read, target := s.pulls[pull].job.looked.value, s.pulls[pull].target.value;
      Next(s, PullEnd(pull), windowSize) ==
        s.(cursor := if target > read then target else s.cursor, pulls := s.pulls - {pull})
    ensures Enabled(s, PullFail(pull)) ==> Next(s, PullFail(pull), windowSize) == s.(pulls := s.pulls - {pull})
  {
  }

  // ---------------------------------------------------------------- pushes

  /** A push counts from the stored cursor and begins with nothing in hand; one that fails leaves the store as it is. */
  lemma PushBegins(s: State, windowSize: nat)
    ensures Enabled(s, PushStart) ==> Next(s, PushStart, windowSize) == s.(push := Some(Push(s.cursor, map[], [], {})))
    ensures Enabled(s, PushFail) ==> Next(s, PushFail, windowSize) == s.(push := None)
  {
  }

  /** A push lists a mutation as it waits. */
  lemma PushLists(s: State, entry: Entry, windowSize: nat)
    requires Enabled(s, PushList(entry))
    ensures var p := s.push.value.(listed := s.push.value.listed[entry := s.pending[entry]]);
      Next(s, PushList(entry), windowSize) == s.(push := Some(p))
  {
  }

  /** A dropped mutation is no longer in hand; a blocked one is written back besides. */
  lemma PushGivesUp(s: State, entry: Entry, windowSize: nat)
    requires Enabled(s, PushDrop(entry))
    ensures var p := s.push.value.(listed := s.push.value.listed - {entry});
      && Next(s, PushDrop(entry), windowSize) == s.(push := Some(p))
      && Next(s, PushBlock(entry), windowSize) ==
           s.(push := Some(p), pending := s.pending[entry := s.push.value.listed[entry]])
  {
  }

  /** The server takes a mutation that is based on the latest revision of its entry, as the commit of the next number and
      revision, under its id; it answers one it has taken already with the number and the revision it had then. */
  lemma ServerAnswers(s: State, entry: Entry, number: nat, windowSize: nat)
    ensures Enabled(s, PushCommit(entry)) ==>
      var t, m := Next(s, PushCommit(entry), windowSize), s.push.value.listed[entry];
      && m.base == Revision(s.log, entry)
      && t == s.(log := s.log + [Commit(entry, m.base + 1, Some(m.id))], push := t.push) && t.push.Some?
      && t.push.value == s.push.value.(batch := s.push.value.batch + [Accepted(|s.log| + 1, entry, m.base + 1, m.id)])
    ensures Enabled(s, PushReplay(entry, number)) ==>
      var t, m := Next(s, PushReplay(entry, number), windowSize), s.push.value.listed[entry];
      && t == s.(push := t.push) && t.push.Some?
      && t.push.value == s.push.value.(batch :=
           s.push.value.batch + [Accepted(number, entry, s.log[number - 1].revision, m.id)])
  {
  }

  /** A written batch is no longer in hand: the push counts its commit numbers and has its entries no longer listed. */
  lemma BatchIsCounted(s: State, windowSize: nat, entry: Entry)
    requires Enabled(s, BatchApplied)
    ensures var t, batch := Next(s, BatchApplied, windowSize), s.push.value.batch;
      && t == s.(stored := t.stored, taken := t.taken, pending := t.pending, push := t.push) && t.push.Some?
      && t.push.value.batch == [] && t.push.value.start == s.push.value.start
      && (forall k :: k in t.push.value.accepted <==>
            k in s.push.value.accepted || exists i :: 0 <= i < |batch| && batch[i].number == k)
      && (entry in t.push.value.listed <==> entry in s.push.value.listed && !InBatch(batch, entry))
  {
    hide ApplyBatch, AllAnswered, RaiseAll;
  }

  /** Each answered entry is stored at the revision of its answer; its mutation is gone if it is the one answered, and waits
      under its id on that revision if it is a newer one. Any other entry keeps its revision and its mutation. */
  lemma BatchStores(s: State, windowSize: nat, entry: Entry)
    requires Invariant(s) && Enabled(s, BatchApplied)
    ensures var t, batch := Next(s, BatchApplied, windowSize), s.push.value.batch;
      && (forall i | 0 <= i < |batch| && batch[i].entry == entry ::
            && Stored(t.stored, entry) == batch[i].revision
            && (entry in t.pending <==> entry in s.pending && s.pending[entry].id != batch[i].id)
            && (entry in t.pending ==> t.pending[entry] == Pending(s.pending[entry].id, batch[i].revision)))
      && (!InBatch(batch, entry) ==>
            && Stored(t.stored, entry) == Stored(s.stored, entry)
            && (entry in t.pending <==> entry in s.pending) && (entry in s.pending ==> t.pending[entry] == s.pending[entry]))
  {
    var batch := s.push.value.batch;
    hide PullInvariant, Reached, AllAccepted;
    ApplyBatchSets(s.stored, batch, entry);
    AllAnsweredSets(s.pending, batch, entry);
    NewerEditsAreRebased(s.pending, batch, entry);
    hide Invariant, ApplyBatch, AllAnswered, RaiseAll, InBatch, Written;
  }

  lemma {:induction false} NewerEditsAreRebased(pending: map<Entry, Pending>, batch: seq<Accepted>, entry: Entry)
    requires forall i, j | 0 <= i < j < |batch| :: batch[i].entry != batch[j].entry
    ensures var after := AllAnswered(pending, batch);
      forall i | 0 <= i < |batch| && batch[i].entry == entry && entry in after ::
        entry in pending && after[entry] == Pending(pending[entry].id, batch[i].revision)
  {
    if batch != [] {
      var init, last := batch[..|batch| - 1], batch[|batch| - 1];
      assert forall i | 0 <= i < |init| :: init[i] == batch[i];
      NewerEditsAreRebased(pending, init, entry);
      AllAnsweredSets(pending, init, entry);
      hide AllAnswered;
      LastAnswer(AllAnswered(pending, init), pending, batch, entry);
    }
  }

  lemma LastAnswer(before: map<Entry, Pending>, pending: map<Entry, Pending>, batch: seq<Accepted>, entry: Entry)
    requires batch != [] && before == AllAnswered(pending, batch[..|batch| - 1])
    ensures var last, after := batch[|batch| - 1], AllAnswered(pending, batch);
      && (entry != last.entry ==>
            (entry in after <==> entry in before) && (entry in after ==> after[entry] == before[entry]))
      && (entry == last.entry && entry in after ==>
            entry in before && after[entry] == Pending(before[entry].id, last.revision))
  {
  }

  // ---------------------------------------------------------------- local work

  predicate IsRowOf(s: State, entry: Entry, r: Row) {
    && r.entry == entry && r.revision == (if entry in s.stored then s.stored[entry] else 0)
    && (r.pending.Some? <==> entry in s.pending) && (entry in s.pending ==> r.pending.value == s.pending[entry])
  }

  /** Local work changes one entry: an edit waits under a new id on the revision it was made on, until it is forgotten; what
      has been read may be written back or dropped, whatever has happened meanwhile. */
  lemma LocalWork(s: State, entry: Entry, base: nat, row: Row, left: Left, windowSize: nat)
    ensures Enabled(s, LocalEdit(entry, base)) ==>
      Next(s, LocalEdit(entry, base), windowSize) ==
        s.(pending := s.pending[entry := Pending(s.nextId, base)], nextId := s.nextId + 1)
    ensures Next(s, LocalForget(entry), windowSize) == s.(pending := s.pending - {entry})
    ensures var t := Next(s, RowRead(entry), windowSize);
      && t == s.(rows := t.rows)
      && forall r :: r in t.rows <==> r in s.rows || IsRowOf(s, entry, r)
    ensures row in s.rows ==>
      var t := Next(s, RowWritten(row, left), windowSize);
      && t == s.(stored := s.stored[row.entry := row.revision], pending := t.pending)
      && (forall other | other != row.entry ::
            (other in t.pending <==> other in s.pending) && (other in s.pending ==> t.pending[other] == s.pending[other]))
      && (left.Cleared? ==> row.entry !in t.pending)
      && (left.Kept? ==> t.pending == s.pending)
      && (left.PutBack? ==>
            && (row.entry in t.pending <==> row.pending.Some?)
            && (row.pending.Some? ==> t.pending[row.entry] == row.pending.value))
    ensures Enabled(s, RowDropped(row)) ==>
      Next(s, RowDropped(row), windowSize) == s.(stored := s.stored - {row.entry}, pending := s.pending - {row.entry})
  {
  }
}

/** The store as the object its writers share, and the writes that span several rows. */
module SyncStoreClass {
  import opened Common
  import opened EntryRecords
  import opened EntryStore

  const ACCEPTED_PUSH_BATCH_MAX_RETRIES := 3

  // ---------------------------------------------------------------- accepted batches on values

  function PlanAll(entries: Entries, accepted: seq<AcceptedPush>): Result<seq<Option<Rebase>>> {
    if accepted == [] then Ok([])
    else
      var n := |accepted| - 1;
      match PlanAll(entries, accepted[..n])
      case Err(message) => Err(message)
      case Ok(plans) =>
        match PlanAcceptedPush(GetOrCreate(entries, accepted[n].mutation.entryId), accepted[n])
        case Err(message) => Err(message)
        case Ok(plan) => Ok(plans + [plan])
  }

  /** The new rows, all computed from the table as it is when the transaction starts; None asks for a retry. */
  function AcceptedRows(entries: Entries, accepted: seq<AcceptedPush>, plans: seq<Option<Rebase>>): Option<seq<EntryRecord>>
    requires |plans| == |accepted|
  {
    if accepted == [] then Some([])
    else
      var n := |accepted| - 1;
      match AcceptedRows(entries, accepted[..n], plans[..n])
      case None => None
      case Some(rows) =>
        match ApplyAcceptedPush(GetOrCreate(entries, accepted[n].mutation.entryId), accepted[n], plans[n])
        case None => None
        case Some(row) => Some(rows + [row])
  }

  function PutAll(entries: Entries, rows: seq<EntryRecord>): Option<Entries> {
    if rows == [] then Some(entries)
    else
      match PutAll(entries, rows[..|rows| - 1])
      case None => None
      case Some(before) => Put(before, rows[|rows| - 1])
  }

  function PerformAll(entries: Entries, writes: seq<Write>): Entries {
    if writes == [] then entries
    else
      var before := PerformAll(entries, writes[..|writes| - 1]);
      match Perform(before, writes[|writes| - 1])
      case None => before
      case Some(after) => after
  }

  ghost predicate LegalWrites(history: History, writes: seq<Write>) {
    writes != [] ==>
      && LegalWrites(history, writes[..|writes| - 1])
      && Legal(AfterAll(history, writes[..|writes| - 1]), writes[|writes| - 1])
  }

  ghost function AfterAll(history: History, writes: seq<Write>): History {
    if writes == [] then history
    else After(AfterAll(history, writes[..|writes| - 1]), writes[|writes| - 1])
  }

  ghost predicate Extends(history: History, history': History) {
    forall id | id in history :: id in history' && history'[id] == history[id]
  }

  /** In every store that any number of writers can reach, pending rows are bound to their context and
      base, and path keys are unique. */
  lemma {:induction false} WritesKeepInvariant(entries: Entries, history: History, writes: seq<Write>)
    requires Invariant(entries, history) && LegalWrites(history, writes)
    ensures Invariant(PerformAll(entries, writes), AfterAll(history, writes))
    ensures Extends(history, AfterAll(history, writes))
  {
    if writes != [] {
      var init, last := writes[..|writes| - 1], writes[|writes| - 1];
      WritesKeepInvariant(entries, history, init);
      WriteExtends(AfterAll(history, init), last);
      WriteKeepsInvariant(PerformAll(entries, init), AfterAll(history, init), last);
      if Perform(PerformAll(entries, init), last).None? {
        HistoryMayGrow(PerformAll(entries, init), AfterAll(history, init), AfterAll(history, writes));
      }
    }
  }

  lemma HistoryMayGrow(entries: Entries, history: History, history': History)
    requires Invariant(entries, history) && Extends(history, history')
    ensures Invariant(entries, history')
  {
  }

  lemma WriteExtends(history: History, w: Write)
    requires Legal(history, w)
    ensures Extends(history, After(history, w))
  {
    if w.Reconcile? { UpdatesExtend(history, w.updates); }
  }

  lemma UpdatesExtend(history: History, updates: seq<Update>)
    requires LegalUpdates(history, updates)
    ensures Extends(history, AfterUpdates(history, updates))
  {
  }

  // ---------------------------------------------------------------- rebasing

  ghost predicate GoodAccepted(a: AcceptedPush) {
    a.mutation.op.Delete? ==> a.blobId.None? && a.hash.None?
  }

  /** A plan made for a mutation id fits whatever row still carries that id. */
  ghost predicate GoodPlan(history: History, accepted: AcceptedPush, plan: Option<Rebase>) {
    plan.Some? ==>
      && plan.value.mutationId in history
      && var what := history[plan.value.mutationId];
         what.entryId == accepted.mutation.entryId
         && plan.value.metadata == Sealed(Context(what.entryId, accepted.revision + 1, what.op, what.blobId), what.content)
  }

  /** Planning never fails in a good store, and its plans stay good while other writers run. */
  lemma PlanIsGood(entries: Entries, history: History, accepted: AcceptedPush)
    requires Invariant(entries, history)
    ensures var plan := PlanAcceptedPush(GetOrCreate(entries, accepted.mutation.entryId), accepted);
      plan.Ok? && GoodPlan(history, accepted, plan.value)
  {
    var record := GetOrCreate(entries, accepted.mutation.entryId);
    assert GoodRecord(history, accepted.mutation.entryId, record);
  }

  lemma {:induction false} PlansAreGood(entries: Entries, history: History, accepted: seq<AcceptedPush>)
    requires Invariant(entries, history)
    ensures var plans := PlanAll(entries, accepted);
      && plans.Ok? && |plans.value| == |accepted|
      && forall i | 0 <= i < |accepted| :: GoodPlan(history, accepted[i], plans.value[i])
  {
    if accepted != [] {
      PlansAreGood(entries, history, accepted[..|accepted| - 1]);
      PlanIsGood(entries, history, accepted[|accepted| - 1]);
    }
  }

  /** What an accepted push does to the pending mutation of its entry. */
  ghost predicate Survives(before: EntryRecord, accepted: AcceptedPush, after: EntryRecord) {
    if before.pending.None? || before.pending.value.mutationId == accepted.mutation.mutationId then
      // Nothing newer was queued: the entry is clean and its base is the accepted state.
      && after.pending.None?
      && after == CopyRemoteToBase(after)
    else
      // A newer edit: same id, operation, blob, hash and content, now based on the accepted state.
      && after.pending.Some?
      && var m, m' := before.pending.value, after.pending.value;
         && m'.mutationId == m.mutationId && m'.op == m.op && m'.blobId == m.blobId && m'.hash == m.hash
         && m'.status == m.status && m'.createdAt == m.createdAt
         && Open(m'.metadata, MutationContext(m')) == Open(m.metadata, MutationContext(m))
         && Open(m'.metadata, MutationContext(m')).Some?
         && m'.baseRevision == accepted.revision && m'.baseBlobId == accepted.blobId && m'.baseHash == accepted.hash
         && after.base.revision == accepted.revision && after.base.blobId == accepted.blobId
         && after.base.hash == accepted.hash
  }

  /** The accepted state is the remote one, without content for a delete. The local state becomes it only when it is unknown or
      the very content pushed; an edit or move made meanwhile stays. */
  ghost predicate Arrives(before: EntryRecord, accepted: AcceptedPush, after: EntryRecord) {
    var m := accepted.mutation;
    && after.remote.Some?
    && (var r := after.remote.value;
        && r.entryId == before.entryId && r.revision == accepted.revision && r.path == Some(accepted.metadata.path)
        && r.updatedAt == accepted.acceptedAt && (r.deleted <==> m.op == Delete)
        && (if r.deleted then r.blobId == None && r.hash == None else r.blobId == accepted.blobId && r.hash == accepted.hash))
    && (var pushed := m.op == Upsert && (before.local.None?
          || (before.local.value.hash == m.hash && before.local.value.path == Some(accepted.metadata.path)));
        if pushed then
          && after.local.Some?
          && var l := after.local.value;
             && l.entryId == before.entryId && l.path == Some(accepted.metadata.path) && !l.deleted
             && l.blobId == accepted.blobId && l.hash == accepted.hash && l.updatedAt == accepted.acceptedAt
             && (before.local.Some? ==> l.mtime == before.local.value.mtime && l.size == before.local.value.size)
        else after.local == before.local)
  }

  lemma ApplyAcceptedIsGood(history: History, record: EntryRecord, accepted: AcceptedPush, plan: Option<Rebase>)
    requires GoodRecord(history, accepted.mutation.entryId, record)
    requires GoodAccepted(accepted) && GoodPlan(history, accepted, plan)
    ensures ApplyAcceptedPush(record, accepted, plan).Some? ==>
      var after := ApplyAcceptedPush(record, accepted, plan).value;
      && GoodRecord(history, accepted.mutation.entryId, after)
      && Survives(record, accepted, after)
      && Arrives(record, accepted, after)
  {
  }

  lemma {:induction false} AcceptedRowsAreGood(entries: Entries, history: History, accepted: seq<AcceptedPush>,
      plans: seq<Option<Rebase>>)
    requires Invariant(entries, history) && |plans| == |accepted|
    requires forall i | 0 <= i < |accepted| :: GoodAccepted(accepted[i]) && GoodPlan(history, accepted[i], plans[i])
    ensures AcceptedRows(entries, accepted, plans).Some? ==>
      var rows := AcceptedRows(entries, accepted, plans).value;
      && |rows| == |accepted|
      && forall i | 0 <= i < |accepted| ::
           && GoodRecord(history, accepted[i].mutation.entryId, rows[i])
           && Survives(GetOrCreate(entries, accepted[i].mutation.entryId), accepted[i], rows[i])
           && Arrives(GetOrCreate(entries, accepted[i].mutation.entryId), accepted[i], rows[i])
  {
    if accepted != [] {
      var n := |accepted| - 1;
      AcceptedRowsAreGood(entries, history, accepted[..n], plans[..n]);
      var record := GetOrCreate(entries, accepted[n].mutation.entryId);
      assert GoodRecord(history, accepted[n].mutation.entryId, record);
      ApplyAcceptedIsGood(history, record, accepted[n], plans[n]);
    }
  }

  lemma {:induction false} PutAllKeepsInvariant(entries: Entries, history: History, rows: seq<EntryRecord>)
    requires Invariant(entries, history)
    requires forall i | 0 <= i < |rows| :: GoodRecord(history, rows[i].entryId, rows[i])
    requires forall i, j | 0 <= i < j < |rows| :: rows[i].entryId != rows[j].entryId
    ensures PutAll(entries, rows).Some? ==>
      && Invariant(PutAll(entries, rows).value, history)
      && (forall i | 0 <= i < |rows| ::
            rows[i].entryId in PutAll(entries, rows).value && PutAll(entries, rows).value[rows[i].entryId] == rows[i])
      && (forall id | forall i | 0 <= i < |rows| :: rows[i].entryId != id ::
            GetOrCreate(PutAll(entries, rows).value, id) == GetOrCreate(entries, id))
  {
    if rows != [] {
      var init, last := rows[..|rows| - 1], rows[|rows| - 1];
      PutAllKeepsInvariant(entries, history, init);
      if PutAll(entries, init).Some? {
        PutKeepsInvariant(PutAll(entries, init).value, history, history, last);
        if PutAll(entries, rows).Some? {
          var done, before := PutAll(entries, rows).value, PutAll(entries, init).value;
          assert done == before[last.entryId := last];
          forall i | 0 <= i < |rows| ensures rows[i].entryId in done && done[rows[i].entryId] == rows[i] {
            if i < |init| { assert init[i] == rows[i]; }
          }
          forall id | forall i | 0 <= i < |rows| :: rows[i].entryId != id
            ensures GetOrCreate(done, id) == GetOrCreate(entries, id)
          {
            assert rows[|rows| - 1].entryId != id;
            assert forall i | 0 <= i < |init| :: init[i] == rows[i];
          }
        }
      }
    }
  }

  // ---------------------------------------------------------------- the store object

  datatype BatchOutcome = Applied | Raised(message: string)

  ghost predicate Distinct(accepted: seq<AcceptedPush>) {
    forall i, j | 0 <= i < j < |accepted| :: accepted[i].mutation.entryId != accepted[j].mutation.entryId
  }

  class SyncStore {
    var entries: Entries
    ghost var history: History

    ghost predicate Valid()
      reads this
    {
      Invariant(entries, history)
    }

    constructor ()
      ensures Valid() && entries == map[] && history == map[]
    {
      entries, history := map[], map[];
    }

    /** Insert or update one row; raises when another row holds one of its path keys. */
    method PutEntry(record: EntryRecord) returns (ok: bool)
      modifies this`entries
      ensures ok <==> !Collides(old(entries), record)
      ensures entries == if ok then old(entries)[record.entryId := record] else old(entries)
    {
      ok := !Collides(entries, record);
      if ok {
        entries := entries[record.entryId := record];
      }
    }

    /** Any single write; a raised one leaves the table as it was. */
    method Apply(w: Write) returns (ok: bool)
      requires Valid() && Legal(history, w)
      modifies this
      ensures Valid() && history == After(old(history), w)
      ensures ok == Perform(old(entries), w).Some?
      ensures entries == if ok then Perform(old(entries), w).value else old(entries)
    {
      WriteKeepsInvariant(entries, history, w);
      WriteExtends(history, w);
      HistoryMayGrow(entries, history, After(history, w));
      history := After(history, w);
      var after := Perform(entries, w);
      ok := after.Some?;
      if ok {
        entries := after.value;
      }
    }

    method ApplyRemoteState(row: RemoteRow) returns (ok: bool)
      requires Valid()
      modifies this
      ensures Valid() && history == old(history)
      ensures ok == Perform(old(entries), ApplyRemote(row)).Some?
      ensures entries == if ok then Perform(old(entries), ApplyRemote(row)).value else old(entries)
    {
      WriteKeepsInvariant(entries, history, ApplyRemote(row));
      var existing := GetOrCreate(entries, row.entryId);
      var updated := existing.(remote := Some(row));
      if existing.pending.None? {
        updated := CopyRemoteToBase(updated);
      }
      ok := PutEntry(updated);
    }

    method ClearRemoteState(entryId: EntryId) returns (ok: bool)
      requires Valid()
      modifies this
      ensures Valid() && history == old(history)
      ensures ok == Perform(old(entries), ClearRemote(entryId)).Some?
      ensures entries == if ok then Perform(old(entries), ClearRemote(entryId)).value else old(entries)
    {
      WriteKeepsInvariant(entries, history, ClearRemote(entryId));
      if entryId !in entries { return true; }
      var updated := entries[entryId].(remote := None);
      if updated.local.None? && updated.pending.None? {
        entries := entries - {entryId};
        return true;
      }
      ok := PutEntry(updated);
    }

    method MarkEntryDirty(mutation: Mutation) returns (ok: bool)
      requires Valid() && LegalMutation(history, mutation)
      modifies this
      ensures Valid() && history == Record(old(history), mutation)
      ensures ok == Perform(old(entries), MarkDirty(mutation)).Some?
      ensures entries == if ok then Perform(old(entries), MarkDirty(mutation)).value else old(entries)
    {
      WriteKeepsInvariant(entries, history, MarkDirty(mutation));
      RecordingKeepsInvariant(entries, history, mutation);
      var normalized := Normalize(mutation);
      history := Record(history, mutation);
      ok := PutEntry(ToDirty(GetOrCreate(entries, normalized.entryId), normalized));
    }

    /** Looks the row up by its pending mutation id and cleans it. */
    method ClearDirtyEntryByMutationId(mutationId: MutationId)
      requires Valid()
      modifies this
      ensures Valid() && history == old(history)
      ensures entries == Cleared(old(entries), mutationId)
    {
      WriteKeepsInvariant(entries, history, ClearDirty(mutationId));
      hide Invariant, Cleared, ClearPending;
      if entryId :| entryId in entries && HasMutation(entries[entryId], mutationId) {
        ClearedOne(entries, history, mutationId, entryId);
        entries := entries[entryId := ClearPending(entries[entryId])];
      } else {
        ClearedNone(entries, mutationId);
      }
    }

    /** One transaction: either every update is applied or the table stays as it was. */
    method ApplyReconcileEntryUpdates(updates: seq<Update>) returns (ok: bool)
      requires Valid() && LegalUpdates(history, updates)
      modifies this
      ensures Valid() && history == AfterUpdates(old(history), updates)
      ensures ok == ReconcileAll(old(entries), updates).Some?
      ensures entries == if ok then ReconcileAll(old(entries), updates).value else old(entries)
    {
      ReconcileKeepsInvariant(entries, history, updates);
      UpdatesExtend(history, updates);
      HistoryMayGrow(entries, history, AfterUpdates(history, updates));
      history := AfterUpdates(history, updates);
      var begin := entries;
      for i := 0 to |updates|
        invariant history == AfterUpdates(old(history), updates) && begin == old(entries)
        invariant ReconcileAll(begin, updates[..i]) == Some(entries)
      {
        var update := updates[i];
        assert updates[..i + 1][..i] == updates[..i];
        if update.deleteEntry {
          entries := entries - {update.entryId};
        } else {
          ok := PutEntry(Updated(GetOrCreate(entries, update.entryId), update));
          if !ok {
            ReconcileFailsOnce(begin, updates, i + 1);
            entries := begin;
            return;
          }
        }
      }
      assert updates[..|updates|] == updates;
      ok := true;
    }

    /** Other writers running while this one waits. */
    method RunOthers(writes: seq<Write>)
      requires Valid() && LegalWrites(history, writes)
      modifies this
      ensures Valid() && Extends(old(history), history) && history == AfterAll(old(history), writes)
      ensures entries == PerformAll(old(entries), writes)
    {
      WritesKeepInvariant(entries, history, writes);
      entries := PerformAll(entries, writes);
      history := AfterAll(history, writes);
    }

    /** The transaction of one attempt: check the plans, then write every row or none. */
    method WriteAcceptedRows(accepted: seq<AcceptedPush>, plans: seq<Option<Rebase>>) returns (outcome: Attempt)
      requires Valid() && Distinct(accepted) && |plans| == |accepted|
      requires forall i | 0 <= i < |accepted| :: GoodAccepted(accepted[i]) && GoodPlan(history, accepted[i], plans[i])
      modifies this
      ensures Valid() && history == old(history)
      ensures outcome != Done ==> entries == old(entries)
      ensures outcome == Done ==> BatchWritten(old(entries), accepted, entries)
      ensures outcome == Retry <==> AcceptedRows(old(entries), accepted, plans).None?
      ensures outcome == Collision ==> TakesAPath(old(entries), accepted, plans)
    {
      var rows := AcceptedRows(entries, accepted, plans);
      if rows.None? { return Retry; }
      AcceptedRowsAreGood(entries, history, accepted, plans);
      PutAllKeepsInvariant(entries, history, rows.value);
      var written := PutAll(entries, rows.value);
      if written.None? { return Collision; }
      RowsAreWritten(entries, history, accepted, rows.value);
      entries := written.value;
      return Done;
    }

    /** One attempt: seal for the table as it is, let other writers run meanwhile, then check and write. */
    method TryBatch(accepted: seq<AcceptedPush>, others: seq<Write>)
      returns (tried: Attempt, ghost start: Entries, ghost plans: seq<Option<Rebase>>)
      requires Valid() && Distinct(accepted) && LegalWrites(history, others)
      requires forall i | 0 <= i < |accepted| :: GoodAccepted(accepted[i])
      modifies this
      ensures Valid() && Extends(old(history), history) && history == AfterAll(old(history), others)
      ensures start == PerformAll(old(entries), others)
      ensures if tried == Done then BatchWritten(start, accepted, entries) else entries == start
      ensures tried == Collision ==> TakesAPath(start, accepted, plans)
      ensures tried == Retry ==> IsOutdated(start, accepted, plans) && others != []
    {
      hide GoodPlan, BatchWritten, LegalWrites, GoodAccepted, ApplyAcceptedPush, PlanAcceptedPush;
      PlansAreGood(entries, history, accepted);
      FreshPlansFit(entries, history, accepted);
      hide Invariant;
      var made := PlanAll(entries, accepted).value;
      ghost var seen := history;
      RunOthers(others);
      start, plans := entries, made;
      PlansStayGood(seen, history, accepted, made);
      hide Extends;
      tried := WriteAcceptedRows(accepted, made);
    }

    /** Writes a batch of accepted pushes. Metadata is sealed again outside the transaction, so other
        writers run in between; the transaction checks every plan and the whole batch is planned again,
        at most three times. `start` is the table the last transaction found, `plans` what had been sealed for it. It
        raises, and writes nothing, only when a path key is taken or other writers came in between every time. */
    method ApplyAcceptedPushBatch(accepted: seq<AcceptedPush>, others: seq<seq<Write>>)
      returns (outcome: BatchOutcome, ghost start: Entries, ghost plans: seq<Option<Rebase>>)
      requires Valid() && Distinct(accepted) && |others| == ACCEPTED_PUSH_BATCH_MAX_RETRIES
      requires forall i | 0 <= i < |accepted| :: GoodAccepted(accepted[i])
      requires LegalTurns(history, others)
      modifies this
      ensures Valid() && Extends(old(history), history)
      ensures accepted == [] ==> outcome.Applied? && entries == old(entries)
      ensures accepted != [] ==> exists n :: 0 < n <= |others| && start == AfterTurns(old(entries), others[..n])
      ensures outcome.Raised? ==> entries == start && (TakesAPath(start, accepted, plans) || IsOutdated(start, accepted, plans))
      ensures outcome.Raised? && !TakesAPath(start, accepted, plans) ==> forall k | 0 <= k < |others| :: others[k] != []
      ensures outcome.Applied? && accepted != [] ==> BatchWritten(start, accepted, entries)
    {
      hide Invariant, GoodPlan, BatchWritten, LegalWrites, LegalTurns, GoodAccepted, TakesAPath, IsOutdated, PlanAll, PutAll;
      start, plans := entries, [];
      if |accepted| == 0 { return Applied, entries, plans; }
      for attempt := 0 to ACCEPTED_PUSH_BATCH_MAX_RETRIES
        invariant Valid() && Extends(old(history), history)
        invariant history == HistoryAfterTurns(old(history), others[..attempt])
        invariant entries == AfterTurns(old(entries), others[..attempt])
        invariant attempt > 0 ==> start == entries && IsOutdated(start, accepted, plans)
        invariant forall k | 0 <= k < attempt :: others[k] != []
      {
        LegalTurn(old(history), others, attempt);
        assert others[..attempt + 1][..attempt] == others[..attempt];
        var tried;
        tried, start, plans := TryBatch(accepted, others[attempt]);
        if tried == Done { return Applied, start, plans; }
        if tried == Collision { return Raised("path key taken"), start, plans; }
      }
      outcome := Raised("retry limit exceeded");
    }
  }

  datatype Attempt = Done | Retry | Collision

  /** Writing the rows of the batch fails on a path key some other row holds. */
  ghost predicate TakesAPath(entries: Entries, accepted: seq<AcceptedPush>, plans: seq<Option<Rebase>>) {
    && |plans| == |accepted|
    && AcceptedRows(entries, accepted, plans).Some?
    && PutAll(entries, AcceptedRows(entries, accepted, plans).value).None?
  }

  /** Both records are visible at one path, on the server or locally. */
  predicate SamePath(a: EntryRecord, b: EntryRecord) {
    || (RemoteKey(a).Some? && RemoteKey(b) == RemoteKey(a))
    || (LocalKey(a).Some? && LocalKey(b) == LocalKey(a))
  }

  /** Row `i` wants a path that an earlier row of the batch has, or an entry that no earlier row replaces. */
  ghost predicate PathIsTaken(entries: Entries, rows: seq<EntryRecord>, i: nat)
    requires i < |rows|
  {
    || (exists j :: 0 <= j < i && SamePath(rows[i], rows[j]))
    || (exists id :: id in entries && id != rows[i].entryId && (forall j | 0 <= j < i :: rows[j].entryId != id)
          && SamePath(rows[i], entries[id]))
  }

  ghost predicate DistinctRows(rows: seq<EntryRecord>) {
    forall i, j | 0 <= i < j < |rows| :: rows[i].entryId != rows[j].entryId
  }

  lemma {:induction false} PutAllHolds(entries: Entries, rows: seq<EntryRecord>)
    requires DistinctRows(rows) && PutAll(entries, rows).Some?
    ensures var done := PutAll(entries, rows).value;
      && (forall i | 0 <= i < |rows| :: rows[i].entryId in done && done[rows[i].entryId] == rows[i])
      && (forall id | forall i | 0 <= i < |rows| :: rows[i].entryId != id ::
            (id in done <==> id in entries) && (id in entries ==> done[id] == entries[id]))
  {
    if rows != [] {
      var init, last := rows[..|rows| - 1], rows[|rows| - 1];
      PutAllHolds(entries, init);
      var before, done := PutAll(entries, init).value, PutAll(entries, rows).value;
      assert done == before[last.entryId := last];
      forall i | 0 <= i < |rows| ensures rows[i].entryId in done && done[rows[i].entryId] == rows[i] {
        if i < |init| { assert init[i] == rows[i]; }
      }
      forall id | forall i | 0 <= i < |rows| :: rows[i].entryId != id
        ensures (id in done <==> id in entries) && (id in entries ==> done[id] == entries[id])
      {
        assert rows[|rows| - 1].entryId != id;
        assert forall i | 0 <= i < |init| :: init[i] == rows[i];
      }
    }
  }

  lemma CollidesExactly(entries: Entries, init: seq<EntryRecord>, last: EntryRecord)
    requires DistinctRows(init + [last]) && PutAll(entries, init).Some?
    ensures Collides(PutAll(entries, init).value, last) <==> PathIsTaken(entries, init + [last], |init|)
  {
    var rows, before := init + [last], PutAll(entries, init).value;
    assert forall j | 0 <= j < |init| :: rows[j] == init[j] && rows[j].entryId != rows[|init|].entryId;
    PutAllHolds(entries, init);
    hide PutAll, RemoteKey, LocalKey;
    if Collides(before, last) {
      var id :| id in before && id != last.entryId && SamePath(last, before[id]);
      if j :| 0 <= j < |init| && init[j].entryId == id { assert SamePath(rows[|init|], rows[j]); }
    }
    if j :| 0 <= j < |init| && SamePath(rows[|init|], rows[j]) { assert before[init[j].entryId] == init[j]; }
    forall id | id in entries && id != last.entryId && (forall j | 0 <= j < |init| :: rows[j].entryId != id)
      ensures id in before && before[id] == entries[id]
    {
      assert forall j | 0 <= j < |init| :: init[j].entryId != id;
    }
  }

  /** The rows of a batch are written if and only if none of them wants a path that is taken when its turn comes. */
  lemma {:induction false} WrittenExactly(entries: Entries, rows: seq<EntryRecord>)
    requires DistinctRows(rows)
    ensures PutAll(entries, rows).Some? <==> forall i | 0 <= i < |rows| :: !PathIsTaken(entries, rows, i)
  {
    if rows != [] {
      var init, last := rows[..|rows| - 1], rows[|rows| - 1];
      assert init + [last] == rows;
      WrittenExactly(entries, init);
      forall i | 0 <= i < |init| ensures PathIsTaken(entries, init, i) <==> PathIsTaken(entries, rows, i) {
        assert forall j | 0 <= j <= i :: init[j] == rows[j];
      }
      if PutAll(entries, init).Some? { CollidesExactly(entries, init, last); }
      hide Collides, PathIsTaken;
    }
  }

  /** Some entry of the batch has a newer edit pending than the one its plan was made for. */
  ghost predicate IsOutdated(entries: Entries, accepted: seq<AcceptedPush>, plans: seq<Option<Rebase>>) {
    |plans| == |accepted| && AcceptedRows(entries, accepted, plans).None?
  }

  lemma {:induction false} OutdatedEntry(entries: Entries, accepted: seq<AcceptedPush>, plans: seq<Option<Rebase>>)
    requires |plans| == |accepted|
    ensures IsOutdated(entries, accepted, plans) <==>
      exists i :: 0 <= i < |accepted| && Overtaken(GetOrCreate(entries, accepted[i].mutation.entryId), accepted[i], plans[i])
  {
    if accepted != [] {
      var n := |accepted| - 1;
      OutdatedEntry(entries, accepted[..n], plans[..n]);
      forall i | 0 <= i < n ensures accepted[..n][i] == accepted[i] && plans[..n][i] == plans[i] {}
      if IsOutdated(entries, accepted[..n], plans[..n]) {
        var i :| 0 <= i < n && Overtaken(GetOrCreate(entries, accepted[..n][i].mutation.entryId), accepted[..n][i], plans[..n][i]);
        assert Overtaken(GetOrCreate(entries, accepted[i].mutation.entryId), accepted[i], plans[i]);
      }
    }
  }

  /** The entry's pending mutation is neither the pushed one nor the one the plan was made for. */
  predicate Overtaken(record: EntryRecord, accepted: AcceptedPush, plan: Option<Rebase>) {
    && record.pending.Some?
    && record.pending.value.mutationId != accepted.mutation.mutationId
    && (plan.None? || plan.value.mutationId != record.pending.value.mutationId)
  }

  /** Plans fit the table they were made for: only a writer in between makes the batch start again. */
  lemma {:induction false} FreshPlansFit(entries: Entries, history: History, accepted: seq<AcceptedPush>)
    requires Invariant(entries, history)
    ensures var plans := PlanAll(entries, accepted);
      plans.Ok? && |plans.value| == |accepted| && AcceptedRows(entries, accepted, plans.value).Some?
  {
    if accepted != [] {
      var n := |accepted| - 1;
      FreshPlansFit(entries, history, accepted[..n]);
      PlanIsGood(entries, history, accepted[n]);
      assert PlanAll(entries, accepted).value[..n] == PlanAll(entries, accepted[..n]).value;
    }
  }

  lemma RowsAreWritten(entries: Entries, history: History, accepted: seq<AcceptedPush>, rows: seq<EntryRecord>)
    requires Invariant(entries, history) && Distinct(accepted) && |rows| == |accepted|
    requires forall i | 0 <= i < |accepted| ::
      && GoodRecord(history, accepted[i].mutation.entryId, rows[i])
      && Survives(GetOrCreate(entries, accepted[i].mutation.entryId), accepted[i], rows[i])
      && Arrives(GetOrCreate(entries, accepted[i].mutation.entryId), accepted[i], rows[i])
    requires PutAll(entries, rows).Some?
    ensures BatchWritten(entries, accepted, PutAll(entries, rows).value)
  {
    PutAllKeepsInvariant(entries, history, rows);
    forall i | 0 <= i < |accepted| ensures rows[i].entryId == accepted[i].mutation.entryId {
    }
  }

  lemma ClearedOne(entries: Entries, history: History, mutationId: MutationId, entryId: EntryId)
    requires Invariant(entries, history) && entryId in entries && HasMutation(entries[entryId], mutationId)
    ensures Cleared(entries, mutationId) == entries[entryId := ClearPending(entries[entryId])]
  {
    OnlyOneRow(entries, history, mutationId, entryId);
  }

  lemma ClearedNone(entries: Entries, mutationId: MutationId)
    requires forall id | id in entries :: !HasMutation(entries[id], mutationId)
    ensures Cleared(entries, mutationId) == entries
  {
  }

  lemma OnlyOneRow(entries: Entries, history: History, mutationId: MutationId, entryId: EntryId)
    requires Invariant(entries, history) && entryId in entries && HasMutation(entries[entryId], mutationId)
    ensures forall id | id in entries && HasMutation(entries[id], mutationId) :: id == entryId
  {
    assert GoodRecord(history, entryId, entries[entryId]);
    forall id | id in entries && HasMutation(entries[id], mutationId) ensures id == entryId {
      assert GoodRecord(history, id, entries[id]);
    }
  }

  lemma ReconcileFailsOnce(entries: Entries, updates: seq<Update>, i: nat)
    requires i <= |updates| && ReconcileAll(entries, updates[..i]).None?
    ensures ReconcileAll(entries, updates).None?
    decreases |updates| - i
  {
    if i < |updates| {
      assert updates[..i + 1][..i] == updates[..i];
      ReconcileFailsOnce(entries, updates, i + 1);
    } else {
      assert updates[..i] == updates;
    }
  }

  lemma PlansStayGood(history: History, history': History, accepted: seq<AcceptedPush>, plans: seq<Option<Rebase>>)
    requires Extends(history, history') && |plans| == |accepted|
    requires forall i | 0 <= i < |accepted| :: GoodPlan(history, accepted[i], plans[i])
    ensures forall i | 0 <= i < |accepted| :: GoodPlan(history', accepted[i], plans[i])
  {
  }

  function AfterTurns(entries: Entries, turns: seq<seq<Write>>): Entries {
    if turns == [] then entries else PerformAll(AfterTurns(entries, turns[..|turns| - 1]), turns[|turns| - 1])
  }

  ghost function HistoryAfterTurns(history: History, turns: seq<seq<Write>>): History {
    if turns == [] then history else AfterAll(HistoryAfterTurns(history, turns[..|turns| - 1]), turns[|turns| - 1])
  }

  ghost predicate LegalTurns(history: History, turns: seq<seq<Write>>) {
    forall n | 0 <= n < |turns| :: LegalWrites(HistoryAfterTurns(history, turns[..n]), turns[n])
  }

  lemma LegalTurn(history: History, turns: seq<seq<Write>>, n: nat)
    requires LegalTurns(history, turns) && n < |turns|
    ensures LegalWrites(HistoryAfterTurns(history, turns[..n]), turns[n])
  {
  }

  /** The whole batch in one step: every accepted entry has its accepted remote state and keeps a newer
      edit, and no other entry changes. */
  ghost predicate BatchWritten(before: Entries, accepted: seq<AcceptedPush>, after: Entries) {
    && (forall i | 0 <= i < |accepted| ::
          var id := accepted[i].mutation.entryId;
          && id in after
          && Arrives(GetOrCreate(before, id), accepted[i], after[id])
          && Survives(GetOrCreate(before, id), accepted[i], after[id]))
    && (forall id | forall i | 0 <= i < |accepted| :: accepted[i].mutation.entryId != id ::
          GetOrCreate(after, id) == GetOrCreate(before, id))
  }
}

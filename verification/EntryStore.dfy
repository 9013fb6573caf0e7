/**
 The entry store: records by entry id, with a unique key on the visible remote path and one on the
 visible local path. Each write is a function on the table; the class performs it in place.
 */
module EntryStore {
  import opened Common
  import opened EntryRecords

  type Entries = map<EntryId, EntryRecord>

  function GetOrCreate(entries: Entries, entryId: EntryId): EntryRecord {
    if entryId in entries then entries[entryId] else EmptyRecord(entryId)
  }

  /** Some other row already holds one of the record's path keys. */
  predicate Collides(entries: Entries, record: EntryRecord) {
    exists id | id in entries ::
      && id != record.entryId
      && ((RemoteKey(record).Some? && RemoteKey(entries[id]) == RemoteKey(record))
          || (LocalKey(record).Some? && LocalKey(entries[id]) == LocalKey(record)))
  }

  /** Writes one row; a taken path key raises instead of replacing the other row. */
  function Put(entries: Entries, record: EntryRecord): Option<Entries> {
    if Collides(entries, record) then None else Some(entries[record.entryId := record])
  }

  // ---------------------------------------------------------------- lookups

  function GetEntryById(entries: Entries, entryId: EntryId): Option<EntryRow> {
    if entryId in entries then ToCombinedRow(entries[entryId]) else None
  }

  function GetDirtyMutation(entries: Entries, entryId: EntryId): Option<Mutation> {
    if entryId in entries then entries[entryId].pending else None
  }

  function GetRemoteState(entries: Entries, entryId: EntryId): Option<RemoteRow> {
    if entryId in entries then entries[entryId].remote else None
  }

  function GetLocalState(entries: Entries, entryId: EntryId): Option<LocalRow> {
    if entryId in entries then entries[entryId].local else None
  }

  // ---------------------------------------------------------------- writes

  datatype Update = Update(entryId: EntryId, local: Option<LocalRow>, dirty: Option<Mutation>, clearDirty: bool, deleteEntry: bool)

  datatype Write =
    | ApplyRemote(remote: RemoteRow)
    | ClearRemote(entryId: EntryId)
    | ApplyLocal(local: LocalRow)
    | ClearLocal(entryId: EntryId)
    | UpsertEntry(row: EntryRow)
    | DeleteEntry(entryId: EntryId)
    | MarkDirty(mutation: Mutation)
    | ClearDirty(mutationId: MutationId)
    | Unblock(reason: BlockedReason)
    | Reconcile(updates: seq<Update>)

  function RemoteApplied(record: EntryRecord, row: RemoteRow): EntryRecord {
    var updated := record.(remote := Some(row));
    if record.pending.None? then CopyRemoteToBase(updated) else updated
  }

  function RowOf(row: EntryRow): EntryRecord {
    EntryRecord(row.entryId,
      Some(RemoteRow(row.entryId, row.path, row.revision, row.blobId, row.hash, row.deleted, row.updatedAt)),
      Base(row.path, row.revision, row.blobId, row.hash, row.deleted),
      Some(LocalRow(row.entryId, row.path, row.blobId, row.hash, row.deleted, row.updatedAt, row.mtime, row.size)),
      None)
  }

  predicate HasMutation(record: EntryRecord, mutationId: MutationId) {
    record.pending.Some? && record.pending.value.mutationId == mutationId
  }

  /** The row whose pending mutation has this id, cleaned; mutation ids are unique in the table. */
  function Cleared(entries: Entries, mutationId: MutationId): Entries {
    map id | id in entries :: if HasMutation(entries[id], mutationId) then ClearPending(entries[id]) else entries[id]
  }

  predicate BlockedFor(record: EntryRecord, reason: BlockedReason) {
    record.pending.Some? && record.pending.value.status.Blocked? && record.pending.value.status.reason == Some(reason)
  }

  function Unblocked(entries: Entries, reason: BlockedReason): Entries {
    map id | id in entries ::
      if BlockedFor(entries[id], reason)
      then entries[id].(pending := Some(entries[id].pending.value.(status := Waiting)))
      else entries[id]
  }

  function Updated(record: EntryRecord, update: Update): EntryRecord {
    var row :=
      if update.dirty.Some? then ToDirty(record, Normalize(update.dirty.value))
      else if update.clearDirty then ClearPending(record)
      else record;
    if update.local.Some? then row.(local := update.local) else row
  }

  function ReconcileOne(entries: Entries, update: Update): Option<Entries> {
    if update.deleteEntry then Some(entries - {update.entryId})
    else Put(entries, Updated(GetOrCreate(entries, update.entryId), update))
  }

  function ReconcileAll(entries: Entries, updates: seq<Update>): Option<Entries> {
    if updates == [] then Some(entries)
    else
      match ReconcileAll(entries, updates[..|updates| - 1])
      case None => None
      case Some(before) => ReconcileOne(before, updates[|updates| - 1])
  }

  /** The table after a write, or None when the write raises; a raised write leaves the table as it was. */
  function Perform(entries: Entries, w: Write): Option<Entries> {
    match w
    case ApplyRemote(row) => Put(entries, RemoteApplied(GetOrCreate(entries, row.entryId), row))
    case ClearRemote(id) =>
      if id !in entries then Some(entries)
      else if entries[id].local.None? && entries[id].pending.None? then Some(entries - {id})
      else Put(entries, entries[id].(remote := None))
    case ApplyLocal(row) => Put(entries, GetOrCreate(entries, row.entryId).(local := Some(row)))
    case ClearLocal(id) =>
      if id !in entries then Some(entries)
      else if entries[id].remote.None? && entries[id].pending.None? then Some(entries - {id})
      else Put(entries, entries[id].(local := None))
    case UpsertEntry(row) => Put(entries, RowOf(row))
    case DeleteEntry(id) => Some(entries - {id})
    case MarkDirty(m) => Put(entries, ToDirty(GetOrCreate(entries, m.entryId), Normalize(m)))
    case ClearDirty(mutationId) =>
      Some(Cleared(entries, mutationId))
    case Unblock(reason) => Some(Unblocked(entries, reason))
    case Reconcile(updates) => ReconcileAll(entries, updates)
  }

  // ---------------------------------------------------------------- the invariant

  /** What a mutation id stands for, once and for all. */
  datatype Identity = Identity(entryId: EntryId, op: Op, blobId: Option<string>, content: Metadata)

  /** All mutation ids ever queued. Ids are random and never reused for another entry,
      operation, blob or content. */
  type History = map<MutationId, Identity>

  function IdentityOf(m: Mutation): Identity {
    Identity(m.entryId, m.op, m.blobId, m.metadata.content)
  }

  ghost predicate Recorded(history: History, m: Mutation) {
    m.mutationId in history && history[m.mutationId] == IdentityOf(m)
  }

  ghost predicate GoodPending(record: EntryRecord, m: Mutation) {
    && m.entryId == record.entryId
    && WellBound(m)
    && record.base.revision == m.baseRevision && record.base.blobId == m.baseBlobId && record.base.hash == m.baseHash
    && (m.status.Blocked? ==> m.status.reason.Some?)
  }

  ghost predicate GoodRecord(history: History, id: EntryId, record: EntryRecord) {
    && record.entryId == id
    && (record.remote.Some? ==> record.remote.value.entryId == id)
    && (record.local.Some? ==> record.local.value.entryId == id)
    && (record.pending.Some? ==> GoodPending(record, record.pending.value) && Recorded(history, record.pending.value))
  }

  ghost predicate UniquePaths(entries: Entries) {
    && (forall a, b | a in entries && b in entries && a != b ::
          && (RemoteKey(entries[a]).Some? ==> RemoteKey(entries[a]) != RemoteKey(entries[b]))
          && (LocalKey(entries[a]).Some? ==> LocalKey(entries[a]) != LocalKey(entries[b])))
  }

  ghost predicate Invariant(entries: Entries, history: History) {
    && (forall id | id in entries :: GoodRecord(history, id, entries[id]))
    && UniquePaths(entries)
  }

  /** Writers hand over mutations they have built, under fresh ids or under the id the row already had. */
  ghost predicate Legal(history: History, w: Write) {
    match w
    case MarkDirty(m) => LegalMutation(history, m)
    case Reconcile(updates) => LegalUpdates(history, updates)
    case _ => true
  }

  ghost predicate LegalMutation(history: History, m: Mutation) {
    WellBound(m) && (m.mutationId in history ==> history[m.mutationId] == IdentityOf(m))
  }

  ghost predicate LegalUpdates(history: History, updates: seq<Update>) {
    updates != [] ==>
      var init, last := updates[..|updates| - 1], updates[|updates| - 1];
      && LegalUpdates(history, init)
      && (last.local.Some? ==> last.local.value.entryId == last.entryId)
      && (last.dirty.Some? ==>
            last.dirty.value.entryId == last.entryId && LegalMutation(AfterUpdates(history, init), last.dirty.value))
  }

  ghost function Record(history: History, m: Mutation): History { history[m.mutationId := IdentityOf(m)] }

  ghost function AfterUpdates(history: History, updates: seq<Update>): History {
    if updates == [] then history
    else
      var before := AfterUpdates(history, updates[..|updates| - 1]);
      var last := updates[|updates| - 1];
      if last.dirty.Some? then Record(before, last.dirty.value) else before
  }

  ghost function After(history: History, w: Write): History {
    match w
    case MarkDirty(m) => Record(history, m)
    case Reconcile(updates) => AfterUpdates(history, updates)
    case _ => history
  }

  // ---------------------------------------------------------------- every write keeps it

  lemma PutKeepsInvariant(entries: Entries, history: History, history': History, record: EntryRecord)
    requires Invariant(entries, history) && GoodRecord(history', record.entryId, record)
    requires forall id | id in history :: id in history' && history'[id] == history[id]
    ensures Put(entries, record).Some? ==> Invariant(Put(entries, record).value, history')
  {
    if !Collides(entries, record) {
      var entries' := entries[record.entryId := record];
      forall a, b | a in entries' && b in entries' && a != b
        ensures RemoteKey(entries'[a]).Some? ==> RemoteKey(entries'[a]) != RemoteKey(entries'[b])
        ensures LocalKey(entries'[a]).Some? ==> LocalKey(entries'[a]) != LocalKey(entries'[b])
      {
      }
    }
  }

  lemma RemoveKeepsInvariant(entries: Entries, history: History, id: EntryId)
    requires Invariant(entries, history)
    ensures Invariant(entries - {id}, history)
  {
  }

  lemma HistoryGrows(history: History, m: Mutation)
    requires LegalMutation(history, m)
    ensures forall id | id in history :: id in Record(history, m) && Record(history, m)[id] == history[id]
    ensures Recorded(Record(history, m), m)
  {
  }

  lemma ToDirtyIsGood(entries: Entries, history: History, m: Mutation)
    requires Invariant(entries, history) && LegalMutation(history, m)
    ensures GoodRecord(Record(history, m), m.entryId, ToDirty(GetOrCreate(entries, m.entryId), Normalize(m)))
  {
  }

  lemma ReconcileKeepsInvariant(entries: Entries, history: History, updates: seq<Update>)
    requires Invariant(entries, history) && LegalUpdates(history, updates)
    ensures ReconcileAll(entries, updates).Some? ==>
      Invariant(ReconcileAll(entries, updates).value, AfterUpdates(history, updates))
  {
    if updates != [] {
      var init, update := updates[..|updates| - 1], updates[|updates| - 1];
      ReconcileKeepsInvariant(entries, history, init);
      if ReconcileAll(entries, init).Some? {
        var before, seen := ReconcileAll(entries, init).value, AfterUpdates(history, init);
        if update.deleteEntry {
          RemoveKeepsInvariant(before, seen, update.entryId);
          if update.dirty.Some? { RecordingKeepsInvariant(before - {update.entryId}, seen, update.dirty.value); }
        } else {
          UpdateKeepsInvariant(before, seen, update);
        }
      }
    }
  }

  lemma RecordingKeepsInvariant(entries: Entries, history: History, m: Mutation)
    requires Invariant(entries, history) && LegalMutation(history, m)
    ensures Invariant(entries, Record(history, m))
  {
    HistoryGrows(history, m);
  }

  lemma UpdateKeepsInvariant(entries: Entries, history: History, update: Update)
    requires Invariant(entries, history) && !update.deleteEntry
    requires update.local.Some? ==> update.local.value.entryId == update.entryId
    requires update.dirty.Some? ==> update.dirty.value.entryId == update.entryId && LegalMutation(history, update.dirty.value)
    ensures ReconcileOne(entries, update).Some? ==>
      Invariant(ReconcileOne(entries, update).value,
        if update.dirty.Some? then Record(history, update.dirty.value) else history)
  {
    var history' := if update.dirty.Some? then Record(history, update.dirty.value) else history;
    if update.dirty.Some? {
      HistoryGrows(history, update.dirty.value);
      ToDirtyIsGood(entries, history, update.dirty.value);
    }
    PutKeepsInvariant(entries, history, history', Updated(GetOrCreate(entries, update.entryId), update));
  }

  /** Every write of every writer keeps the pending rows bound and the path keys unique. */
  lemma WriteKeepsInvariant(entries: Entries, history: History, w: Write)
    requires Invariant(entries, history) && Legal(history, w)
    ensures Perform(entries, w).Some? ==> Invariant(Perform(entries, w).value, After(history, w))
    ensures Invariant(entries, history) && forall id | id in history :: id in After(history, w)
  {
    match w
    case ApplyRemote(row) =>
      PutKeepsInvariant(entries, history, history, RemoteApplied(GetOrCreate(entries, row.entryId), row));
    case ClearRemote(id) =>
      if id in entries {
        RemoveKeepsInvariant(entries, history, id);
        PutKeepsInvariant(entries, history, history, entries[id].(remote := None));
      }
    case ApplyLocal(row) =>
      PutKeepsInvariant(entries, history, history, GetOrCreate(entries, row.entryId).(local := Some(row)));
    case ClearLocal(id) =>
      if id in entries {
        RemoveKeepsInvariant(entries, history, id);
        PutKeepsInvariant(entries, history, history, entries[id].(local := None));
      }
    case UpsertEntry(row) => PutKeepsInvariant(entries, history, history, RowOf(row));
    case DeleteEntry(id) => RemoveKeepsInvariant(entries, history, id);
    case MarkDirty(m) =>
      HistoryGrows(history, m);
      ToDirtyIsGood(entries, history, m);
      PutKeepsInvariant(entries, history, Record(history, m), ToDirty(GetOrCreate(entries, m.entryId), Normalize(m)));
    case ClearDirty(mutationId) =>
      SamePathsKeepInvariant(entries, Cleared(entries, mutationId), history);
    case Unblock(reason) => UnblockKeepsInvariant(entries, history, reason);
    case Reconcile(updates) =>
      ReconcileKeepsInvariant(entries, history, updates);
      AfterUpdatesGrows(history, updates);
  }

  lemma AfterUpdatesGrows(history: History, updates: seq<Update>)
    ensures forall id | id in history :: id in AfterUpdates(history, updates)
  {
  }

  lemma UnblockKeepsInvariant(entries: Entries, history: History, reason: BlockedReason)
    requires Invariant(entries, history)
    ensures Invariant(Unblocked(entries, reason), history)
  {
    var entries' := Unblocked(entries, reason);
    forall id | id in entries' ensures GoodRecord(history, id, entries'[id]) {
      assert GoodRecord(history, id, entries[id]);
    }
    SamePathsKeepInvariant(entries, entries', history);
  }

  /** Changing pending parts only leaves the path keys alone. */
  lemma SamePathsKeepInvariant(entries: Entries, entries': Entries, history: History)
    requires Invariant(entries, history) && entries'.Keys == entries.Keys
    requires forall id | id in entries' :: GoodRecord(history, id, entries'[id])
    requires forall id | id in entries' :: entries'[id].remote == entries[id].remote && entries'[id].local == entries[id].local
    ensures Invariant(entries', history)
  {
    forall id | id in entries'
      ensures RemoteKey(entries'[id]) == RemoteKey(entries[id]) && LocalKey(entries'[id]) == LocalKey(entries[id])
    {
    }
  }
}

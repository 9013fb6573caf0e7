/**
 The per-entry record of the sync store (remote, base, local and pending part) and its transitions.

 Encrypted metadata is a sealed box that carries the context it was sealed for; it opens only under
 exactly that context.
 */
module EntryRecords {
  import opened Common

  type EntryId = string
  type MutationId = string
  type Path = string

  datatype Op = Upsert | Delete

  datatype Metadata = Metadata(path: Path, hash: Option<string>)

  datatype Context = Context(entryId: EntryId, revision: nat, op: Op, blobId: Option<string>)

  datatype Sealed = Sealed(context: Context, content: Metadata)

  function Open(box: Sealed, context: Context): Option<Metadata> {
    if box.context == context then Some(box.content) else None
  }

  // ---------------------------------------------------------------- rows

  datatype RemoteRow = RemoteRow(entryId: EntryId, path: Option<Path>, revision: nat, blobId: Option<string>,
    hash: Option<string>, deleted: bool, updatedAt: int)

  datatype LocalRow = LocalRow(entryId: EntryId, path: Option<Path>, blobId: Option<string>, hash: Option<string>,
    deleted: bool, updatedAt: int, mtime: Option<int>, size: Option<nat>)

  /** The combined row: the local part where it is known, with the remote revision. */
  datatype EntryRow = EntryRow(entryId: EntryId, path: Option<Path>, revision: nat, blobId: Option<string>,
    hash: Option<string>, deleted: bool, updatedAt: int, mtime: Option<int>, size: Option<nat>)

  datatype Base = Base(path: Option<Path>, revision: nat, blobId: Option<string>, hash: Option<string>, deleted: bool)

  datatype BlockedReason = FileTooLarge | IncompatiblePath

  datatype Status = Waiting | Blocked(reason: Option<BlockedReason>, encryptedSize: Option<nat>, maxSize: Option<nat>)

  datatype Mutation = Mutation(mutationId: MutationId, entryId: EntryId, op: Op, status: Status, baseRevision: nat,
    baseBlobId: Option<string>, baseHash: Option<string>, blobId: Option<string>, hash: Option<string>,
    metadata: Sealed, createdAt: int)

  /** `remote` and `local` are absent while unknown; `pending` is present exactly while the record is dirty. */
  datatype EntryRecord = EntryRecord(entryId: EntryId, remote: Option<RemoteRow>, base: Base,
    local: Option<LocalRow>, pending: Option<Mutation>)

  const EMPTY_BASE := Base(None, 0, None, None, true)

  function EmptyRecord(entryId: EntryId): EntryRecord {
    EntryRecord(entryId, None, EMPTY_BASE, None, None)
  }

  /** An absent remote part reads as revision 0, deleted, without path, blob or hash. */
  function RemoteOrEmpty(record: EntryRecord): RemoteRow {
    if record.remote.Some? then record.remote.value
    else RemoteRow(record.entryId, None, 0, None, None, true, 0)
  }

  function CopyRemoteToBase(record: EntryRecord): EntryRecord {
    var r := RemoteOrEmpty(record);
    record.(base := Base(r.path, r.revision, r.blobId, r.hash, r.deleted))
  }

  /** Empty paths count as absent. */
  function VisiblePath(path: Option<Path>, deleted: bool): Option<Path> {
    if path.Some? && path.value != "" && !deleted then path else None
  }

  function RemoteKey(record: EntryRecord): Option<Path> {
    if record.remote.Some? then VisiblePath(record.remote.value.path, record.remote.value.deleted) else None
  }

  function LocalKey(record: EntryRecord): Option<Path> {
    if record.local.Some? then VisiblePath(record.local.value.path, record.local.value.deleted) else None
  }

  function ToCombinedRow(record: EntryRecord): Option<EntryRow> {
    if record.remote.None? && record.local.None? then None
    else
      var revision := if record.remote.Some? then record.remote.value.revision else 0;
      match record.local
      case Some(l) =>
        Some(EntryRow(record.entryId, l.path, revision, l.blobId, l.hash, l.deleted, l.updatedAt, l.mtime, l.size))
      case None =>
        var r := record.remote.value;
        Some(EntryRow(record.entryId, r.path, revision, r.blobId, r.hash, r.deleted, r.updatedAt, None, None))
  }

  // ---------------------------------------------------------------- pending mutations

  function MutationContext(m: Mutation): Context {
    Context(m.entryId, m.baseRevision + 1, m.op, m.blobId)
  }

  function Normalize(m: Mutation): Mutation {
    if m.status.Blocked? && m.status.reason.None? then m.(status := m.status.(reason := Some(FileTooLarge))) else m
  }

  /** A mutation as the client builds it: its metadata is sealed for entry, next revision, operation and
      blob, and says the same hash; deletes carry neither blob nor hash. */
  ghost predicate WellBound(m: Mutation) {
    && m.metadata.context == MutationContext(m)
    && m.metadata.content.hash == m.hash
    && (if m.op.Delete? then m.blobId.None? && m.hash.None? else m.blobId.Some? && m.hash.Some?)
  }

  function ToDirty(record: EntryRecord, m: Mutation): EntryRecord {
    var base := Base(
      if record.remote.Some? then record.remote.value.path else record.base.path,
      m.baseRevision, m.baseBlobId, m.baseHash,
      if record.remote.Some? then record.remote.value.deleted else record.base.deleted);
    record.(pending := Some(m.(entryId := record.entryId)), base := base)
  }

  function ClearPending(record: EntryRecord): EntryRecord {
    record.(pending := None)
  }

  // ---------------------------------------------------------------- building mutations

  /** The mutation is made on this server state of its entry, and its metadata opens for the revision that follows and for
      no other. */
  ghost predicate MadeOn(m: Mutation, entryId: EntryId, revision: nat, blobId: Option<string>, hash: Option<string>) {
    && m.entryId == entryId && m.baseRevision == revision && m.baseBlobId == blobId && m.baseHash == hash
    && forall r: nat :: Open(m.metadata, Context(entryId, r, m.op, m.blobId)).Some? <==> r == revision + 1
  }

  /** What the builders read of a base or of the local content. */
  datatype Content = Content(revision: nat, deleted: bool, blobId: Option<string>, hash: Option<string>)

  /** Unchanged live content keeps its blob; anything else gets the fresh one. */
  function CreateNextBlobId(entry: Option<Content>, hash: string, freshId: string): (blobId: string)
    ensures blobId != freshId ==>
      entry.Some? && !entry.value.deleted && entry.value.hash == Some(hash) && entry.value.blobId == Some(blobId)
  {
    if entry.Some? && !entry.value.deleted && entry.value.hash == Some(hash)
      && entry.value.blobId.Some? && entry.value.blobId.value != ""
    then entry.value.blobId.value
    else freshId
  }

  function BaseRevisionOf(base: Option<Content>): nat { if base.Some? then base.value.revision else 0 }

  function BuildLocalUpsert(path: Path, entryId: EntryId, base: Option<Content>, previousLocal: Option<Content>,
      hash: string, mutationId: MutationId, freshBlobId: string, now: int): (m: Mutation)
    ensures WellBound(m) && m.mutationId == mutationId
    ensures if base.Some? then MadeOn(m, entryId, base.value.revision, base.value.blobId, base.value.hash)
      else MadeOn(m, entryId, 0, None, None)
    ensures Open(m.metadata, MutationContext(m)) == Some(Metadata(path, Some(hash)))
  {
    var blobId := Some(CreateNextBlobId(if previousLocal.Some? then previousLocal else base, hash, freshBlobId));
    Mutation(mutationId, entryId, Upsert, Waiting, BaseRevisionOf(base),
      if base.Some? then base.value.blobId else None, if base.Some? then base.value.hash else None,
      blobId, Some(hash),
      Sealed(Context(entryId, BaseRevisionOf(base) + 1, Upsert, blobId), Metadata(path, Some(hash))), now)
  }

  function BuildLocalDelete(entryId: EntryId, base: Content, path: Path, mutationId: MutationId, now: int): (m: Mutation)
    ensures WellBound(m) && m.mutationId == mutationId && m.op.Delete?
    ensures MadeOn(m, entryId, base.revision, base.blobId, base.hash)
    ensures Open(m.metadata, MutationContext(m)) == Some(Metadata(path, None))
  {
    Mutation(mutationId, entryId, Delete, Waiting, base.revision, base.blobId, base.hash, None, None,
      Sealed(Context(entryId, base.revision + 1, Delete, None), Metadata(path, None)), now)
  }

  /** The mutation that carries a text merge onto a pulled state. */
  function RebaseMerged(entryId: EntryId, pulledRevision: nat, pulledBlobId: Option<string>, pulledHash: Option<string>,
      mergedHash: string, mergedBlobId: string, path: Path, mutationId: MutationId, now: int): (m: Mutation)
    ensures WellBound(m) && m.mutationId == mutationId && m.op.Upsert? && m.blobId == Some(mergedBlobId)
    ensures MadeOn(m, entryId, pulledRevision, pulledBlobId, pulledHash)
    ensures Open(m.metadata, MutationContext(m)) == Some(Metadata(path, Some(mergedHash)))
  {
    Mutation(mutationId, entryId, Upsert, Waiting, pulledRevision, pulledBlobId, pulledHash,
      Some(mergedBlobId), Some(mergedHash),
      Sealed(Context(entryId, pulledRevision + 1, Upsert, Some(mergedBlobId)), Metadata(path, Some(mergedHash))), now)
  }

  // ---------------------------------------------------------------- accepted pushes

  datatype AcceptedPush = AcceptedPush(mutation: Mutation, metadata: Metadata, revision: nat,
    blobId: Option<string>, hash: Option<string>, acceptedAt: int)

  /** Metadata of a newer pending mutation, sealed again for the accepted revision. */
  datatype Rebase = Rebase(mutationId: MutationId, metadata: Sealed)

  /** Prepared outside the store transaction; fails only when the pending metadata does not open. */
  function PlanAcceptedPush(record: EntryRecord, accepted: AcceptedPush): Result<Option<Rebase>> {
    if record.pending.None? || record.pending.value.mutationId == accepted.mutation.mutationId then Ok(None)
    else
      var current := record.pending.value;
      match Open(current.metadata, MutationContext(current))
      case None => Err("metadata does not open")
      case Some(content) =>
        Ok(Some(Rebase(current.mutationId,
          Sealed(MutationContext(current.(baseRevision := accepted.revision)), content))))
  }

  function AcceptedRemote(record: EntryRecord, accepted: AcceptedPush): RemoteRow {
    var deleted := accepted.mutation.op.Delete?;
    RemoteRow(record.entryId, Some(accepted.metadata.path), accepted.revision,
      if deleted then None else accepted.blobId, if deleted then None else accepted.hash, deleted, accepted.acceptedAt)
  }

  function AcceptedLocal(record: EntryRecord, accepted: AcceptedPush): Option<LocalRow> {
    if accepted.mutation.op.Upsert?
      && (record.local.None?
          || (record.local.value.hash == accepted.mutation.hash && record.local.value.path == Some(accepted.metadata.path)))
    then
      Some(LocalRow(record.entryId, Some(accepted.metadata.path), accepted.blobId, accepted.hash, false, accepted.acceptedAt,
        if record.local.Some? then record.local.value.mtime else None,
        if record.local.Some? then record.local.value.size else None))
    else record.local
  }

  /** None asks the caller to plan again: the pending mutation changed in between. */
  function ApplyAcceptedPush(record: EntryRecord, accepted: AcceptedPush, plan: Option<Rebase>): Option<EntryRecord> {
    var updated := record.(remote := Some(AcceptedRemote(record, accepted)), local := AcceptedLocal(record, accepted));
    if record.pending.None? then Some(CopyRemoteToBase(updated))
    else if record.pending.value.mutationId == accepted.mutation.mutationId then
      Some(CopyRemoteToBase(ClearPending(updated)))
    else if plan.None? || plan.value.mutationId != record.pending.value.mutationId then None
    else
      Some(ToDirty(updated, Normalize(record.pending.value.(
        baseRevision := accepted.revision, baseBlobId := accepted.blobId, baseHash := accepted.hash,
        metadata := plan.value.metadata))))
  }
}

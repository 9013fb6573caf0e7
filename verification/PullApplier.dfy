/**
 Applying one prepared group of pulled states, and putting the store back when any step fails.
 Vault operations are opaque steps that may fail; nothing else writes the store meanwhile.
 */
module PullApplier {
  import opened Common
  import opened EntryRecords
  import opened EntryStore
  import opened SyncStoreClass
  import opened ApplyOutcome

  lemma PlanIdsContain(plans: seq<PlannedRow>, k: nat)
    requires k < |plans|
    ensures forall id | id in IdsOf(plans[k]) :: id in PlanIds(plans)
  {
    if k < |plans| - 1 {
      PlanIdsContain(plans[..|plans| - 1], k);
    }
  }

  // ---------------------------------------------------------------- what applying may change

  /** Outside `touched` the remote and local states are as before, outside `dirtied` the pending mutations. */
  ghost predicate Framed(before: Entries, after: Entries, touched: seq<EntryId>, dirtied: seq<EntryId>) {
    forall id {:trigger GetRemoteState(after, id)} {:trigger GetLocalState(after, id)} {:trigger GetDirtyMutation(after, id)} ::
      && (id !in touched ==> GetRemoteState(after, id) == GetRemoteState(before, id) && GetLocalState(after, id) == GetLocalState(before, id))
      && (id !in dirtied ==> GetDirtyMutation(after, id) == GetDirtyMutation(before, id))
  }

  /** The write stays within the snapshotted entries. */
  ghost predicate Within(history: History, w: Write, touched: seq<EntryId>, dirtied: seq<EntryId>) {
    match w
    case ApplyRemote(row) => row.entryId in touched
    case ClearRemote(id) => id in touched
    case ApplyLocal(row) => row.entryId in touched
    case ClearLocal(id) => id in touched
    case UpsertEntry(row) => row.entryId in touched
    case DeleteEntry(id) => id in touched
    case MarkDirty(m) => m.entryId in dirtied
    case ClearDirty(mutationId) => mutationId in history && history[mutationId].entryId in dirtied
    case Unblock(_) => false
    case Reconcile(_) => false
  }

  lemma KeysMatch(entries: Entries, history: History)
    requires Invariant(entries, history)
    ensures forall k | k in entries :: entries[k].entryId == k
  {
    forall k | k in entries ensures entries[k].entryId == k { assert GoodRecord(history, k, entries[k]); }
  }

  /** A mutation id belongs to the one entry the history names. */
  lemma MutationOwner(entries: Entries, history: History, mutationId: MutationId, id: EntryId)
    requires Invariant(entries, history) && id in entries && HasMutation(entries[id], mutationId)
    ensures mutationId in history && history[mutationId].entryId == id
  {
    assert GoodRecord(history, id, entries[id]);
  }

  lemma WriteStaysFramed(before: Entries, entries: Entries, history: History, w: Write, touched: seq<EntryId>, dirtied: seq<EntryId>)
    requires Invariant(entries, history) && Framed(before, entries, touched, dirtied)
    requires forall id | id in touched :: id in dirtied
    requires Within(history, w, touched, dirtied) && Perform(entries, w).Some?
    ensures Framed(before, Perform(entries, w).value, touched, dirtied)
  {
    var after := Perform(entries, w).value;
    KeysMatch(entries, history);
    forall id
      ensures id !in touched ==> GetRemoteState(after, id) == GetRemoteState(before, id) && GetLocalState(after, id) == GetLocalState(before, id)
      ensures id !in dirtied ==> GetDirtyMutation(after, id) == GetDirtyMutation(before, id)
    {
      EffectOfWrite(entries, w, id);
      if w.ClearDirty? && id in entries && HasMutation(entries[id], w.mutationId) {
        MutationOwner(entries, history, w.mutationId, id);
      }
      hide Perform, Invariant;
    }
  }

  // ---------------------------------------------------------------- path keys while restoring

  /** Every path key in use is the key the same entry had before. */
  ghost predicate KeysFrom(before: Entries, entries: Entries) {
    forall id | id in entries ::
      && (RemoteKey(entries[id]).Some? ==> id in before && RemoteKey(entries[id]) == RemoteKey(before[id]))
      && (LocalKey(entries[id]).Some? ==> id in before && LocalKey(entries[id]) == LocalKey(before[id]))
  }

  /** A row that brings back keys its entry had before collides with nothing. */
  lemma OldKeysAreFree(before: Entries, entries: Entries, record: EntryRecord)
    requires UniquePaths(before) && KeysFrom(before, entries)
    requires RemoteKey(record).Some? ==> record.entryId in before && RemoteKey(record) == RemoteKey(before[record.entryId])
    requires LocalKey(record).Some? ==> record.entryId in before && LocalKey(record) == LocalKey(before[record.entryId])
    ensures !Collides(entries, record)
    ensures KeysFrom(before, entries[record.entryId := record])
  {
  }

  /** Giving up keys never collides. */
  lemma FewerKeysAreFree(entries: Entries, record: EntryRecord)
    requires UniquePaths(entries) && record.entryId in entries
    requires RemoteKey(record).Some? ==> RemoteKey(record) == RemoteKey(entries[record.entryId])
    requires LocalKey(record).Some? ==> LocalKey(record) == LocalKey(entries[record.entryId])
    ensures !Collides(entries, record)
  {
  }

  lemma ClearingSucceeds(entries: Entries, history: History, id: EntryId)
    requires Invariant(entries, history)
    ensures Perform(entries, ClearRemote(id)).Some? && Perform(entries, ClearLocal(id)).Some?
  {
    KeysMatch(entries, history);
    if id in entries {
      FewerKeysAreFree(entries, entries[id].(remote := None));
      FewerKeysAreFree(entries, entries[id].(local := None));
    }
  }

  /** Bringing back the remote state an entry had before succeeds, whatever of its own it holds now. */
  lemma RemoteComesBack(before: Entries, entries: Entries, id: EntryId)
    requires UniquePaths(before) && KeysFrom(before, entries) && GetRemoteState(before, id).Some?
    requires GetRemoteState(before, id).value.entryId == id
    requires forall k | k in entries :: entries[k].entryId == k
    ensures var w := ApplyRemote(GetRemoteState(before, id).value);
      Perform(entries, w).Some? && KeysFrom(before, Perform(entries, w).value)
  {
    OldKeysAreFree(before, entries, RemoteApplied(GetOrCreate(entries, id), GetRemoteState(before, id).value));
  }

  lemma LocalComesBack(before: Entries, entries: Entries, id: EntryId)
    requires UniquePaths(before) && KeysFrom(before, entries) && GetLocalState(before, id).Some?
    requires GetLocalState(before, id).value.entryId == id
    requires forall k | k in entries :: entries[k].entryId == k
    ensures var w := ApplyLocal(GetLocalState(before, id).value);
      Perform(entries, w).Some? && KeysFrom(before, Perform(entries, w).value)
  {
    OldKeysAreFree(before, entries, GetOrCreate(entries, id).(local := GetLocalState(before, id)));
  }

  lemma ClearingKeepsKeys(before: Entries, entries: Entries, id: EntryId)
    requires KeysFrom(before, entries)
    requires Perform(entries, ClearRemote(id)).Some? && Perform(entries, ClearLocal(id)).Some?
    ensures KeysFrom(before, Perform(entries, ClearRemote(id)).value) && KeysFrom(before, Perform(entries, ClearLocal(id)).value)
    ensures KeysFrom(before, entries - {id})
  {
  }

  lemma MutationComesBack(before: Entries, entries: Entries, m: Mutation)
    requires UniquePaths(before) && KeysFrom(before, entries)
    requires forall k | k in entries :: entries[k].entryId == k
    ensures Perform(entries, MarkDirty(m)).Some? && KeysFrom(before, Perform(entries, MarkDirty(m)).value)
  {
    OldKeysAreFree(before, entries, ToDirty(GetOrCreate(entries, m.entryId), Normalize(m)));
  }

  lemma CleaningKeepsKeys(before: Entries, entries: Entries, mutationId: MutationId)
    requires KeysFrom(before, entries)
    ensures KeysFrom(before, Cleared(entries, mutationId))
  {
  }

  // ---------------------------------------------------------------- the restore on values

  /** After clearing the snapshotted entries, only untouched entries hold keys: their own from before. */
  ghost predicate ClearedUpTo(entries: Entries, touched: seq<EntryId>, n: nat)
    requires n <= |touched|
  {
    forall k | 0 <= k < n :: GetRemoteState(entries, touched[k]) == None && GetLocalState(entries, touched[k]) == None
  }

  lemma ClearedKeysAreOld(before: Entries, entries: Entries, touched: seq<EntryId>, dirtied: seq<EntryId>)
    requires Framed(before, entries, touched, dirtied) && ClearedUpTo(entries, touched, |touched|)
    ensures KeysFrom(before, entries)
  {
    forall id | id in entries
      ensures RemoteKey(entries[id]).Some? ==> id in before && RemoteKey(entries[id]) == RemoteKey(before[id])
      ensures LocalKey(entries[id]).Some? ==> id in before && LocalKey(entries[id]) == LocalKey(before[id])
    {
      assert GetRemoteState(entries, id) == entries[id].remote && GetLocalState(entries, id) == entries[id].local;
      if id in touched {
        var k :| 0 <= k < |touched| && touched[k] == id;
      }
    }
  }

  /** Remote and local state of these entries are those of `before`. */
  ghost predicate RestoredUpTo(before: Entries, entries: Entries, touched: seq<EntryId>, n: nat)
    requires n <= |touched|
  {
    forall k | 0 <= k < n ::
      GetRemoteState(entries, touched[k]) == GetRemoteState(before, touched[k])
      && GetLocalState(entries, touched[k]) == GetLocalState(before, touched[k])
  }

  ghost predicate SamePending(before: Entries, after: Entries) {
    forall id {:trigger GetDirtyMutation(after, id)} :: GetDirtyMutation(after, id) == GetDirtyMutation(before, id)
  }

  ghost predicate SameRemoteAndLocal(before: Entries, after: Entries) {
    forall id {:trigger GetRemoteState(after, id)} {:trigger GetLocalState(after, id)} ::
      GetRemoteState(after, id) == GetRemoteState(before, id) && GetLocalState(after, id) == GetLocalState(before, id)
  }

  /** Remote state, local state and pending mutation of every entry are as before. */
  ghost predicate RolledBack(before: Entries, after: Entries) {
    SameRemoteAndLocal(before, after) && SamePending(before, after)
  }

  /** Rows know their own entry; every reachable store has this. */
  ghost predicate OwnRows(before: Entries) {
    forall id | id in before ::
      && (before[id].remote.Some? ==> before[id].remote.value.entryId == id)
      && (before[id].local.Some? ==> before[id].local.value.entryId == id)
  }

  lemma ReachableRowsAreOwn(entries: Entries, history: History)
    requires Invariant(entries, history)
    ensures OwnRows(entries) && UniquePaths(entries)
  {
    forall id | id in entries
      ensures entries[id].remote.Some? ==> entries[id].remote.value.entryId == id
      ensures entries[id].local.Some? ==> entries[id].local.value.entryId == id
    {
      assert GoodRecord(history, id, entries[id]);
    }
  }

  /** `after` differs from `before` only in the remote and local state of `id`. */
  ghost predicate OnlyState(before: Entries, after: Entries, id: EntryId) {
    SamePending(before, after)
    && forall k {:trigger GetRemoteState(after, k)} {:trigger GetLocalState(after, k)} | k != id ::
      GetRemoteState(after, k) == GetRemoteState(before, k) && GetLocalState(after, k) == GetLocalState(before, k)
  }

  /** `after` differs from `before` only in the pending mutation of `id`. */
  ghost predicate OnlyPending(before: Entries, after: Entries, id: EntryId) {
    SameRemoteAndLocal(before, after)
    && forall k {:trigger GetDirtyMutation(after, k)} | k != id :: GetDirtyMutation(after, k) == GetDirtyMutation(before, k)
  }

  lemma StateWriteEffect(entries: Entries, history: History, w: Write)
    requires Invariant(entries, history) && Perform(entries, w).Some?
    requires w.ApplyRemote? || w.ClearRemote? || w.ApplyLocal? || w.ClearLocal?
    ensures var after := Perform(entries, w).value;
      match w
      case ApplyRemote(row) =>
        OnlyState(entries, after, row.entryId) && GetRemoteState(after, row.entryId) == Some(row)
        && GetLocalState(after, row.entryId) == GetLocalState(entries, row.entryId)
      case ClearRemote(id) =>
        OnlyState(entries, after, id) && GetRemoteState(after, id) == None && GetLocalState(after, id) == GetLocalState(entries, id)
      case ApplyLocal(row) =>
        OnlyState(entries, after, row.entryId) && GetLocalState(after, row.entryId) == Some(row)
        && GetRemoteState(after, row.entryId) == GetRemoteState(entries, row.entryId)
      case ClearLocal(id) =>
        OnlyState(entries, after, id) && GetLocalState(after, id) == None && GetRemoteState(after, id) == GetRemoteState(entries, id)
      case _ => true
  {
    var after := Perform(entries, w).value;
    KeysMatch(entries, history);
    forall id
      ensures GetDirtyMutation(after, id) == GetDirtyMutation(entries, id)
      ensures id != (match w case ApplyRemote(row) => row.entryId case ClearRemote(k) => k case ApplyLocal(row) => row.entryId case ClearLocal(k) => k) ==>
        GetRemoteState(after, id) == GetRemoteState(entries, id) && GetLocalState(after, id) == GetLocalState(entries, id)
    {
      EffectOfWrite(entries, w, id);
    }
    EffectOfWrite(entries, w, match w case ApplyRemote(row) => row.entryId case ClearRemote(k) => k case ApplyLocal(row) => row.entryId case ClearLocal(k) => k);
  }

  lemma MarkDirtyEffect(entries: Entries, history: History, m: Mutation)
    requires Invariant(entries, history) && Perform(entries, MarkDirty(m)).Some?
    ensures var after := Perform(entries, MarkDirty(m)).value;
      OnlyPending(entries, after, m.entryId) && GetDirtyMutation(after, m.entryId) == Some(Normalize(m))
  {
    var after := Perform(entries, MarkDirty(m)).value;
    KeysMatch(entries, history);
    forall id
      ensures GetRemoteState(after, id) == GetRemoteState(entries, id) && GetLocalState(after, id) == GetLocalState(entries, id)
      ensures id != m.entryId ==> GetDirtyMutation(after, id) == GetDirtyMutation(entries, id)
    {
      EffectOfWrite(entries, MarkDirty(m), id);
    }
    EffectOfWrite(entries, MarkDirty(m), m.entryId);
  }

  /** Clearing the mutation an entry has now touches no other entry. */
  lemma ClearDirtyEffect(entries: Entries, history: History, id: EntryId)
    requires Invariant(entries, history) && GetDirtyMutation(entries, id).Some?
    ensures var after := Cleared(entries, GetDirtyMutation(entries, id).value.mutationId);
      OnlyPending(entries, after, id) && GetDirtyMutation(after, id) == None
  {
    var mutationId := GetDirtyMutation(entries, id).value.mutationId;
    var after := Cleared(entries, mutationId);
    OnlyOneRow(entries, history, mutationId, id);
  }

  lemma DeleteEmptyEffect(entries: Entries, id: EntryId)
    requires GetRemoteState(entries, id) == None && GetLocalState(entries, id) == None && GetDirtyMutation(entries, id) == None
    ensures SameRemoteAndLocal(entries, entries - {id}) && SamePending(entries, entries - {id})
  {
  }

  datatype Snapshot = Snapshot(remote: Option<RemoteRow>, local: Option<LocalRow>)

  ghost predicate Snapshots(before: Entries, touched: seq<EntryId>, states: map<EntryId, Snapshot>) {
    forall id | id in touched :: id in states && states[id] == Snapshot(GetRemoteState(before, id), GetLocalState(before, id))
  }

  ghost predicate PendingSnapshots(before: Entries, dirtied: seq<EntryId>, pendings: map<EntryId, Option<Mutation>>) {
    forall id | id in dirtied :: id in pendings && pendings[id] == GetDirtyMutation(before, id)
  }

  // ---------------------------------------------------------------- the applier

  class PullEntryStateApplier {
    const store: SyncStore
    /** How many vault operations still succeed. */
    var luck: nat

    constructor (syncStore: SyncStore, vaultLuck: nat)
      ensures store == syncStore && luck == vaultLuck
    {
      store, luck := syncStore, vaultLuck;
    }

    method TouchVault() returns (ok: bool)
      modifies this`luck
      ensures ok == (old(luck) > 0) && luck == if ok then old(luck) - 1 else 0
    {
      ok := luck > 0;
      if ok {
        luck := luck - 1;
      }
    }

    method SnapshotManifestEntries(touched: seq<EntryId>) returns (states: map<EntryId, Snapshot>)
      ensures Snapshots(store.entries, touched, states)
    {
      states := map[];
      for i := 0 to |touched|
        invariant Snapshots(store.entries, touched[..i], states)
      {
        var id := touched[i];
        states := states[id := Snapshot(GetRemoteState(store.entries, id), GetLocalState(store.entries, id))];
        assert touched[..i + 1] == touched[..i] + [id];
      }
      assert touched[..|touched|] == touched;
    }

    method SnapshotDirtyEntries(dirtied: seq<EntryId>) returns (pendings: map<EntryId, Option<Mutation>>)
      ensures PendingSnapshots(store.entries, dirtied, pendings)
    {
      pendings := map[];
      for i := 0 to |dirtied|
        invariant PendingSnapshots(store.entries, dirtied[..i], pendings)
      {
        var id := dirtied[i];
        pendings := pendings[id := GetDirtyMutation(store.entries, id)];
        assert dirtied[..i + 1] == dirtied[..i] + [id];
      }
      assert dirtied[..|dirtied|] == dirtied;
    }

    /** First half of restoring: the snapshotted entries give up their states, and with them their paths. */
    method ClearTouched(touched: seq<EntryId>, ghost before: Entries, ghost dirtied: seq<EntryId>)
      requires store.Valid() && Framed(before, store.entries, touched, dirtied)
      modifies store
      ensures store.Valid() && store.history == old(store.history)
      ensures Framed(before, store.entries, touched, dirtied) && SamePending(old(store.entries), store.entries)
      ensures KeysFrom(before, store.entries)
    {
      hide Invariant, Perform;
      for i := 0 to |touched|
        invariant store.Valid() && store.history == old(store.history)
        invariant Framed(before, store.entries, touched, dirtied) && SamePending(old(store.entries), store.entries)
        invariant ClearedUpTo(store.entries, touched, i)
      {
        var id := touched[i];
        ClearingSucceeds(store.entries, store.history, id);
        StateWriteEffect(store.entries, store.history, ClearRemote(id));
        var ok := store.Apply(ClearRemote(id));
        ClearingSucceeds(store.entries, store.history, id);
        StateWriteEffect(store.entries, store.history, ClearLocal(id));
        ok := store.Apply(ClearLocal(id));
      }
      ClearedKeysAreOld(before, store.entries, touched, dirtied);
    }

    /** Brings one entry's remote and local state back; no write raises. */
    method RestoreOne(id: EntryId, snapshot: Snapshot, ghost before: Entries)
      requires store.Valid() && UniquePaths(before) && OwnRows(before) && KeysFrom(before, store.entries)
      requires snapshot == Snapshot(GetRemoteState(before, id), GetLocalState(before, id))
      modifies store
      ensures store.Valid() && store.history == old(store.history) && KeysFrom(before, store.entries)
      ensures OnlyState(old(store.entries), store.entries, id)
      ensures GetRemoteState(store.entries, id) == snapshot.remote && GetLocalState(store.entries, id) == snapshot.local
    {
      hide UniquePaths, OwnRows, KeysFrom, Perform;
      var ok := RestoreRemote(id, snapshot.remote, before);
      ok := RestoreLocal(id, snapshot.local, before);
      if snapshot.remote.None? && snapshot.local.None? && GetDirtyMutation(store.entries, id).None? {
        DeleteEmptyEffect(store.entries, id);
        ClearingSucceeds(store.entries, store.history, id);
        ClearingKeepsKeys(before, store.entries, id);
        DeletingIsAllowed(store.entries, id);
        ok := store.Apply(DeleteEntry(id));
      }
    }

    method RestoreRemote(id: EntryId, remote: Option<RemoteRow>, ghost before: Entries) returns (ok: bool)
      requires store.Valid() && UniquePaths(before) && OwnRows(before) && KeysFrom(before, store.entries)
      requires remote == GetRemoteState(before, id)
      modifies store
      ensures ok && store.Valid() && store.history == old(store.history) && KeysFrom(before, store.entries)
      ensures OnlyState(old(store.entries), store.entries, id) && GetRemoteState(store.entries, id) == remote
      ensures GetLocalState(store.entries, id) == GetLocalState(old(store.entries), id)
    {
      KeysMatch(store.entries, store.history);
      assert remote.Some? ==> remote.value.entryId == id;
      hide Invariant, UniquePaths, OwnRows, KeysFrom, Perform;
      if remote.Some? {
        RemoteComesBack(before, store.entries, id);
        StateWriteEffect(store.entries, store.history, ApplyRemote(remote.value));
        ok := store.Apply(ApplyRemote(remote.value));
      } else {
        ClearingSucceeds(store.entries, store.history, id);
        ClearingKeepsKeys(before, store.entries, id);
        StateWriteEffect(store.entries, store.history, ClearRemote(id));
        ok := store.Apply(ClearRemote(id));
      }
    }

    method RestoreLocal(id: EntryId, local: Option<LocalRow>, ghost before: Entries) returns (ok: bool)
      requires store.Valid() && UniquePaths(before) && OwnRows(before) && KeysFrom(before, store.entries)
      requires local == GetLocalState(before, id)
      modifies store
      ensures ok && store.Valid() && store.history == old(store.history) && KeysFrom(before, store.entries)
      ensures OnlyState(old(store.entries), store.entries, id) && GetLocalState(store.entries, id) == local
      ensures GetRemoteState(store.entries, id) == GetRemoteState(old(store.entries), id)
    {
      KeysMatch(store.entries, store.history);
      assert local.Some? ==> local.value.entryId == id;
      hide Invariant, UniquePaths, OwnRows, KeysFrom, Perform;
      if local.Some? {
        LocalComesBack(before, store.entries, id);
        StateWriteEffect(store.entries, store.history, ApplyLocal(local.value));
        ok := store.Apply(ApplyLocal(local.value));
      } else {
        ClearingSucceeds(store.entries, store.history, id);
        ClearingKeepsKeys(before, store.entries, id);
        StateWriteEffect(store.entries, store.history, ClearLocal(id));
        ok := store.Apply(ClearLocal(id));
      }
    }

    /** Puts remote and local state of the snapshotted entries back. No write raises, whatever partial
        application came before. */
    method RestoreManifestEntries(touched: seq<EntryId>, states: map<EntryId, Snapshot>, ghost before: Entries, ghost dirtied: seq<EntryId>)
      requires store.Valid() && UniquePaths(before) && OwnRows(before)
      requires Framed(before, store.entries, touched, dirtied) && Snapshots(before, touched, states)
      modifies store
      ensures store.Valid() && store.history == old(store.history) && KeysFrom(before, store.entries)
      ensures SameRemoteAndLocal(before, store.entries) && SamePending(old(store.entries), store.entries)
    {
      hide Invariant, UniquePaths, OwnRows, KeysFrom, Perform;
      ClearTouched(touched, before, dirtied);
      for i := 0 to |touched|
        invariant store.Valid() && store.history == old(store.history) && KeysFrom(before, store.entries)
        invariant Framed(before, store.entries, touched, dirtied) && SamePending(old(store.entries), store.entries)
        invariant RestoredUpTo(before, store.entries, touched, i)
      {
        RestoreOne(touched[i], states[touched[i]], before);
      }
      RestoredEverywhere(before, store.entries, touched, dirtied);
    }

    /** Puts the pending mutations back. */
    method RestoreDirtyEntries(dirtied: seq<EntryId>, pendings: map<EntryId, Option<Mutation>>, ghost before: Entries, ghost started: History)
      requires store.Valid() && UniquePaths(before) && KeysFrom(before, store.entries)
      requires Invariant(before, started) && Extends(started, store.history)
      requires SameRemoteAndLocal(before, store.entries) && PendingSnapshots(before, dirtied, pendings)
      requires forall id | id !in dirtied :: GetDirtyMutation(store.entries, id) == GetDirtyMutation(before, id)
      modifies store
      ensures store.Valid() && Extends(started, store.history)
      ensures RolledBack(before, store.entries)
    {
      hide Invariant, UniquePaths, KeysFrom, Perform, Extends;
      for i := 0 to |dirtied|
        invariant store.Valid() && KeysFrom(before, store.entries) && Extends(started, store.history)
        invariant SameRemoteAndLocal(before, store.entries)
        invariant forall id | id !in dirtied :: GetDirtyMutation(store.entries, id) == GetDirtyMutation(before, id)
        invariant forall k | 0 <= k < i :: GetDirtyMutation(store.entries, dirtied[k]) == GetDirtyMutation(before, dirtied[k])
      {
        RestorePending(dirtied[i], pendings[dirtied[i]], before, started);
      }
      PendingEverywhere(before, store.entries, dirtied);
    }

    method RestorePending(id: EntryId, mutation: Option<Mutation>, ghost before: Entries, ghost started: History)
      requires store.Valid() && UniquePaths(before) && KeysFrom(before, store.entries)
      requires Invariant(before, started) && Extends(started, store.history)
      requires mutation == GetDirtyMutation(before, id)
      modifies store
      ensures store.Valid() && KeysFrom(before, store.entries) && Extends(started, store.history)
      ensures OnlyPending(old(store.entries), store.entries, id) && GetDirtyMutation(store.entries, id) == mutation
    {
      OldMutationIsLegal(before, started, store.history, id);
      hide Invariant, UniquePaths, KeysFrom, Perform, Extends;
      var current := GetDirtyMutation(store.entries, id);
      if current.Some? {
        ClearDirtyEffect(store.entries, store.history, id);
        CleaningKeepsKeys(before, store.entries, current.value.mutationId);
        store.ClearDirtyEntryByMutationId(current.value.mutationId);
      }
      if mutation.Some? {
        KeysMatch(store.entries, store.history);
        MutationComesBack(before, store.entries, mutation.value);
        MarkDirtyEffect(store.entries, store.history, mutation.value);
        RecordingExtends(started, store.history, mutation.value);
        var ok := store.MarkEntryDirty(mutation.value);
      }
    }

    // -------------------------------------------------------------- the steps that may fail

    /** One write of the application; it stays within the snapshotted entries. */
    method Step(w: Write, g: Group, ghost before: Entries) returns (ok: bool)
      requires store.Valid() && Framed(before, store.entries, Touched(g), Dirtied(g))
      requires Within(store.history, w, Touched(g), Dirtied(g)) && Legal(store.history, w) && !w.MarkDirty?
      modifies store
      ensures store.Valid() && store.history == old(store.history)
      ensures Framed(before, store.entries, Touched(g), Dirtied(g))
      ensures ok == Perform(old(store.entries), w).Some?
      ensures store.entries == if ok then Perform(old(store.entries), w).value else old(store.entries)
      ensures ok ==> forall id :: ViewOf(store.entries, id) == EffectOn(w, id, ViewOf(old(store.entries), id))
    {
      if Perform(store.entries, w).Some? {
        WriteStaysFramed(before, store.entries, store.history, w, Touched(g), Dirtied(g));
        WriteMoves(store.entries, store.history, w);
      }
      hide Invariant, Perform, Framed, Within;
      ok := store.Apply(w);
    }

    /** Forgets the pending mutation of one entry. */
    method DropPending(id: EntryId, g: Group, ghost before: Entries)
      requires store.Valid() && Framed(before, store.entries, Touched(g), Dirtied(g)) && id in Touched(g)
      modifies store
      ensures store.Valid() && store.history == old(store.history) && Framed(before, store.entries, Touched(g), Dirtied(g))
      ensures forall k ::
        ViewOf(store.entries, k) == if k == id then ViewOf(old(store.entries), k).(pending := None) else ViewOf(old(store.entries), k)
    {
      var pending := GetDirtyMutation(store.entries, id);
      if pending.Some? {
        MutationOwner(store.entries, store.history, pending.value.mutationId, id);
        ClearDirtyEffect(store.entries, store.history, id);
        assert Perform(store.entries, ClearDirty(pending.value.mutationId)) == Some(Cleared(store.entries, pending.value.mutationId));
        hide Invariant, Perform, Framed;
        var ok := Step(ClearDirty(pending.value.mutationId), g, before);
      }
    }

    /** Superseded entries and displaced owners lose their pending mutation, their local state and their path. */
    method ApplySupersededRemoteEntries(g: Group, ghost before: Entries) returns (ok: bool, ghost blocked: Option<Write>)
      requires store.Valid() && Framed(before, store.entries, Touched(g), Dirtied(g)) && GoodGroup(store.history, g)
      modifies store
      ensures store.Valid() && store.history == old(store.history) && Framed(before, store.entries, Touched(g), Dirtied(g))
      ensures ok ==> forall id ::
        ViewOf(store.entries, id) == AfterDisplacing(g, |g.plans|, id, AfterSuperseding(g.superseded, id, ViewOf(old(store.entries), id)))
      ensures !ok ==> Refuses(store.entries, blocked)
    {
      hide Invariant, Perform, Framed, Touched, Dirtied;
      blocked := None;
      var handled: set<EntryId> := {};
      for i := 0 to |g.superseded|
        invariant store.Valid() && store.history == old(store.history) && Framed(before, store.entries, Touched(g), Dirtied(g))
        invariant forall id :: ViewOf(store.entries, id) == AfterSuperseding(g.superseded[..i], id, ViewOf(old(store.entries), id))
        invariant forall id :: id in handled <==> exists k :: 0 <= k < i && g.superseded[k].entryId == id
      {
        var item := g.superseded[i];
        assert g.superseded[..i + 1][..i] == g.superseded[..i];
        SupersededIsTouched(g, i);
        DropPending(item.entryId, g, before);
        ok, blocked := Retire(item.entryId, Some(item.row), g, before);
        if !ok { return; }
        handled := handled + {item.entryId};
      }
      assert g.superseded[..|g.superseded|] == g.superseded;
      assert forall id :: id in handled <==> IsSuperseded(g, id);
      ok, blocked := DisplaceOwners(g, handled, before);
    }

    /** The owners that lose their path to a plan, except those superseded already. */
    method DisplaceOwners(g: Group, superseded: set<EntryId>, ghost before: Entries) returns (ok: bool, ghost blocked: Option<Write>)
      requires store.Valid() && Framed(before, store.entries, Touched(g), Dirtied(g))
      requires forall id :: id in superseded <==> IsSuperseded(g, id)
      modifies store
      ensures store.Valid() && store.history == old(store.history) && Framed(before, store.entries, Touched(g), Dirtied(g))
      ensures ok ==> forall id :: ViewOf(store.entries, id) == AfterDisplacing(g, |g.plans|, id, ViewOf(old(store.entries), id))
      ensures !ok ==> Refuses(store.entries, blocked)
    {
      hide Invariant, Perform, Framed, Touched, Dirtied, IsSuperseded, IsDisplaced, Displaced;
      NoneDisplaced(g.plans);
      blocked := None;
      var handled := superseded;
      for i := 0 to |g.plans|
        invariant store.Valid() && store.history == old(store.history) && Framed(before, store.entries, Touched(g), Dirtied(g))
        invariant forall id :: ViewOf(store.entries, id) == AfterDisplacing(g, i, id, ViewOf(old(store.entries), id))
        invariant forall id :: id in handled <==> IsSuperseded(g, id) || IsDisplaced(g.plans[..i], id)
      {
        DisplacedByNext(g, i);
        if g.plans[i].displaced.Some? && g.plans[i].displaced.value !in handled {
          PlanIsTouched(g, i);
          var id := g.plans[i].displaced.value;
          ok, blocked := DisplaceOwner(id, g, before);
          if !ok { return; }
          handled := handled + {id};
        }
      }
      assert g.plans[..|g.plans|] == g.plans;
      ok := true;
    }

    /** Takes the local state, and writes the remote state the entry is left with, if it has one. */
    method Retire(id: EntryId, remote: Option<RemoteRow>, g: Group, ghost before: Entries) returns (ok: bool, ghost blocked: Option<Write>)
      requires store.Valid() && Framed(before, store.entries, Touched(g), Dirtied(g)) && id in Touched(g)
      requires remote.Some? ==> remote.value.entryId == id
      modifies store
      ensures store.Valid() && store.history == old(store.history) && Framed(before, store.entries, Touched(g), Dirtied(g))
      ensures ok ==> forall k ::
        ViewOf(store.entries, k) == if k == id
           then View(if remote.Some? then remote else ViewOf(old(store.entries), k).remote, None, ViewOf(old(store.entries), k).pending)
           else ViewOf(old(store.entries), k)
      ensures !ok ==> Refuses(store.entries, blocked)
    {
      hide Invariant, Perform, Framed, Touched, Dirtied;
      blocked := Some(ClearLocal(id));
      ok := Step(ClearLocal(id), g, before);
      if ok && remote.Some? {
        blocked := Some(ApplyRemote(remote.value));
        ok := Step(ApplyRemote(remote.value), g, before);
      }
    }

    method DisplaceOwner(id: EntryId, g: Group, ghost before: Entries) returns (ok: bool, ghost blocked: Option<Write>)
      requires store.Valid() && Framed(before, store.entries, Touched(g), Dirtied(g)) && id in Touched(g)
      modifies store
      ensures store.Valid() && store.history == old(store.history) && Framed(before, store.entries, Touched(g), Dirtied(g))
      ensures ok ==> forall k ::
        ViewOf(store.entries, k) == if k == id then Displaced(ViewOf(old(store.entries), k)) else ViewOf(old(store.entries), k)
      ensures !ok ==> Refuses(store.entries, blocked)
    {
      hide Perform, Framed, Touched, Dirtied;
      DropPending(id, g, before);
      var remote := GetRemoteState(store.entries, id);
      assert remote == ViewOf(store.entries, id).remote;
      assert remote.Some? ==> remote.value.entryId == id by { ReachableRowsAreOwn(store.entries, store.history); }
      hide Invariant;
      ok, blocked := Retire(id,
        if remote.Some? then Some(remote.value.(path := if remote.value.deleted then remote.value.path else None)) else None,
        g, before);
    }

    /** Local versions in conflict are copied aside and their mutations dropped. */
    method ApplyPendingConflicts(g: Group, ghost before: Entries) returns (ok: bool)
      requires store.Valid() && Framed(before, store.entries, Touched(g), Dirtied(g)) && GoodGroup(store.history, g)
      modifies store, this`luck
      ensures store.Valid() && store.history == old(store.history) && Framed(before, store.entries, Touched(g), Dirtied(g))
      ensures ok ==> forall id :: ViewOf(store.entries, id) == AfterCopying(g.conflicts, ViewOf(old(store.entries), id))
      ensures !ok ==> luck == 0
    {
      hide Invariant, Framed, Touched, Dirtied;
      for i := 0 to |g.conflicts|
        invariant store.Valid() && store.history == old(store.history) && Framed(before, store.entries, Touched(g), Dirtied(g))
        invariant forall id :: ViewOf(store.entries, id) == AfterCopying(g.conflicts[..i], ViewOf(old(store.entries), id))
      {
        ghost var seen := store.entries;
        if g.conflicts[i].copies {
          ok := TouchVault();
          if !ok { return; }
          ConflictIsDirtied(g, i);
          var cleared := Step(ClearDirty(g.conflicts[i].mutationId), g, before);
        }
        hide Perform;
        forall id ensures ViewOf(store.entries, id) == AfterCopying(g.conflicts[..i + 1], ViewOf(old(store.entries), id)) {
          CopiedByNext(g.conflicts, i, ViewOf(old(store.entries), id));
          assert ViewOf(seen, id) == AfterCopying(g.conflicts[..i], ViewOf(old(store.entries), id));
        }
      }
      assert g.conflicts[..|g.conflicts|] == g.conflicts;
      ok := true;
    }

    /** Adopted local entries leave the store; neither write can raise. */
    method ApplyAdoptedLocalEntries(g: Group, ghost before: Entries)
      requires store.Valid() && Framed(before, store.entries, Touched(g), Dirtied(g)) && GoodGroup(store.history, g)
      modifies store
      ensures store.Valid() && store.history == old(store.history) && Framed(before, store.entries, Touched(g), Dirtied(g))
      ensures forall id :: ViewOf(store.entries, id) == AfterAdopting(g.plans, id, ViewOf(old(store.entries), id))
    {
      hide Invariant, Framed, Touched, Dirtied;
      var adopted: set<EntryId> := {};
      for i := 0 to |g.plans|
        invariant store.Valid() && store.history == old(store.history) && Framed(before, store.entries, Touched(g), Dirtied(g))
        invariant forall id :: ViewOf(store.entries, id) == AfterAdopting(g.plans[..i], id, ViewOf(old(store.entries), id))
        invariant forall id :: id in adopted <==> IsAdopted(g.plans[..i], id)
      {
        AdoptedByNext(g, i);
        if g.plans[i].adopted.Some? && g.plans[i].adopted.value.entryId !in adopted {
          var adoption := g.plans[i].adopted.value;
          PlanIsTouched(g, i);
          if adoption.hashMatches {
            OnlyTheOwnerQueues(store.entries, store.history, adoption.mutationId);
            var cleared := Step(ClearDirty(adoption.mutationId), g, before);
          }
          var deleted := Step(DeleteEntry(adoption.entryId), g, before);
          adopted := adopted + {adoption.entryId};
        }
      }
      assert g.plans[..|g.plans|] == g.plans;
    }

    /** Entries that leave their path free it first, so that paths can be swapped within the group. */
    method ClearChangingStorePaths(g: Group, ghost before: Entries) returns (ok: bool, ghost blocked: Option<Write>)
      requires store.Valid() && Framed(before, store.entries, Touched(g), Dirtied(g)) && GoodGroup(store.history, g)
      modifies store
      ensures store.Valid() && store.history == old(store.history) && Framed(before, store.entries, Touched(g), Dirtied(g))
      ensures ok ==> forall id :: ViewOf(store.entries, id) == AfterFreeing(g.plans, id, ViewOf(old(store.entries), id))
      ensures !ok ==> Refuses(store.entries, blocked)
    {
      hide Invariant, Perform, Framed, Touched, Dirtied;
      blocked := None;
      for i := 0 to |g.plans|
        invariant store.Valid() && store.history == old(store.history) && Framed(before, store.entries, Touched(g), Dirtied(g))
        invariant forall id :: ViewOf(store.entries, id) == AfterFreeing(g.plans[..i], id, ViewOf(old(store.entries), id))
      {
        var plan := g.plans[i];
        NextPlan(g, i);
        if FreesPath(plan) {
          PlanIsTouched(g, i);
          blocked := Some(UpsertEntry(plan.existing.value.(path := None, mtime := None, size := None)));
          ok := Step(UpsertEntry(plan.existing.value.(path := None, mtime := None, size := None)), g, before);
          if !ok { return; }
        }
      }
      assert g.plans[..|g.plans|] == g.plans;
      ok := true;
    }

    /** Moves, removals and writes in the vault. */
    method ChangeVault(g: Group) returns (ok: bool)
      modifies this`luck
      ensures !ok ==> luck == 0
    {
      for i := 0 to |g.plans| {
        for k := 0 to g.plans[i].moves {
          ok := TouchVault();
          if !ok { return; }
        }
      }
      ok := true;
    }

    method UpsertPlans(g: Group, ghost before: Entries) returns (ok: bool, ghost blocked: Option<Write>)
      requires store.Valid() && Framed(before, store.entries, Touched(g), Dirtied(g)) && GoodGroup(store.history, g)
      modifies store
      ensures store.Valid() && store.history == old(store.history) && Framed(before, store.entries, Touched(g), Dirtied(g))
      ensures ok ==> PlansApplied(store.entries, g.plans, |g.plans|)
      ensures ok ==> forall id :: ViewOf(store.entries, id) == AfterPlans(g.plans, id, ViewOf(old(store.entries), id))
      ensures !ok ==> Refuses(store.entries, blocked)
    {
      hide Invariant, Perform, Framed, Touched, Dirtied;
      blocked := None;
      for i := 0 to |g.plans|
        invariant store.Valid() && store.history == old(store.history) && Framed(before, store.entries, Touched(g), Dirtied(g))
        invariant PlansApplied(store.entries, g.plans, i)
        invariant forall id :: ViewOf(store.entries, id) == AfterPlans(g.plans[..i], id, ViewOf(old(store.entries), id))
      {
        ghost var entries := store.entries;
        KeysMatch(store.entries, store.history);
        PlanIsTouched(g, i);
        NextPlan(g, i);
        blocked := Some(UpsertEntry(g.plans[i].target));
        ok := Step(UpsertEntry(g.plans[i].target), g, before);
        if !ok { return; }
        UpsertApplies(entries, store.history, g, i);
      }
      assert g.plans[..|g.plans|] == g.plans;
      ok := true;
    }

    /** After the plans: local mutations the remote already has are dropped, merged ones are queued on top. */
    method ApplyPendingMerges(g: Group, ghost before: Entries) returns (ok: bool, ghost blocked: Option<Write>)
      requires store.Valid() && Framed(before, store.entries, Touched(g), Dirtied(g)) && GoodGroup(store.history, g)
      requires PlansApplied(store.entries, g.plans, |g.plans|)
      modifies store, this`luck
      ensures store.Valid() && Extends(old(store.history), store.history)
      ensures Framed(before, store.entries, Touched(g), Dirtied(g))
      ensures ok ==> PlansApplied(store.entries, g.plans, |g.plans|) && OwnMerges(g)
      ensures ok ==> forall id :: ViewOf(store.entries, id) == AfterMerges(g.conflicts, id, ViewOf(old(store.entries), id))
      ensures !ok ==> luck == 0 || Refuses(store.entries, blocked)
    {
      hide Invariant, Perform, Framed, Touched, Dirtied, Extends, PlansApplied, GoodConflict;
      ExtendsItself(store.history);
      blocked := None;
      for i := 0 to |g.conflicts|
        invariant store.Valid() && Extends(old(store.history), store.history)
        invariant Framed(before, store.entries, Touched(g), Dirtied(g))
        invariant PlansApplied(store.entries, g.plans, |g.plans|)
        invariant forall k | i <= k < |g.conflicts| :: GoodConflict(store.history, g, g.conflicts[k])
        invariant forall k | 0 <= k < i && g.conflicts[k].merge.KeepMerged? ::
          g.conflicts[k].plan < |g.plans| && g.conflicts[k].entryId == g.plans[g.conflicts[k].plan].entryId
        invariant forall id :: ViewOf(store.entries, id) == AfterMerges(g.conflicts[..i], id, ViewOf(old(store.entries), id))
      {
        ConflictIsDirtied(g, i);
        ghost var seen := store.history;
        assert g.conflicts[..i + 1][..i] == g.conflicts[..i];
        ok, blocked := ApplyOneMerge(g, i, before);
        if !ok {
          ExtendsOn(old(store.history), seen, store.history);
          return;
        }
        ExtendsOn(old(store.history), seen, store.history);
        LaterConflictsStayGood(seen, store.history, g, i);
      }
      assert g.conflicts[..|g.conflicts|] == g.conflicts;
      ok := true;
    }

    method ApplyOneMerge(g: Group, i: nat, ghost before: Entries) returns (ok: bool, ghost blocked: Option<Write>)
      requires i < |g.conflicts| && g.conflicts[i].entryId in Dirtied(g)
      requires store.Valid() && Framed(before, store.entries, Touched(g), Dirtied(g)) && GoodGroupShape(g)
      requires GoodConflict(store.history, g, g.conflicts[i]) && PlansApplied(store.entries, g.plans, |g.plans|)
      modifies store, this`luck
      ensures store.Valid() && Extends(old(store.history), store.history)
      ensures Framed(before, store.entries, Touched(g), Dirtied(g))
      ensures ok ==> PlansApplied(store.entries, g.plans, |g.plans|)
      ensures store.history == old(store.history)
        || (g.conflicts[i].merge.KeepMerged? && store.history == Record(old(store.history), g.conflicts[i].merge.mutation))
      ensures ok && g.conflicts[i].merge.KeepMerged? ==>
        g.conflicts[i].plan < |g.plans| && g.conflicts[i].entryId == g.plans[g.conflicts[i].plan].entryId
      ensures ok ==> forall id :: ViewOf(store.entries, id) == AfterMerge(g.conflicts[i], id, ViewOf(old(store.entries), id))
      ensures !ok ==> luck == 0 || Refuses(store.entries, blocked)
    {
      var conflict := g.conflicts[i];
      hide Invariant, Perform, Framed, Touched, Dirtied, Extends, PlansApplied, GoodGroupShape, Record;
      ExtendsItself(store.history);
      ok, blocked := true, None;
      match conflict.merge
      case NoMerge =>
      case KeepRemote =>
        ghost var entries := store.entries;
        CleaningKeepsPlans(entries, g.plans, conflict.mutationId);
        ok := Step(ClearDirty(conflict.mutationId), g, before);
      case KeepMerged(mutation, local) =>
        ok := TouchVault();
        if !ok { return; }
        ok, blocked := KeepMergedText(g, i, before);
    }

    /** A merged text: its mutation is queued on the pulled state, and it becomes the local state. */
    method KeepMergedText(g: Group, i: nat, ghost before: Entries) returns (ok: bool, ghost blocked: Option<Write>)
      requires i < |g.conflicts| && g.conflicts[i].entryId in Dirtied(g) && g.conflicts[i].merge.KeepMerged?
      requires store.Valid() && Framed(before, store.entries, Touched(g), Dirtied(g)) && GoodGroupShape(g)
      requires GoodConflict(store.history, g, g.conflicts[i]) && PlansApplied(store.entries, g.plans, |g.plans|)
      modifies store
      ensures store.Valid() && Extends(old(store.history), store.history)
      ensures store.history == Record(old(store.history), g.conflicts[i].merge.mutation)
      ensures Framed(before, store.entries, Touched(g), Dirtied(g))
      ensures ok ==> PlansApplied(store.entries, g.plans, |g.plans|)
      ensures ok ==> g.conflicts[i].plan < |g.plans| && g.conflicts[i].entryId == g.plans[g.conflicts[i].plan].entryId
      ensures ok ==> forall id :: ViewOf(store.entries, id) == AfterMerge(g.conflicts[i], id, ViewOf(old(store.entries), id))
      ensures !ok ==> Refuses(store.entries, blocked)
    {
      var conflict := g.conflicts[i];
      hide Invariant, Perform, Framed, Touched, Dirtied, Extends, PlansApplied, GoodGroupShape, Record;
      blocked := Some(MarkDirty(conflict.merge.mutation));
      ok := QueueMerged(conflict.merge.mutation, g, before);
      if !ok { return; }
      blocked := Some(ApplyLocal(conflict.merge.local));
      ok := TakeMergedLocal(conflict, g, before);
    }

    method QueueMerged(mutation: Mutation, g: Group, ghost before: Entries) returns (ok: bool)
      requires store.Valid() && Framed(before, store.entries, Touched(g), Dirtied(g)) && PlansApplied(store.entries, g.plans, |g.plans|)
      requires LegalMutation(store.history, mutation) && mutation.entryId in Dirtied(g)
      modifies store
      ensures store.Valid() && store.history == Record(old(store.history), mutation) && Extends(old(store.history), store.history)
      ensures Framed(before, store.entries, Touched(g), Dirtied(g)) && PlansApplied(store.entries, g.plans, |g.plans|)
      ensures ok ==> forall id ::
        var was := ViewOf(old(store.entries), id);
        ViewOf(store.entries, id) == if id == mutation.entryId then was.(pending := Some(Normalize(mutation))) else was
      ensures !ok ==> Refuses(store.entries, Some(MarkDirty(mutation)))
    {
      WriteExtends(store.history, MarkDirty(mutation));
      if Perform(store.entries, MarkDirty(mutation)).Some? {
        TouchedAreDirtied(g);
        WriteStaysFramed(before, store.entries, store.history, MarkDirty(mutation), Touched(g), Dirtied(g));
        WriteMoves(store.entries, store.history, MarkDirty(mutation));
        MarkingKeepsPlans(store.entries, store.history, g.plans, mutation);
      }
      hide Invariant, Perform, Framed, Touched, Dirtied, Extends, PlansApplied;
      ok := store.MarkEntryDirty(mutation);
    }

    /** The merged text becomes the local state of the plan's own entry; for any other entry the plan already
        holds the path and the write raises. */
    method TakeMergedLocal(conflict: Conflict, g: Group, ghost before: Entries) returns (ok: bool)
      requires store.Valid() && Framed(before, store.entries, Touched(g), Dirtied(g)) && PlansApplied(store.entries, g.plans, |g.plans|)
      requires conflict.merge.KeepMerged? && GoodMerge(g, conflict) && GoodGroupShape(g)
      modifies store
      ensures store.Valid() && store.history == old(store.history)
      ensures Framed(before, store.entries, Touched(g), Dirtied(g))
      ensures ok ==> PlansApplied(store.entries, g.plans, |g.plans|)
      ensures ok ==> conflict.entryId == g.plans[conflict.plan].entryId
      ensures ok ==> forall id ::
        var was := ViewOf(old(store.entries), id);
        ViewOf(store.entries, id) == if id == conflict.entryId then was.(local := Some(conflict.merge.local)) else was
      ensures !ok ==> Refuses(store.entries, Some(ApplyLocal(conflict.merge.local)))
    {
      var local := conflict.merge.local;
      if Perform(store.entries, ApplyLocal(local)).Some? {
        KeysMatch(store.entries, store.history);
        OnlyOwnPathFits(store.entries, g, conflict);
        PlanIsTouched(g, conflict.plan);
        TouchedAreDirtied(g);
        WriteStaysFramed(before, store.entries, store.history, ApplyLocal(local), Touched(g), Dirtied(g));
        WriteMoves(store.entries, store.history, ApplyLocal(local));
        LocalKeepsPlans(store.entries, store.history, g, conflict);
      }
      hide Invariant, Perform, Framed, Touched, Dirtied, PlansApplied;
      ok := store.Apply(ApplyLocal(local));
    }

    /** The steps of one group, in order; false when any of them fails. It fails only where the vault does, or at a write the
        store refuses: `blocked`. */
    method ApplySteps(g: Group, ghost before: Entries) returns (ok: bool, ghost blocked: Option<Write>)
      requires store.Valid() && store.entries == before && GoodGroup(store.history, g)
      modifies store, this`luck
      ensures store.Valid() && Extends(old(store.history), store.history)
      ensures Framed(before, store.entries, Touched(g), Dirtied(g))
      ensures ok ==> PlansApplied(store.entries, g.plans, |g.plans|) && OwnMerges(g)
      ensures ok ==> forall id :: ViewOf(store.entries, id) == Outcome(g, id, ViewOf(before, id))
      ensures !ok ==> luck == 0 || Refuses(store.entries, blocked)
    {
      assert Framed(before, store.entries, Touched(g), Dirtied(g));
      hide Invariant, Framed, Touched, Dirtied, GoodGroup, Extends, PlansApplied, OwnMerges, Perform,
        AfterSuperseding, AfterDisplacing, AfterCopying, AfterAdopting, AfterFreeing, AfterPlans, AfterMerges;
      ExtendsItself(store.history);
      ok, blocked := ApplySupersededRemoteEntries(g, before);
      if !ok { return; }
      ok := TouchVault();
      if !ok { return; }
      ok := ApplyPendingConflicts(g, before);
      if !ok { return; }
      ApplyAdoptedLocalEntries(g, before);
      ok, blocked := ClearChangingStorePaths(g, before);
      if !ok { return; }
      ok := ChangeVault(g);
      if !ok { return; }
      ok, blocked := UpsertPlans(g, before);
      if !ok { return; }
      ok, blocked := ApplyPendingMerges(g, before);
    }

    /** Applies the group or puts everything back. Applied, each entry is as the composition of the steps leaves it. After a
        failure at any step, the remote state, local state and pending mutation of every entry are as before; it fails only
        where the vault does, or when the store, `stuck` as the steps so far have left it, refuses a write. */
    method ApplyPreparedManifest(g: Group) returns (ok: bool, ghost stuck: Entries, ghost blocked: Option<Write>)
      requires store.Valid() && GoodGroup(store.history, g)
      modifies store, this`luck
      ensures store.Valid() && Extends(old(store.history), store.history)
      ensures ok ==> OwnMerges(g) && forall id :: ViewOf(store.entries, id) == Outcome(g, id, ViewOf(old(store.entries), id))
      ensures !ok ==> RolledBack(old(store.entries), store.entries)
      ensures !ok ==> luck == 0 || (Framed(old(store.entries), stuck, Touched(g), Dirtied(g)) && Refuses(stuck, blocked))
    {
      ghost var before, started := store.entries, store.history;
      ReachableRowsAreOwn(before, started);
      var states := SnapshotManifestEntries(Touched(g));
      var pendings := SnapshotDirtyEntries(Dirtied(g));
      hide Touched, Dirtied, GoodGroup, PlansApplied, Extends, UniquePaths, OwnRows, KeysFrom, Outcome, OwnMerges;
      ok, blocked := ApplySteps(g, before);
      stuck := store.entries;
      if !ok {
        RestoreManifestEntries(Touched(g), states, before, Dirtied(g));
        RestoreDirtyEntries(Dirtied(g), pendings, before, started);
      }
    }
  }

  // ---------------------------------------------------------------- steps on values

  /** The write raises. */
  ghost predicate Refuses(entries: Entries, blocked: Option<Write>) {
    blocked.Some? && Perform(entries, blocked.value).None?
  }

  lemma WriteMoves(entries: Entries, history: History, w: Write)
    requires Invariant(entries, history) && IsSimple(w) && Perform(entries, w).Some?
    ensures forall id :: ViewOf(Perform(entries, w).value, id) == EffectOn(w, id, ViewOf(entries, id))
  {
    KeysMatch(entries, history);
    forall id ensures ViewOf(Perform(entries, w).value, id) == EffectOn(w, id, ViewOf(entries, id)) {
      EffectOfWrite(entries, w, id);
    }
  }

  /** Only the entry the history names can have this mutation pending. */
  lemma OnlyTheOwnerQueues(entries: Entries, history: History, mutationId: MutationId)
    requires Invariant(entries, history) && mutationId in history
    ensures forall id :: Queues(ViewOf(entries, id), mutationId) ==> id == history[mutationId].entryId
  {
    forall id | Queues(ViewOf(entries, id), mutationId) ensures id == history[mutationId].entryId {
      MutationOwner(entries, history, mutationId, id);
    }
  }

  lemma NoneDisplaced(plans: seq<PlannedRow>)
    ensures forall id :: !IsDisplaced(plans[..0], id)
  {
  }

  lemma DisplacedByNext(g: Group, i: nat)
    requires i < |g.plans|
    ensures forall id :: IsDisplaced(g.plans[..i + 1], id) <==> IsDisplaced(g.plans[..i], id) || g.plans[i].displaced == Some(id)
  {
    forall id ensures IsDisplaced(g.plans[..i + 1], id) <==> IsDisplaced(g.plans[..i], id) || g.plans[i].displaced == Some(id) {
      assert forall k | 0 <= k < i :: g.plans[..i + 1][k] == g.plans[..i][k];
      assert g.plans[..i + 1][i] == g.plans[i];
    }
  }

  lemma AdoptedByNext(g: Group, i: nat)
    requires i < |g.plans|
    ensures forall id ::
      IsAdopted(g.plans[..i + 1], id) <==> IsAdopted(g.plans[..i], id) || (g.plans[i].adopted.Some? && g.plans[i].adopted.value.entryId == id)
  {
    forall id ensures IsAdopted(g.plans[..i + 1], id)
      <==> IsAdopted(g.plans[..i], id) || (g.plans[i].adopted.Some? && g.plans[i].adopted.value.entryId == id)
    {
      assert forall k | 0 <= k < i :: g.plans[..i + 1][k] == g.plans[..i][k];
      assert g.plans[..i + 1][i] == g.plans[i];
    }
  }

  lemma CopiedByNext(conflicts: seq<Conflict>, i: nat, v: View)
    requires i < |conflicts|
    ensures IsCopied(conflicts[..i + 1], v)
      <==> IsCopied(conflicts[..i], v) || (conflicts[i].copies && Queues(v, conflicts[i].mutationId))
  {
    assert forall k | 0 <= k < i :: conflicts[..i + 1][k] == conflicts[..i][k];
    assert conflicts[..i + 1][i] == conflicts[i];
  }

  lemma NextPlan(g: Group, i: nat)
    requires GoodGroupShape(g) && i < |g.plans|
    ensures forall id :: PlanOf(g.plans[..i + 1], id) == if g.plans[i].entryId == id then Some(g.plans[i]) else PlanOf(g.plans[..i], id)
    ensures PlanOf(g.plans[..i], g.plans[i].entryId).None?
  {
    assert g.plans[..i + 1][..i] == g.plans[..i];
  }

  /** The first `n` plans are in the store: their remote state is the pulled one, live ones hold their path. */
  ghost predicate PlansApplied(entries: Entries, plans: seq<PlannedRow>, n: nat)
    requires n <= |plans|
  {
    forall k | 0 <= k < n ::
      && GetRemoteState(entries, plans[k].entryId) == RowOf(plans[k].target).remote
      && (IsLive(plans[k].target) ==> HeldPath(entries, plans[k].entryId) == plans[k].target.path)
  }

  ghost function HeldPath(entries: Entries, id: EntryId): Option<Path> {
    if GetLocalState(entries, id).Some?
    then VisiblePath(GetLocalState(entries, id).value.path, GetLocalState(entries, id).value.deleted) else None
  }

  lemma TouchedAreDirtied(g: Group)
    ensures forall id | id in Touched(g) :: id in Dirtied(g)
  {
  }

  lemma PlanIsTouched(g: Group, i: nat)
    requires i < |g.plans|
    ensures forall id | id in IdsOf(g.plans[i]) :: id in Touched(g) && id in Dirtied(g)
    ensures g.plans[i].entryId in Touched(g)
    ensures g.plans[i].adopted.Some? ==> g.plans[i].adopted.value.entryId in Touched(g) && g.plans[i].adopted.value.entryId in Dirtied(g)
    ensures g.plans[i].displaced.Some? ==> g.plans[i].displaced.value in Touched(g)
  {
    PlanIdsContain(g.plans, i);
    assert g.plans[i].entryId in IdsOf(g.plans[i]);
  }

  lemma SupersededIsTouched(g: Group, i: nat)
    requires i < |g.superseded|
    ensures g.superseded[i].entryId in Touched(g)
  {
    assert SupersededIds(g.superseded)[i] == g.superseded[i].entryId;
  }

  lemma ConflictIsDirtied(g: Group, i: nat)
    requires i < |g.conflicts|
    ensures g.conflicts[i].entryId in Dirtied(g)
  {
    assert ConflictIds(g.conflicts)[i] == g.conflicts[i].entryId;
  }

  lemma ExtendsItself(history: History)
    ensures Extends(history, history)
  {
  }

  lemma ExtendsOn(a: History, b: History, c: History)
    requires Extends(a, b) && Extends(b, c)
    ensures Extends(a, c)
  {
  }

  lemma LaterConflictsStayGood(history: History, history': History, g: Group, i: nat)
    requires i < |g.conflicts| && FreshMerges(g)
    requires forall k | i <= k < |g.conflicts| :: GoodConflict(history, g, g.conflicts[k])
    requires history' == history
      || (g.conflicts[i].merge.KeepMerged? && history' == Record(history, g.conflicts[i].merge.mutation))
    ensures forall k | i + 1 <= k < |g.conflicts| :: GoodConflict(history', g, g.conflicts[k])
  {
  }

  lemma UpsertApplies(entries: Entries, history: History, g: Group, i: nat)
    requires i < |g.plans| && GoodGroupShape(g) && (forall k | k in entries :: entries[k].entryId == k)
    requires PlansApplied(entries, g.plans, i) && Perform(entries, UpsertEntry(g.plans[i].target)).Some?
    ensures PlansApplied(Perform(entries, UpsertEntry(g.plans[i].target)).value, g.plans, i + 1)
  {
    var w := UpsertEntry(g.plans[i].target);
    forall k | 0 <= k < i + 1
      ensures var after := Perform(entries, w).value;
        && GetRemoteState(after, g.plans[k].entryId) == RowOf(g.plans[k].target).remote
        && (IsLive(g.plans[k].target) ==> HeldPath(after, g.plans[k].entryId) == g.plans[k].target.path)
    {
      EffectOfWrite(entries, w, g.plans[k].entryId);
    }
  }

  lemma SameStatesKeepPlans(entries: Entries, after: Entries, plans: seq<PlannedRow>)
    requires PlansApplied(entries, plans, |plans|) && SameRemoteAndLocal(entries, after)
    ensures PlansApplied(after, plans, |plans|)
  {
    forall k | 0 <= k < |plans|
      ensures GetRemoteState(after, plans[k].entryId) == RowOf(plans[k].target).remote
      ensures IsLive(plans[k].target) ==> HeldPath(after, plans[k].entryId) == plans[k].target.path
    {
      assert GetLocalState(after, plans[k].entryId) == GetLocalState(entries, plans[k].entryId);
    }
  }

  lemma CleaningKeepsPlans(entries: Entries, plans: seq<PlannedRow>, mutationId: MutationId)
    requires PlansApplied(entries, plans, |plans|)
    ensures Perform(entries, ClearDirty(mutationId)).Some?
    ensures PlansApplied(Perform(entries, ClearDirty(mutationId)).value, plans, |plans|)
  {
    SameStatesKeepPlans(entries, Cleared(entries, mutationId), plans);
  }

  lemma MarkingKeepsPlans(entries: Entries, history: History, plans: seq<PlannedRow>, m: Mutation)
    requires Invariant(entries, history) && PlansApplied(entries, plans, |plans|) && Perform(entries, MarkDirty(m)).Some?
    ensures PlansApplied(Perform(entries, MarkDirty(m)).value, plans, |plans|)
  {
    MarkDirtyEffect(entries, history, m);
    SameStatesKeepPlans(entries, Perform(entries, MarkDirty(m)).value, plans);
  }

  /** The plan holds its path, so only the plan's own entry can take it as local state. */
  lemma OnlyOwnPathFits(entries: Entries, g: Group, c: Conflict)
    requires PlansApplied(entries, g.plans, |g.plans|) && c.merge.KeepMerged? && GoodMerge(g, c)
    requires (forall k | k in entries :: entries[k].entryId == k) && Perform(entries, ApplyLocal(c.merge.local)).Some?
    ensures c.entryId == g.plans[c.plan].entryId
  {
    var plan := g.plans[c.plan];
    assert HeldPath(entries, plan.entryId) == plan.target.path;
    assert plan.entryId in entries && LocalKey(entries[plan.entryId]) == plan.target.path;
    var record := GetOrCreate(entries, c.entryId).(local := Some(c.merge.local));
    assert LocalKey(record) == plan.target.path;
    assert !Collides(entries, record) && record.entryId == c.entryId;
  }

  lemma LocalKeepsPlans(entries: Entries, history: History, g: Group, c: Conflict)
    requires Invariant(entries, history) && PlansApplied(entries, g.plans, |g.plans|) && GoodGroupShape(g)
    requires c.merge.KeepMerged? && GoodMerge(g, c) && c.entryId == g.plans[c.plan].entryId
    requires Perform(entries, ApplyLocal(c.merge.local)).Some?
    ensures PlansApplied(Perform(entries, ApplyLocal(c.merge.local)).value, g.plans, |g.plans|)
  {
    var w := ApplyLocal(c.merge.local);
    var after := Perform(entries, w).value;
    KeysMatch(entries, history);
    forall k | 0 <= k < |g.plans|
      ensures GetRemoteState(after, g.plans[k].entryId) == RowOf(g.plans[k].target).remote
      ensures IsLive(g.plans[k].target) ==> HeldPath(after, g.plans[k].entryId) == g.plans[k].target.path
    {
      EffectOfWrite(entries, w, g.plans[k].entryId);
      hide Perform;
    }
  }

  lemma DeletingIsAllowed(entries: Entries, id: EntryId)
    ensures Perform(entries, DeleteEntry(id)) == Some(entries - {id})
  {
  }

  lemma RestoredEverywhere(before: Entries, entries: Entries, touched: seq<EntryId>, dirtied: seq<EntryId>)
    requires Framed(before, entries, touched, dirtied) && RestoredUpTo(before, entries, touched, |touched|)
    ensures SameRemoteAndLocal(before, entries)
  {
    forall id ensures GetRemoteState(entries, id) == GetRemoteState(before, id) && GetLocalState(entries, id) == GetLocalState(before, id) {
      if id in touched { var k :| 0 <= k < |touched| && touched[k] == id; }
    }
  }

  lemma PendingEverywhere(before: Entries, entries: Entries, dirtied: seq<EntryId>)
    requires forall id | id !in dirtied :: GetDirtyMutation(entries, id) == GetDirtyMutation(before, id)
    requires forall k | 0 <= k < |dirtied| :: GetDirtyMutation(entries, dirtied[k]) == GetDirtyMutation(before, dirtied[k])
    ensures SamePending(before, entries)
  {
    forall id ensures GetDirtyMutation(entries, id) == GetDirtyMutation(before, id) {
      if id in dirtied { var k :| 0 <= k < |dirtied| && dirtied[k] == id; }
    }
  }

  /** A mutation that was pending before may be written again as it was. */
  lemma OldMutationIsLegal(before: Entries, started: History, history: History, id: EntryId)
    requires Invariant(before, started) && Extends(started, history)
    ensures var m := GetDirtyMutation(before, id);
      m.Some? ==> LegalMutation(history, m.value) && m.value.entryId == id && Normalize(m.value) == m.value
  {
    if id in before { assert GoodRecord(started, id, before[id]); }
  }

  lemma RecordingExtends(started: History, history: History, m: Mutation)
    requires Extends(started, history) && LegalMutation(history, m)
    ensures Extends(started, Record(history, m))
  {
  }
}

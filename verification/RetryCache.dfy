/** Optional reuse of uploaded ciphertext, capped and charged to the shared byte budget. */
module RetryCache {
  import opened ByteBudget
  import opened Common
  import opened ContentRuntime

  type BlobId = string

  datatype Entry = Entry(blobId: BlobId, vaultId: string, metadata: string, bytes: seq<nat>, reservation: ReservationId)

  /** The runtime and the cached entries, oldest first. */
  datatype Pool = Pool(runtime: Runtime, entries: seq<Entry>)

  function Total(entries: seq<Entry>): nat {
    if entries == [] then 0 else Total(entries[..|entries| - 1]) + |entries[|entries| - 1].bytes|
  }

  function Reservations(entries: seq<Entry>): (ids: seq<ReservationId>)
    ensures |ids| == |entries|
  {
    if entries == [] then [] else Reservations(entries[..|entries| - 1]) + [entries[|entries| - 1].reservation]
  }

  lemma ReservationAt(entries: seq<Entry>)
    ensures forall k | 0 <= k < |entries| :: Reservations(entries)[k] == entries[k].reservation
  {
  }

  function Find(entries: seq<Entry>, blobId: BlobId): (k: Option<nat>)
    ensures k.Some? ==> k.value < |entries| && entries[k.value].blobId == blobId
    ensures k.None? ==> forall e | e in entries :: e.blobId != blobId
  {
    if entries == [] then None
    else if entries[|entries| - 1].blobId == blobId then Some(|entries| - 1)
    else Find(entries[..|entries| - 1], blobId)
  }

  function DropAt(entries: seq<Entry>, k: nat): seq<Entry>
    requires k < |entries|
  {
    entries[..k] + entries[k + 1..]
  }

  // ---------------------------------------------------------------- the specification

  /** Dropping an entry unregisters it and returns its reservation. */
  function DeletedAt(p: Pool, k: nat): Pool
    requires k < |p.entries| && p.entries[k].reservation in p.runtime.owned
  {
    var id := p.entries[k].reservation;
    Pool(ReleasedBy(p.runtime.(reclaimable := RemoveFrom(p.runtime.reclaimable, id)), id), DropAt(p.entries, k))
  }

  ghost predicate Apart(entries: seq<Entry>) {
    forall i, j | 0 <= i < j < |entries| ::
      entries[i].blobId != entries[j].blobId && entries[i].reservation != entries[j].reservation
  }

  ghost predicate Backed(r: Runtime, e: Entry) {
    Held(r, e.reservation) && r.owned[e.reservation].size == |e.bytes|
  }

  ghost predicate AllBacked(r: Runtime, entries: seq<Entry>) { forall e | e in entries :: Backed(r, e) }

  /** Entries, registrations and live reservations correspond one to one, in the same order. */
  ghost predicate Linked(p: Pool, cap: nat) {
    && Sound(p.runtime)
    && Apart(p.entries)
    && AllBacked(p.runtime, p.entries)
    && p.runtime.reclaimable == Reservations(p.entries)
    && Total(p.entries) <= cap
  }

  ghost function Deleted(p: Pool, cap: nat, blobId: BlobId): Pool
    requires Linked(p, cap)
  {
    var k := Find(p.entries, blobId);
    if k.None? then p
    else
      assert Backed(p.runtime, p.entries[k.value]);
      DeletedAt(p, k.value)
  }

  lemma TotalOfAppend(a: seq<Entry>, b: seq<Entry>)
    ensures Total(a + b) == Total(a) + Total(b)
  {
    if b == [] {
      assert a + b == a;
    } else {
      assert (a + b)[..|a + b| - 1] == a + b[..|b| - 1];
      TotalOfAppend(a, b[..|b| - 1]);
    }
  }

  lemma TotalWithout(entries: seq<Entry>, k: nat)
    requires k < |entries|
    ensures Total(DropAt(entries, k)) == Total(entries) - |entries[k].bytes|
  {
    assert entries == entries[..k] + [entries[k]] + entries[k + 1..];
    TotalOfAppend(entries[..k] + [entries[k]], entries[k + 1..]);
    TotalOfAppend(entries[..k], [entries[k]]);
    TotalOfAppend(entries[..k], entries[k + 1..]);
    assert Total([entries[k]]) == |entries[k].bytes|;
  }

  ghost predicate AllDiffer(ids: seq<ReservationId>) {
    forall i, j | 0 <= i < j < |ids| :: ids[i] != ids[j]
  }

  lemma {:induction false} RemoveAt(ids: seq<ReservationId>, k: nat)
    requires k < |ids| && AllDiffer(ids)
    ensures RemoveFrom(ids, ids[k]) == ids[..k] + ids[k + 1..]
  {
    if k > 0 {
      RemoveAt(ids[1..], k - 1);
      assert ids == [ids[0]] + ids[1..];
      assert ids[..k] == [ids[0]] + ids[1..][..k - 1];
      assert ids[k + 1..] == ids[1..][k..];
    }
  }

  lemma DroppedMember(entries: seq<Entry>, k: nat, e: Entry)
    requires Apart(entries) && k < |entries| && e in DropAt(entries, k)
    ensures e in entries && e.blobId != entries[k].blobId && e.reservation != entries[k].reservation
  {
    var rest := DropAt(entries, k);
    var i :| 0 <= i < |rest| && rest[i] == e;
    assert e == entries[if i < k then i else i + 1];
  }

  lemma DropKeepsApart(entries: seq<Entry>, k: nat)
    requires Apart(entries) && k < |entries|
    ensures Apart(DropAt(entries, k))
  {
    var rest := DropAt(entries, k);
    forall i, j | 0 <= i < j < |rest|
      ensures rest[i].blobId != rest[j].blobId && rest[i].reservation != rest[j].reservation
    {
      assert rest[i] == entries[if i < k then i else i + 1] && rest[j] == entries[if j < k then j else j + 1];
    }
  }

  lemma {:induction false} ReservationsOfAppend(a: seq<Entry>, b: seq<Entry>)
    ensures Reservations(a + b) == Reservations(a) + Reservations(b)
  {
    if b == [] {
      assert a + b == a;
    } else {
      assert (a + b)[..|a + b| - 1] == a + b[..|b| - 1];
      ReservationsOfAppend(a, b[..|b| - 1]);
    }
  }

  lemma ApartMeansDifferentReservations(entries: seq<Entry>)
    requires Apart(entries)
    ensures AllDiffer(Reservations(entries))
  {
    ReservationAt(entries);
  }

  lemma CutMiddle<T>(a: seq<T>, x: T, b: seq<T>)
    ensures (a + [x] + b)[..|a|] == a && (a + [x] + b)[|a| + 1..] == b && (a + [x] + b)[|a|] == x
  {
  }

  lemma MiddleRegistration(before: seq<Entry>, e: Entry, after: seq<Entry>)
    requires AllDiffer(Reservations(before + [e] + after))
    ensures RemoveFrom(Reservations(before + [e] + after), e.reservation) == Reservations(before + after)
  {
    assert Reservations([e]) == [e.reservation];
    hide AllDiffer, RemoveFrom, Reservations;
    ReservationsOfAppend(before, after);
    ReservationsOfAppend(before + [e], after);
    ReservationsOfAppend(before, [e]);
    CutMiddle(Reservations(before), e.reservation, Reservations(after));
    RemoveAt(Reservations(before + [e] + after), |before|);
  }

  lemma DropRemovesRegistration(entries: seq<Entry>, k: nat)
    requires Apart(entries) && k < |entries|
    ensures RemoveFrom(Reservations(entries), entries[k].reservation) == Reservations(DropAt(entries, k))
  {
    ApartMeansDifferentReservations(entries);
    hide *;
    SplitAt(entries, k);
    MiddleRegistration(entries[..k], entries[k], entries[k + 1..]);
    DropAtIs(entries, k);
  }

  lemma SplitAt<T>(s: seq<T>, k: nat)
    requires k < |s|
    ensures s == s[..k] + [s[k]] + s[k + 1..]
  {
  }

  lemma DropAtIs(entries: seq<Entry>, k: nat)
    requires k < |entries|
    ensures DropAt(entries, k) == entries[..k] + entries[k + 1..]
  {
  }

  lemma RegistrationsDoNotMatter(r: Runtime, ids: seq<ReservationId>)
    requires Sound(r)
    ensures Sound(r.(reclaimable := ids))
    ensures forall id :: Held(r.(reclaimable := ids), id) == Held(r, id)
  {
    assert forall hold :: Known(r.(reclaimable := ids), hold) == Known(r, hold);
  }

  /** Dropping one entry keeps all the others, their registrations and their bytes. */
  lemma DeletedIsLinked(p: Pool, cap: nat, k: nat)
    requires Linked(p, cap) && k < |p.entries|
    ensures p.entries[k].reservation in p.runtime.owned && Linked(DeletedAt(p, k), cap)
    ensures Held(p.runtime, p.entries[k].reservation)
    ensures Total(DeletedAt(p, k).entries) == Total(p.entries) - |p.entries[k].bytes|
  {
    var id := p.entries[k].reservation;
    assert p.entries[k] in p.entries && Backed(p.runtime, p.entries[k]);
    var without := p.runtime.(reclaimable := RemoveFrom(p.runtime.reclaimable, id));
    RegistrationsDoNotMatter(p.runtime, RemoveFrom(p.runtime.reclaimable, id));
    ReleasedByIsSound(without, id);
    TotalWithout(p.entries, k);
    DropKeepsApart(p.entries, k);
    DropRemovesRegistration(p.entries, k);
    hide Sound, ReleasedBy, Held, DropAt, Apart, Reservations, RemoveFrom;
    forall e | e in DropAt(p.entries, k) ensures Backed(DeletedAt(p, k).runtime, e) {
      DroppedMember(p.entries, k, e);
      assert Backed(p.runtime, e);
      ReleaseKeepsSizes(without, id, e.reservation);
    }
    ReleaseKeepsRegistrations(without, id);
  }

  lemma ReleaseKeepsSizes(r: Runtime, id: ReservationId, other: ReservationId)
    requires id in r.owned && Held(r, other)
    ensures other in r.owned && other in ReleasedBy(r, id).owned
    ensures ReleasedBy(r, id).owned[other].size == r.owned[other].size
  {
  }

  lemma ReleaseKeepsRegistrations(r: Runtime, id: ReservationId)
    requires id in r.owned
    ensures ReleasedBy(r, id).reclaimable == r.reclaimable
  {
  }

  /** Drops the oldest entries until the new bytes fit under the cap. */
  ghost function Evicted(p: Pool, cap: nat, size: nat): Pool
    requires Linked(p, cap)
    decreases |p.entries|
  {
    if Total(p.entries) + size <= cap || p.entries == [] then p
    else
      DeletedIsLinked(p, cap, 0);
      Evicted(DeletedAt(p, 0), cap, size)
  }

  lemma {:induction false} EvictedFits(p: Pool, cap: nat, size: nat) returns (n: nat)
    requires Linked(p, cap) && size <= cap
    ensures Linked(Evicted(p, cap, size), cap) && Total(Evicted(p, cap, size).entries) + size <= cap
    ensures n <= |p.entries| && Evicted(p, cap, size).entries == p.entries[n..]
    decreases |p.entries|
  {
    hide Linked;
    if Total(p.entries) + size <= cap || p.entries == [] {
      n := 0;
    } else {
      DeletedIsLinked(p, cap, 0);
      var m := EvictedFits(DeletedAt(p, 0), cap, size);
      n := m + 1;
    }
  }

  ghost function With(r: Runtime, entries: seq<Entry>, entry: Entry): Pool {
    Pool(r.(reclaimable := r.reclaimable + [entry.reservation]), entries + [entry])
  }

  ghost function Added(p: Pool, blobId: BlobId, vaultId: string, metadata: string, bytes: seq<nat>): Pool {
    With(TriedAdmits(p.runtime, |bytes|), p.entries, Entry(blobId, vaultId, metadata, bytes, p.runtime.nextId))
  }

  lemma TriedKeepsHeld(r: Runtime, size: nat, id: ReservationId)
    requires Sound(r) && Held(r, id)
    ensures id != r.nextId && Held(TriedAdmits(r, size), id) && TriedAdmits(r, size).owned[id] == r.owned[id]
  {
    var k := IndexOf(r.budget.live, id);
    assert TriedAdmits(r, size).budget.live[k].id == id;
  }

  lemma TriedIsHeld(r: Runtime, size: nat)
    ensures Held(TriedAdmits(r, size), r.nextId) && TriedAdmits(r, size).owned[r.nextId].size == size
  {
    assert TriedAdmits(r, size).budget.live[|r.budget.live|].id == r.nextId;
  }

  lemma AppendKeepsApart(entries: seq<Entry>, entry: Entry)
    requires Apart(entries)
    requires forall e | e in entries :: e.blobId != entry.blobId && e.reservation != entry.reservation
    ensures Apart(entries + [entry])
    ensures Reservations(entries + [entry]) == Reservations(entries) + [entry.reservation]
    ensures Total(entries + [entry]) == Total(entries) + |entry.bytes|
  {
    assert (entries + [entry])[..|entries|] == entries;
  }

  lemma AddedIsLinked(p: Pool, cap: nat, blobId: BlobId, vaultId: string, metadata: string, bytes: seq<nat>)
    requires Linked(p, cap) && Total(p.entries) + |bytes| <= cap
    requires !p.runtime.budget.disposed && AdmitsNow(p.runtime.budget, |bytes|)
    requires forall e | e in p.entries :: e.blobId != blobId
    ensures Linked(Added(p, blobId, vaultId, metadata, bytes), cap)
  {
    var next := Added(p, blobId, vaultId, metadata, bytes);
    var entry := Entry(blobId, vaultId, metadata, bytes, p.runtime.nextId);
    var admitted := TriedAdmits(p.runtime, |bytes|);
    TriedIsSound(p.runtime, |bytes|);
    TriedIsHeld(p.runtime, |bytes|);
    TriedKeepsRegistrations(p.runtime, |bytes|);
    RegistrationsDoNotMatter(admitted, next.runtime.reclaimable);
    hide Sound, Held, TriedAdmits, AdmitsNow, Total, Reservations, Apart;
    forall e | e in p.entries ensures e.reservation != p.runtime.nextId && Backed(next.runtime, e) {
      assert Backed(p.runtime, e);
      TriedKeepsHeld(p.runtime, |bytes|, e.reservation);
    }
    AppendKeepsApart(p.entries, entry);
    assert Backed(next.runtime, entry);
  }

  // ---------------------------------------------------------------- reclaiming

  /** Gives up cached entries, oldest first, while anybody waits for bytes. */
  ghost function Reclaimed(p: Pool, cap: nat): Pool
    requires Linked(p, cap)
    decreases |p.entries|
  {
    if p.runtime.budget.waiting == [] || p.entries == [] then p
    else
      DeletedIsLinked(p, cap, 0);
      Reclaimed(DeletedAt(p, 0), cap)
  }

  /** Optional content never keeps active work waiting: reclaiming ends with an empty queue or an empty cache. */
  lemma {:induction false} ReclaimingServesWaiters(p: Pool, cap: nat)
    requires Linked(p, cap)
    ensures var q := Reclaimed(p, cap);
      Linked(q, cap) && (q.runtime.budget.waiting == [] || q.entries == [])
    decreases |p.entries|
  {
    if p.runtime.budget.waiting != [] && p.entries != [] {
      DeletedIsLinked(p, cap, 0);
      ReclaimingServesWaiters(DeletedAt(p, 0), cap);
    }
  }

  // ---------------------------------------------------------------- conservation

  ghost predicate Charged(holds: seq<Hold>, entries: seq<Entry>) {
    && Distinct(holds)
    && Apart(entries)
    && (forall e | e in entries :: Hold(e.reservation, |e.bytes|) in holds)
  }

  /** Taking one charge out of the live reservations. */
  lemma ChargeLeaves(holds: seq<Hold>, entries: seq<Entry>)
    requires Charged(holds, entries) && entries != []
    ensures var last := entries[|entries| - 1];
      var less := Without(holds, last.reservation);
      && Charged(less, entries[..|entries| - 1])
      && Sum(holds) == Sum(less) + |last.bytes| && |holds| == |less| + 1
      && !Holds(less, last.reservation)
      && forall hold | hold in less :: hold in holds
  {
    var init, last := entries[..|entries| - 1], entries[|entries| - 1];
    var id := last.reservation;
    assert last in entries;
    TakeOut(holds, Hold(id, |last.bytes|));
    hide Without, Distinct, Holds;
    forall e | e in init ensures e.reservation != id && e in entries {
      var i :| 0 <= i < |init| && init[i] == e;
      assert entries[i] == e;
    }
    assert Apart(init);
  }

  lemma {:induction false} ChargesSplit(holds: seq<Hold>, entries: seq<Entry>) returns (rest: seq<Hold>)
    requires Charged(holds, entries)
    ensures Sum(holds) == Total(entries) + Sum(rest)
    ensures |holds| == |entries| + |rest|
    ensures forall e | e in entries :: !Holds(rest, e.reservation)
    ensures forall hold | hold in rest :: hold in holds
    decreases |entries|
  {
    hide Charged, Without, Sum;
    if entries == [] {
      rest := holds;
    } else {
      var init, last := entries[..|entries| - 1], entries[|entries| - 1];
      ChargeLeaves(holds, entries);
      var less := Without(holds, last.reservation);
      rest := ChargesSplit(less, init);
      forall k | 0 <= k < |rest| ensures rest[k].id != last.reservation {
        assert rest[k] in rest;
        var j :| 0 <= j < |less| && less[j] == rest[k];
      }
      assert entries == init + [last];
    }
  }

  /** Conservation: the reserved bytes are the cached bytes plus the bytes of the live reservations that are not cached. */
  lemma CachedBytesAreReserved(p: Pool, cap: nat) returns (rest: seq<Hold>)
    requires Linked(p, cap)
    ensures Sum(p.runtime.budget.live) == Total(p.entries) + Sum(rest)
    ensures |p.runtime.budget.live| == |p.entries| + |rest|
    ensures forall e | e in p.entries :: !Holds(rest, e.reservation)
    ensures forall hold | hold in rest :: hold in p.runtime.budget.live
  {
    var live := p.runtime.budget.live;
    WithoutKeepsDistinct(p.runtime.budget, 0);
    assert Distinct(live) by {
      assert forall i | 0 <= i < |live| :: (live + p.runtime.budget.waiting)[i] == live[i];
    }
    forall e | e in p.entries ensures Hold(e.reservation, |e.bytes|) in live {
      assert Held(p.runtime, e.reservation);
      var k := IndexOf(live, e.reservation);
      assert live[k] == (live + p.runtime.budget.waiting)[k];
      assert Known(p.runtime, live[k]);
    }
    rest := ChargesSplit(live, p.entries);
  }

  // ---------------------------------------------------------------- the class

  class PushBlobRetryCache {
    const runtime: SyncContentRuntime
    const maxBytes: nat
    var entries: seq<Entry>
    var retainedBytes: int

    ghost function Value(): Pool
      reads this, runtime, runtime.byteBudget
    {
      Pool(runtime.Value(), entries)
    }

    ghost predicate Valid()
      reads this, runtime, runtime.byteBudget
    {
      runtime.Valid() && retainedBytes == Total(entries) && Linked(Value(), maxBytes)
    }

    constructor (contentRuntime: SyncContentRuntime, cap: nat)
      requires contentRuntime.Valid() && contentRuntime.reclaimable == []
      ensures Valid() && runtime == contentRuntime && maxBytes == cap && entries == []
    {
      runtime, maxBytes := contentRuntime, cap;
      entries, retainedBytes := [], 0;
    }

    /** Ciphertext is reused only for the same vault and the same sealed metadata. */
    method Get(blobId: BlobId, metadata: string, vaultId: string) returns (bytes: Option<seq<nat>>)
      requires Valid()
      ensures bytes.Some? <==> exists e | e in entries :: e.blobId == blobId != "" && e.vaultId == vaultId && e.metadata == metadata
      ensures forall e | e in entries && e.blobId == blobId && bytes.Some? :: bytes == Some(e.bytes)
    {
      var k := if blobId != "" then Find(entries, blobId) else None;
      if k.Some? && entries[k.value].vaultId == vaultId && entries[k.value].metadata == metadata {
        assert entries[k.value] in entries;
        return Some(entries[k.value].bytes);
      }
      return None;
    }

    method Delete(blobId: BlobId)
      requires Valid()
      modifies this, runtime, runtime.byteBudget
      ensures Valid() && Value() == Deleted(old(Value()), maxBytes, blobId)
      ensures forall e | e in entries :: e in old(entries) && e.blobId != blobId
    {
      var k := Find(entries, blobId);
      if k.None? {
        return;
      }
      var entry := entries[k.value];
      DeletedIsLinked(Value(), maxBytes, k.value);
      forall e | e in DropAt(entries, k.value) ensures e in entries && e.blobId != blobId {
        DroppedMember(entries, k.value, e);
      }
      hide Sound, Linked, ReleasedBy, Held, DropAt;
      RegistrationsDoNotMatter(runtime.Value(), RemoveFrom(runtime.reclaimable, entry.reservation));
      entries := DropAt(entries, k.value);
      retainedBytes := retainedBytes - |entry.bytes|;
      runtime.UnregisterIdleContent(entry.reservation);
      runtime.Release(entry.reservation);
    }

    /** Deletes the oldest entry. */
    method DeleteOldest()
      requires Valid() && entries != []
      modifies this, runtime, runtime.byteBudget
      ensures Valid() && old(entries[0].reservation in runtime.owned) && Value() == DeletedAt(old(Value()), 0)
      ensures |entries| == |old(entries)| - 1
      ensures forall e | e in entries :: e in old(entries)
    {
      FindOldest(Value(), maxBytes);
      DeletedIsLinked(Value(), maxBytes, 0);
      hide Linked;
      Delete(entries[0].blobId);
    }

    method EvictFor(size: nat)
      requires Valid() && size <= maxBytes
      modifies this, runtime, runtime.byteBudget
      ensures Valid() && Value() == Evicted(old(Value()), maxBytes, size) && Total(entries) + size <= maxBytes
      ensures forall e | e in entries :: e in old(entries)
    {
      var _ := EvictedFits(Value(), maxBytes, size);
      hide Linked;
      ghost var goal := Evicted(Value(), maxBytes, size);
      while retainedBytes + size > maxBytes
        invariant Valid() && Evicted(Value(), maxBytes, size) == goal
        invariant forall e | e in entries :: e in old(entries)
        decreases |entries|
      {
        if |entries| == 0 {
          break;
        }
        DeletedIsLinked(Value(), maxBytes, 0);
        DeleteOldest();
      }
    }

    /** Replaces the entry of the blob, evicts the oldest ones, and never waits for bytes. */
    method Put(blobId: BlobId, vaultId: string, metadata: string, bytes: seq<nat>) returns (raised: bool)
      requires Valid()
      modifies this, runtime, runtime.byteBudget
      ensures Valid()
      ensures blobId == "" ==> Value() == old(Value()) && !raised
      ensures blobId != "" && |bytes| > maxBytes ==> Value() == Deleted(old(Value()), maxBytes, blobId) && !raised
      ensures blobId != "" && |bytes| <= maxBytes ==>
        && Linked(Deleted(old(Value()), maxBytes, blobId), maxBytes)
        && var room := Evicted(Deleted(old(Value()), maxBytes, blobId), maxBytes, |bytes|);
          && raised == room.runtime.budget.disposed
          && Value() == if !raised && AdmitsNow(room.runtime.budget, |bytes|)
              then Added(room, blobId, vaultId, metadata, bytes) else room
    {
      raised := false;
      if blobId == "" {
        return;
      }
      Delete(blobId);
      if |bytes| > maxBytes {
        return;
      }
      EvictFor(|bytes|);
      raised := Charge(blobId, vaultId, metadata, bytes);
    }

    /** Stores an entry whose reservation has been admitted, and registers it for reclaiming. */
    method Insert(entry: Entry)
      requires runtime.Valid() && retainedBytes == Total(entries) && entry.reservation !in runtime.reclaimable
      requires Linked(With(runtime.Value(), entries, entry), maxBytes)
      modifies this`entries, this`retainedBytes, runtime`reclaimable
      ensures Valid() && Value() == With(old(runtime.Value()), old(entries), entry)
    {
      TotalOfAppend(entries, [entry]);
      assert Total([entry]) == |entry.bytes|;
      hide Linked, Total;
      entries := entries + [entry];
      retainedBytes := retainedBytes + |entry.bytes|;
      runtime.RegisterIdleContent(entry.reservation);
    }

    /** Adds the entry when its bytes are admitted at once. */
    method Charge(blobId: BlobId, vaultId: string, metadata: string, bytes: seq<nat>) returns (raised: bool)
      requires Valid() && Total(entries) + |bytes| <= maxBytes
      requires forall e | e in entries :: e.blobId != blobId
      modifies this, runtime, runtime.byteBudget
      ensures Valid() && raised == old(runtime.byteBudget.disposed)
      ensures Value() == if !raised && AdmitsNow(old(Value()).runtime.budget, |bytes|)
        then Added(old(Value()), blobId, vaultId, metadata, bytes) else old(Value())
    {
      ghost var before := Value();
      IdsAreFresh(before, maxBytes);
      TriedKeepsRegistrations(before.runtime, |bytes|);
      if !before.runtime.budget.disposed && AdmitsNow(before.runtime.budget, |bytes|) {
        AddedIsLinked(before, maxBytes, blobId, vaultId, metadata, bytes);
      }
      hide Linked, Sound, Total, TriedAdmits, AdmitsNow, Good, Sum;
      var admitted, id;
      admitted, id, raised := runtime.TryReserve(|bytes|);
      if admitted {
        Insert(Entry(blobId, vaultId, metadata, bytes, id));
      }
    }

    /** The runtime's reclaim loop: while reservations wait, the first registered content is discarded. */
    method ReclaimIdleContent()
      requires Valid()
      modifies this, runtime, runtime.byteBudget
      ensures Valid() && Value() == Reclaimed(old(Value()), maxBytes)
      ensures runtime.byteBudget.waiting == [] || entries == []
    {
      ghost var goal := Reclaimed(Value(), maxBytes);
      ReclaimingServesWaiters(Value(), maxBytes);
      while |runtime.byteBudget.waiting| > 0 && |runtime.reclaimable| > 0
        invariant Valid() && Reclaimed(Value(), maxBytes) == goal
        decreases |entries|
      {
        DeletedIsLinked(Value(), maxBytes, 0);
        DeleteOldest();
      }
    }
  }

  lemma TriedKeepsRegistrations(r: Runtime, size: nat)
    ensures TriedAdmits(r, size).reclaimable == r.reclaimable
  {
  }

  lemma IdsAreFresh(p: Pool, cap: nat)
    requires Linked(p, cap)
    ensures p.runtime.nextId !in p.runtime.reclaimable
  {
    ReservationAt(p.entries);
    forall k | 0 <= k < |p.entries| ensures p.runtime.reclaimable[k] != p.runtime.nextId {
      assert p.entries[k] in p.entries && Backed(p.runtime, p.entries[k]);
    }
  }

  lemma FindOldest(p: Pool, cap: nat)
    requires Linked(p, cap) && p.entries != []
    ensures Find(p.entries, p.entries[0].blobId) == Some(0)
  {
    assert p.entries[0] in p.entries;
  }
}

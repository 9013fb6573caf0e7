/** What is cached after each event: what a write keeps, evicts and stores, and what the reclaim loop discards. */
module CacheOutcome {
  import opened ByteBudget
  import opened Common
  import opened ContentRuntime
  import opened ReclaimLoop
  import opened RetryCache

  function Except(entries: seq<Entry>, blobId: BlobId): seq<Entry> {
    if entries == [] then []
    else if entries[0].blobId == blobId then Except(entries[1..], blobId)
    else [entries[0]] + Except(entries[1..], blobId)
  }

  lemma {:induction false} ExceptNone(entries: seq<Entry>, blobId: BlobId)
    requires forall e | e in entries :: e.blobId != blobId
    ensures Except(entries, blobId) == entries
  {
    if entries != [] {
      assert entries[0] in entries;
      ExceptNone(entries[1..], blobId);
      assert entries == [entries[0]] + entries[1..];
    }
  }

  lemma {:induction false} ExceptAt(entries: seq<Entry>, k: nat)
    requires k < |entries| && Apart(entries)
    ensures Except(entries, entries[k].blobId) == DropAt(entries, k)
  {
    var rest := entries[1..];
    if k == 0 {
      ExceptNone(rest, entries[0].blobId);
      assert DropAt(entries, 0) == rest;
    } else {
      ExceptAt(rest, k - 1);
      assert DropAt(entries, k) == [entries[0]] + DropAt(rest, k - 1);
    }
  }

  lemma DeletedIsExcept(p: Pool, cap: nat, blobId: BlobId)
    requires Linked(p, cap)
    ensures Deleted(p, cap, blobId).entries == Except(p.entries, blobId)
  {
    var k := Find(p.entries, blobId);
    if k.None? {
      ExceptNone(p.entries, blobId);
    } else {
      ExceptAt(p.entries, k.value);
    }
  }

  // ---------------------------------------------------------------- bytes given back

  /** Without waiters, what an entry held is free once it is dropped. */
  lemma DropFrees(p: Pool, cap: nat, k: nat)
    requires Linked(p, cap) && k < |p.entries| && Queue(p) == []
    ensures p.entries[k].reservation in p.runtime.owned
    ensures var q := DeletedAt(p, k);
      && Queue(q) == [] && q.runtime.budget.max == p.runtime.budget.max
      && q.runtime.budget.disposed == p.runtime.budget.disposed
      && Sum(q.runtime.budget.live) == Sum(p.runtime.budget.live) - |p.entries[k].bytes|
      && |q.runtime.budget.live| == |p.runtime.budget.live| - 1
  {
    assert p.entries[k] in p.entries && Backed(p.runtime, p.entries[k]);
    var id := p.entries[k].reservation;
    MemberIsHeld(p.runtime, id);
    WithoutTakesOne(p.runtime.budget.live, id);
    DropServesQueue(p, cap, k);
    hide Linked, Sum, Without;
  }

  /** A pool that dropped some entries without anybody waiting has the same bytes besides the cache. */
  ghost predicate Frees(p: Pool, q: Pool) {
    && Queue(q) == [] && q.runtime.budget.max == p.runtime.budget.max
    && q.runtime.budget.disposed == p.runtime.budget.disposed
    && Sum(q.runtime.budget.live) - Total(q.entries) == Sum(p.runtime.budget.live) - Total(p.entries)
    && |q.runtime.budget.live| - |q.entries| == |p.runtime.budget.live| - |p.entries|
  }

  lemma DeletedFrees(p: Pool, cap: nat, blobId: BlobId)
    requires Linked(p, cap) && Queue(p) == []
    ensures Frees(p, Deleted(p, cap, blobId))
  {
    var k := Find(p.entries, blobId);
    if k.Some? {
      DropFrees(p, cap, k.value);
      DeletedIsLinked(p, cap, k.value);
      hide Linked, ReleasedBy;
    }
  }

  lemma {:induction false} EvictedFrees(p: Pool, cap: nat, size: nat)
    requires Linked(p, cap) && Queue(p) == []
    ensures Frees(p, Evicted(p, cap, size))
    decreases |p.entries|
  {
    if Total(p.entries) + size > cap && p.entries != [] {
      DropFrees(p, cap, 0);
      DeletedIsLinked(p, cap, 0);
      assert Frees(p, DeletedAt(p, 0)) by { hide Linked, ReleasedBy; }
      EvictedFrees(DeletedAt(p, 0), cap, size);
      hide Linked, DeletedAt;
    }
  }

  /** Evicting stops as soon as the new bytes fit under the cap. */
  lemma {:induction false} EvictsNoMore(p: Pool, cap: nat, size: nat) returns (n: nat)
    requires Linked(p, cap) && size <= cap
    ensures n <= |p.entries| && Evicted(p, cap, size).entries == p.entries[n..]
    ensures Total(p.entries[n..]) + size <= cap && (n > 0 ==> Total(p.entries[n - 1..]) + size > cap)
    decreases |p.entries|
  {
    hide Linked, Total, DeletedAt;
    if Total(p.entries) + size <= cap || p.entries == [] {
      n := 0;
      assert p.entries[0..] == p.entries;
      assert p.entries == [] ==> Total(p.entries) == 0 by { NothingIsCached(); }
    } else {
      DeletedIsLinked(p, cap, 0);
      OldestIsDropped(p);
      n := EvictsNoMore(DeletedAt(p, 0), cap, size);
      ShiftedSuffix(p.entries, n);
      n := n + 1;
    }
  }

  lemma NothingIsCached()
    ensures Total([]) == 0
  {
  }

  lemma OldestIsDropped(p: Pool)
    requires p.entries != [] && p.entries[0].reservation in p.runtime.owned
    ensures DeletedAt(p, 0).entries == p.entries[1..]
  {
  }

  lemma ShiftedSuffix(entries: seq<Entry>, n: nat)
    requires entries != [] && n <= |entries| - 1
    ensures entries[1..][n..] == entries[n + 1..]
    ensures if n > 0 then entries[1..][n - 1..] == entries[n..] else entries[n..] == entries
  {
  }

  // ---------------------------------------------------------------- the events

  /** The oldest entries are gone that have to go for `size` more bytes to fit under the cap, and no others. */
  ghost predicate MakesRoom(before: seq<Entry>, after: seq<Entry>, cap: nat, size: nat) {
    exists n :: 0 <= n <= |before| && after == before[n..]
      && Total(after) + size <= cap && (n > 0 ==> Total(before[n - 1..]) + size > cap)
  }

  lemma RoomMakesRoom(p: Pool, cap: nat, blobId: BlobId, size: nat)
    requires Linked(p, cap)
    ensures var room := Room(p, cap, blobId, size);
      if size <= cap then MakesRoom(Except(p.entries, blobId), room.entries, cap, size)
      else room.entries == Except(p.entries, blobId)
    ensures Queue(p) == [] ==> Frees(p, Room(p, cap, blobId, size))
  {
    DeletedStaysLinked(p, cap, blobId);
    DeletedIsExcept(p, cap, blobId);
    var q := Deleted(p, cap, blobId);
    if Queue(p) == [] {
      DeletedFrees(p, cap, blobId);
      EvictedFrees(q, cap, size);
    }
    if size <= cap { var n := EvictsNoMore(q, cap, size); }
    hide Linked, Deleted, Evicted, Total, Sum;
  }

  /** A write replaces what is cached for the blob, and evicts the oldest entries only as far as the cap asks for it. The
      new bytes are stored as the newest entry or not at all; while nobody waits they are stored exactly when the budget
      is open and they fit beside what stays reserved, or alone. */
  lemma PutOutcome(s: State, cap: nat, blobId: BlobId, vaultId: string, metadata: string, bytes: seq<nat>)
    requires Invariant(s, cap) && blobId != ""
    ensures var t, room := Do(s, Put(blobId, vaultId, metadata, bytes), cap), Room(s.pool, cap, blobId, |bytes|).entries;
      var kept := Except(s.pool.entries, blobId);
      var entry := Entry(blobId, vaultId, metadata, bytes, s.pool.runtime.nextId);
      && (if |bytes| <= cap then MakesRoom(kept, room, cap, |bytes|) else room == kept)
      && (t.pool.entries == room || (|bytes| <= cap && t.pool.entries == room + [entry]))
      && t.closed == s.closed && t.phase == s.phase
      && (Queue(s.pool) == [] ==>
            var b, freed := s.pool.runtime.budget, Total(s.pool.entries) - Total(room);
            && Queue(t.pool) == []
            && (t.pool.entries != room <==>
                  && |bytes| <= cap && !b.disposed
                  && (Sum(b.live) - freed + |bytes| <= b.max || |b.live| == |s.pool.entries| - |room|)))
  {
    RoomStaysLinked(s.pool, cap, blobId, |bytes|);
    RoomMakesRoom(s.pool, cap, blobId, |bytes|);
    RoomKeepsIds(s.pool, cap, blobId, |bytes|);
    var room := Room(s.pool, cap, blobId, |bytes|);
    FitsExactly(room, cap, |bytes|);
    hide Linked, Room, Sum, Total, Fits, MakesRoom;
    if Fits(room, cap, |bytes|) {
      AddedKeepsQueue(room, blobId, vaultId, metadata, bytes, cap);
    }
  }

  lemma FitsExactly(room: Pool, cap: nat, size: nat)
    ensures Fits(room, cap, size) <==>
      && size <= cap && !room.runtime.budget.disposed && Queue(room) == []
      && (room.runtime.budget.live == [] || Sum(room.runtime.budget.live) + size <= room.runtime.budget.max)
  {
    assert Sum([]) == 0;
  }

  lemma AddedKeepsQueue(room: Pool, blobId: BlobId, vaultId: string, metadata: string, bytes: seq<nat>, cap: nat)
    requires Fits(room, cap, |bytes|)
    ensures Queue(Added(room, blobId, vaultId, metadata, bytes)) == [] && |bytes| <= cap
  {
  }

  lemma {:induction false} EvictedKeepsIds(p: Pool, cap: nat, size: nat)
    requires Linked(p, cap)
    ensures Evicted(p, cap, size).runtime.nextId == p.runtime.nextId
    decreases |p.entries|
  {
    if Total(p.entries) + size > cap && p.entries != [] {
      DeletedIsLinked(p, cap, 0);
      EvictedKeepsIds(DeletedAt(p, 0), cap, size);
    }
  }

  lemma RoomKeepsIds(p: Pool, cap: nat, blobId: BlobId, size: nat)
    requires Linked(p, cap)
    ensures Room(p, cap, blobId, size).runtime.nextId == p.runtime.nextId
  {
    DeletedStaysLinked(p, cap, blobId);
    EvictedKeepsIds(Deleted(p, cap, blobId), cap, size);
  }

  /** What the loop does when it looks: while somebody waits and something is cached it discards the oldest entry, and it
      discards nothing otherwise. */
  ghost predicate Looks(before: State, waits: bool, after: State) {
    if waits && before.pool.entries != [] then after.pool.entries == before.pool.entries[1..] && after.phase.Suspended?
    else after.pool.entries == before.pool.entries && after.phase == (if waits || before.phase.Suspended? then Ending else Resting)
  }

  /** The cache loses an entry only to a deletion, to a write, or, the oldest first and one a turn, to the loop while
      somebody waits. A reservation waits exactly when somebody waits already or it does not fit. */
  lemma EventOutcome(s: State, e: Event, cap: nat)
    requires Invariant(s, cap) && Enabled(s, e) && !e.Put?
    ensures var t, b := Do(s, e, cap), s.pool.runtime.budget;
      match e
      case Reserve(size) =>
        var waits := b.waiting != [] || (b.live != [] && Sum(b.live) + size > b.max);
        if s.phase.Resting? && !s.closed then Looks(s, waits, t)
        else t.pool.entries == s.pool.entries && t.phase == s.phase
      case Resume => Looks(s, Queue(s.pool) != [], t)
      case Finish =>
        if s.closed || s.pool.entries == [] then t.pool == s.pool && t.phase.Resting?
        else Looks(s.(phase := Resting), Queue(s.pool) != [], t)
      case Delete(blobId) => t.pool.entries == Except(s.pool.entries, blobId) && t.phase == s.phase
      case _ => t.pool.entries == s.pool.entries && t.phase == s.phase
    ensures Do(s, e, cap).closed == (s.closed || e.Close?)
  {
    match e
    case Reserve(size) =>
      NextIdIsFresh(s.pool.runtime);
      AdmittedExactly(s.pool.runtime.budget, Hold(s.pool.runtime.nextId, size));
      var asked := s.(pool := s.pool.(runtime := Requesting(s.pool.runtime, size)));
      RequestedStaysLinked(s.pool, cap, size);
      assert Queue(asked.pool) == Acquired(s.pool.runtime.budget, Hold(s.pool.runtime.nextId, size)).waiting;
      hide Linked, Requesting, Sum, Acquired;
      TurnLooks(asked, cap);
    case Resume => TurnLooks(s, cap);
    case Finish => TurnLooks(s, cap); TurnLooks(s.(phase := Resting), cap);
    case Delete(blobId) => DeletedIsExcept(s.pool, cap, blobId);
    case _ =>
  }

  lemma TurnLooks(s: State, cap: nat)
    requires Linked(s.pool, cap)
    ensures var t := Turn(s, cap);
      && t.closed == s.closed
      && if Queue(s.pool) != [] && s.pool.entries != []
         then t.pool.entries == s.pool.entries[1..] && t.phase.Suspended?
         else t.pool == s.pool && t.phase.Ending?
  {
    if Queue(s.pool) != [] && s.pool.entries != [] {
      DeletedIsLinked(s.pool, cap, 0);
      assert DropAt(s.pool.entries, 0) == s.pool.entries[1..];
    }
  }

  /** Somebody else's release and growth, and closing, reach the budget. */
  lemma RuntimeOutcome(s: State, e: Event, cap: nat)
    requires Invariant(s, cap) && Enabled(s, e) && (e.Release? || e.Retain? || e.Close?)
    ensures var r, q := s.pool.runtime, Do(s, e, cap).pool.runtime;
      match e
      case Release(id) => !Holds(q.budget.live + q.budget.waiting, id) && id in q.owned && q.owned[id].released
      case Retain(id, more) =>
        && id in r.owned && id in q.owned && q.owned[id].retained == r.owned[id].retained + more
        && q.owned[id].size == Max(r.owned[id].size, q.owned[id].retained)
        && Held(q, id) && SizeOf(q.budget.live, id) == q.owned[id].size
      case Close(ownsBudget) =>
        if ownsBudget then q.budget.disposed && q.budget.waiting == [] && q.budget.live == r.budget.live
        else q == r
      case _ => true
  {
    match e
    case Release(id) => ReleasedByIsSound(s.pool.runtime, id);
    case Retain(id, more) =>
      RetainedByIsSound(s.pool.runtime, id, more);
      MemberIsHeld(RetainedBy(s.pool.runtime, id, more), id);
      RetainGrows(s.pool.runtime, id, more);
    case Close(ownsBudget) =>
  }

  /** A reservation is charged with the larger of its estimate and all it has retained. */
  lemma RetainGrows(r: Runtime, id: ReservationId, more: nat)
    requires id in r.owned && r.owned[id].retained <= r.owned[id].size && !r.owned[id].released
    ensures var q := RetainedBy(r, id, more);
      && id in q.owned && q.owned[id].retained == r.owned[id].retained + more && !q.owned[id].released
      && q.owned[id].size == Max(r.owned[id].size, q.owned[id].retained)
  {
  }

  /** A released reservation takes nothing more, and a live one takes every count of bytes below two to the 53rd. */
  lemma RetainRefuses(r: Runtime, id: ReservationId, bytes: int)
    requires id in r.owned
    ensures RetainRaises(r, id, bytes) <==> r.owned[id].released || bytes < 0 || bytes >= 0x20_0000_0000_0000
  {
  }
}

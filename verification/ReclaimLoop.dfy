/**
 The loop that discards cached content while somebody waits for bytes. It gives up the turn after every discard, so
 reservations, releases and cache writes happen in between; when it ends, it looks again one turn later.
 */
module ReclaimLoop {
  import opened ByteBudget
  import opened Common
  import opened ContentRuntime
  import opened RetryCache

  /** No loop; a loop between two discards; a loop that has ended and has not looked again yet. */
  datatype Phase = Resting | Suspended | Ending

  datatype State = State(pool: Pool, phase: Phase, closed: bool)

  datatype Event =
    | Reserve(size: nat)
    | Release(id: ReservationId)
    | Retain(id: ReservationId, more: nat)
    | Put(blobId: BlobId, vaultId: string, metadata: string, bytes: seq<nat>)
    | Delete(blobId: BlobId)
    | Resume
    | Finish
    | Close(ownsBudget: bool)

  function Queue(p: Pool): seq<Hold> { p.runtime.budget.waiting }

  // ---------------------------------------------------------------- steps

  /** The loop up to its next discard, or to its end. */
  ghost function Turn(s: State, cap: nat): State
    requires Linked(s.pool, cap)
  {
    if Queue(s.pool) == [] || s.pool.entries == [] then s.(phase := Ending)
    else
      DeletedIsLinked(s.pool, cap, 0);
      s.(pool := DeletedAt(s.pool, 0), phase := Suspended)
  }

  ghost function Start(s: State, cap: nat): State
    requires Linked(s.pool, cap)
  {
    if !s.phase.Resting? || s.closed || Queue(s.pool) == [] then s else Turn(s, cap)
  }

  /** What a cache write finds: the blob dropped, and the oldest entries evicted unless it is too large anyway. */
  ghost function Room(p: Pool, cap: nat, blobId: BlobId, size: nat): Pool
    requires Linked(p, cap)
  {
    DeletedStaysLinked(p, cap, blobId);
    if size > cap then Deleted(p, cap, blobId) else Evicted(Deleted(p, cap, blobId), cap, size)
  }

  /** The new entry is admitted at once; a cache never waits. */
  ghost predicate Fits(room: Pool, cap: nat, size: nat) {
    size <= cap && !room.runtime.budget.disposed && AdmitsNow(room.runtime.budget, size)
  }

  /** Somebody else's reservation. */
  ghost predicate IsForeign(p: Pool, id: ReservationId) {
    Held(p.runtime, id) && forall e | e in p.entries :: e.reservation != id
  }

  ghost predicate Enabled(s: State, e: Event) {
    match e
    case Reserve(_) => !s.pool.runtime.budget.disposed
    case Release(id) => IsForeign(s.pool, id)
    case Retain(id, _) => IsForeign(s.pool, id)
    case Resume => s.phase.Suspended?
    case Finish => s.phase.Ending?
    case _ => true
  }

  ghost function Do(s: State, e: Event, cap: nat): State
    requires Linked(s.pool, cap) && Enabled(s, e)
  {
    match e
    case Reserve(size) =>
      RequestedStaysLinked(s.pool, cap, size);
      Start(s.(pool := s.pool.(runtime := Requesting(s.pool.runtime, size))), cap)
    case Release(id) => s.(pool := s.pool.(runtime := ReleasedBy(s.pool.runtime, id)))
    case Retain(id, more) => s.(pool := s.pool.(runtime := RetainedBy(s.pool.runtime, id, more)))
    case Put(blobId, vaultId, metadata, bytes) =>
      if blobId == "" then s
      else
        RoomStaysLinked(s.pool, cap, blobId, |bytes|);
        var room := Room(s.pool, cap, blobId, |bytes|);
        if Fits(room, cap, |bytes|) then
          AddedIsLinked(room, cap, blobId, vaultId, metadata, bytes);
          Start(s.(pool := Added(room, blobId, vaultId, metadata, bytes)), cap)
        else s.(pool := room)
    case Delete(blobId) => s.(pool := Deleted(s.pool, cap, blobId))
    case Resume => Turn(s, cap)
    case Finish => if s.pool.entries == [] then s.(phase := Resting) else Start(s.(phase := Resting), cap)
    case Close(ownsBudget) =>
      var budget := if ownsBudget then Disposed(s.pool.runtime.budget) else s.pool.runtime.budget;
      s.(pool := s.pool.(runtime := s.pool.runtime.(budget := budget)), closed := true)
  }

  // ---------------------------------------------------------------- the links stay

  /** Entries stay backed while their reservations stay held at their size. */
  lemma StaysLinked(p: Pool, cap: nat, next: Runtime)
    requires Linked(p, cap) && Sound(next) && next.reclaimable == p.runtime.reclaimable
    requires forall e | e in p.entries ::
      Held(next, e.reservation) && e.reservation in p.runtime.owned && next.owned[e.reservation].size == p.runtime.owned[e.reservation].size
    ensures Linked(p.(runtime := next), cap)
  {
    hide Sound, Held, Total, Reservations, Apart;
    forall e | e in p.entries ensures Backed(next, e) {
      assert Backed(p.runtime, e);
    }
  }

  lemma RequestedStaysLinked(p: Pool, cap: nat, size: nat)
    requires Linked(p, cap) && !p.runtime.budget.disposed
    ensures Linked(p.(runtime := Requesting(p.runtime, size)), cap)
  {
    var next := Requesting(p.runtime, size);
    RequestingIsSound(p.runtime, size);
    NextIdIsFresh(p.runtime);
    AcquiredIsGood(p.runtime.budget, Hold(p.runtime.nextId, size));
    forall e | e in p.entries
      ensures Held(next, e.reservation) && e.reservation in p.runtime.owned && next.owned[e.reservation].size == p.runtime.owned[e.reservation].size
    {
      assert Backed(p.runtime, e);
      HoldsGrow(p.runtime.budget.live, next.budget.live, e.reservation);
    }
    StaysLinked(p, cap, next);
  }

  lemma ReleasedStaysLinked(p: Pool, cap: nat, id: ReservationId)
    requires Linked(p, cap) && IsForeign(p, id)
    ensures Linked(p.(runtime := ReleasedBy(p.runtime, id)), cap)
  {
    var next := ReleasedBy(p.runtime, id);
    ReleasedByIsSound(p.runtime, id);
    ReleaseKeepsRegistrations(p.runtime, id);
    forall e | e in p.entries
      ensures Held(next, e.reservation) && e.reservation in p.runtime.owned && next.owned[e.reservation].size == p.runtime.owned[e.reservation].size
    {
      assert Backed(p.runtime, e);
      ReleaseKeepsSizes(p.runtime, id, e.reservation);
    }
    StaysLinked(p, cap, next);
  }

  lemma RetainedStaysLinked(p: Pool, cap: nat, id: ReservationId, more: nat)
    requires Linked(p, cap) && IsForeign(p, id)
    ensures Linked(p.(runtime := RetainedBy(p.runtime, id, more)), cap)
  {
    var next := RetainedBy(p.runtime, id, more);
    RetainedByIsSound(p.runtime, id, more);
    forall e | e in p.entries
      ensures Held(next, e.reservation) && e.reservation in p.runtime.owned && next.owned[e.reservation].size == p.runtime.owned[e.reservation].size
    {
      assert Backed(p.runtime, e);
    }
    StaysLinked(p, cap, next);
  }

  lemma DeletedStaysLinked(p: Pool, cap: nat, blobId: BlobId)
    requires Linked(p, cap)
    ensures Linked(Deleted(p, cap, blobId), cap)
    ensures forall e | e in Deleted(p, cap, blobId).entries :: e in p.entries && e.blobId != blobId
  {
    var k := Find(p.entries, blobId);
    if k.Some? {
      DeletedIsLinked(p, cap, k.value);
      forall e | e in DropAt(p.entries, k.value) ensures e in p.entries && e.blobId != blobId {
        DroppedMember(p.entries, k.value, e);
      }
    }
  }

  lemma RoomStaysLinked(p: Pool, cap: nat, blobId: BlobId, size: nat)
    requires Linked(p, cap)
    ensures var room := Room(p, cap, blobId, size);
      && Linked(room, cap) && (size <= cap ==> Total(room.entries) + size <= cap)
      && forall e | e in room.entries :: e.blobId != blobId
  {
    DeletedStaysLinked(p, cap, blobId);
    if size <= cap {
      var n := EvictedFits(Deleted(p, cap, blobId), cap, size);
    }
  }

  lemma ClosedStaysLinked(p: Pool, cap: nat)
    requires Linked(p, cap)
    ensures Linked(p.(runtime := p.runtime.(budget := Disposed(p.runtime.budget))), cap)
  {
    var b, next := p.runtime.budget, p.runtime.(budget := Disposed(p.runtime.budget));
    assert Good(next.budget) by {
      assert forall i | 0 <= i < |b.live| :: (b.live + b.waiting)[i] == b.live[i];
      assert next.budget.live + next.budget.waiting == b.live || b.disposed;
    }
    forall hold | hold in next.budget.live + next.budget.waiting ensures Known(next, hold) {
      assert hold in b.live + b.waiting && Known(p.runtime, hold);
    }
    forall e | e in p.entries
      ensures Held(next, e.reservation) && e.reservation in p.runtime.owned && next.owned[e.reservation].size == p.runtime.owned[e.reservation].size
    {
      assert Backed(p.runtime, e);
    }
    StaysLinked(p, cap, next);
  }

  // ---------------------------------------------------------------- the queue only shrinks

  lemma ReleaseServesQueue(r: Runtime, id: ReservationId)
    requires Sound(r) && id in r.owned
    ensures Queue(Pool(r, [])) == [] ==> ReleasedBy(r, id).budget.waiting == []
  {
    if !r.owned[id].released {
      WithoutKeepsDistinct(r.budget, id);
      var n := DrainAdmitsPrefix(r.budget.(live := Without(r.budget.live, id)));
    }
  }

  lemma RetainServesQueue(r: Runtime, id: ReservationId, more: nat)
    requires Sound(r) && id in r.owned
    ensures r.budget.waiting == [] ==> RetainedBy(r, id, more).budget.waiting == []
  {
    var total := r.owned[id].retained + more;
    ResizedKeepsDistinct(r.budget, id, total);
    var n := DrainAdmitsPrefix(r.budget.(live := Resized(r.budget.live, id, total)));
  }

  /** Dropping an entry frees bytes, so an empty queue stays empty. */
  lemma DropServesQueue(p: Pool, cap: nat, k: nat)
    requires Linked(p, cap) && k < |p.entries|
    ensures p.entries[k].reservation in p.runtime.owned
    ensures Queue(p) == [] ==> Queue(DeletedAt(p, k)) == []
  {
    assert Backed(p.runtime, p.entries[k]);
    var id := p.entries[k].reservation;
    RegistrationsDoNotMatter(p.runtime, RemoveFrom(p.runtime.reclaimable, id));
    ReleaseServesQueue(p.runtime.(reclaimable := RemoveFrom(p.runtime.reclaimable, id)), id);
  }

  lemma {:induction false} EvictServesQueue(p: Pool, cap: nat, size: nat)
    requires Linked(p, cap)
    ensures Queue(p) == [] ==> Queue(Evicted(p, cap, size)) == []
    ensures p.entries == [] ==> Evicted(p, cap, size) == p
    decreases |p.entries|
  {
    if Total(p.entries) + size > cap && p.entries != [] {
      DeletedIsLinked(p, cap, 0);
      DropServesQueue(p, cap, 0);
      EvictServesQueue(DeletedAt(p, 0), cap, size);
    }
  }

  ghost predicate Settled(p: Pool) { Queue(p) == [] || p.entries == [] }

  lemma DeleteKeepsSettled(p: Pool, cap: nat, blobId: BlobId)
    requires Linked(p, cap) && Settled(p)
    ensures Settled(Deleted(p, cap, blobId))
    ensures p.entries == [] ==> Deleted(p, cap, blobId) == p
    ensures Queue(p) == [] ==> Queue(Deleted(p, cap, blobId)) == []
  {
    var k := Find(p.entries, blobId);
    if k.Some? {
      DropServesQueue(p, cap, k.value);
    }
  }

  lemma RoomIsSettled(p: Pool, cap: nat, blobId: BlobId, size: nat)
    requires Linked(p, cap) && Settled(p)
    ensures Settled(Room(p, cap, blobId, size))
  {
    DeletedStaysLinked(p, cap, blobId);
    DeleteKeepsSettled(p, cap, blobId);
    EvictServesQueue(Deleted(p, cap, blobId), cap, size);
  }

  // ---------------------------------------------------------------- every run

  /** Between two loops nobody waits, or there is nothing to discard. */
  ghost predicate Invariant(s: State, cap: nat) {
    Linked(s.pool, cap) && (s.phase.Resting? && !s.closed ==> Settled(s.pool))
  }

  lemma TurnKeepsInvariant(s: State, cap: nat)
    requires Linked(s.pool, cap)
    ensures Invariant(Turn(s, cap), cap) && Invariant(Start(s, cap), cap)
  {
    if Queue(s.pool) != [] && s.pool.entries != [] {
      DeletedIsLinked(s.pool, cap, 0);
    }
  }

  lemma StepKeepsInvariant(s: State, e: Event, cap: nat)
    requires Invariant(s, cap) && Enabled(s, e)
    ensures Invariant(Do(s, e, cap), cap)
  {
    hide Linked, Requesting, ReleasedBy, RetainedBy, Deleted, Turn, Start;
    match e
    case Reserve(size) =>
      RequestedStaysLinked(s.pool, cap, size);
      TurnKeepsInvariant(s.(pool := s.pool.(runtime := Requesting(s.pool.runtime, size))), cap);
    case Release(id) => ReleaseKeepsInvariant(s, id, cap);
    case Retain(id, more) => RetainKeepsInvariant(s, id, more, cap);
    case Put(blobId, vaultId, metadata, bytes) => PutKeepsInvariant(s, blobId, vaultId, metadata, bytes, cap);
    case Delete(blobId) =>
      DeletedStaysLinked(s.pool, cap, blobId);
      if Settled(s.pool) { DeleteKeepsSettled(s.pool, cap, blobId); }
    case Resume => TurnKeepsInvariant(s, cap);
    case Finish => TurnKeepsInvariant(s.(phase := Resting), cap);
    case Close(ownsBudget) =>
      ClosedStaysLinked(s.pool, cap);
      assert s.pool.(runtime := s.pool.runtime.(budget := s.pool.runtime.budget)) == s.pool;
  }

  lemma PutKeepsInvariant(s: State, blobId: BlobId, vaultId: string, metadata: string, bytes: seq<nat>, cap: nat)
    requires Invariant(s, cap)
    ensures Invariant(Do(s, Put(blobId, vaultId, metadata, bytes), cap), cap)
  {
    if blobId != "" {
      RoomStaysLinked(s.pool, cap, blobId, |bytes|);
      var room := Room(s.pool, cap, blobId, |bytes|);
      if Fits(room, cap, |bytes|) {
        AddedIsLinked(room, cap, blobId, vaultId, metadata, bytes);
        TurnKeepsInvariant(s.(pool := Added(room, blobId, vaultId, metadata, bytes)), cap);
      } else if Settled(s.pool) {
        RoomIsSettled(s.pool, cap, blobId, |bytes|);
      }
    }
  }

  lemma ReleaseKeepsInvariant(s: State, id: ReservationId, cap: nat)
    requires Invariant(s, cap) && Enabled(s, Event.Release(id))
    ensures Invariant(Do(s, Event.Release(id), cap), cap)
  {
    ReleasedStaysLinked(s.pool, cap, id);
    ReleaseServesQueue(s.pool.runtime, id);
  }

  lemma RetainKeepsInvariant(s: State, id: ReservationId, more: nat, cap: nat)
    requires Invariant(s, cap) && Enabled(s, Retain(id, more))
    ensures Invariant(Do(s, Retain(id, more), cap), cap)
  {
    RetainedStaysLinked(s.pool, cap, id, more);
    RetainServesQueue(s.pool.runtime, id, more);
  }

  datatype Trace = Begin | Then(earlier: Trace, event: Event)

  ghost predicate Fresh(s: State) {
    && s.phase.Resting? && !s.closed && s.pool.entries == []
    && s.pool.runtime == Runtime(Budget(s.pool.runtime.budget.max, [], [], false), map[], 0, [])
  }

  ghost predicate Reaches(trace: Trace, s: State, cap: nat) {
    match trace
    case Begin => Fresh(s)
    case Then(earlier, e) =>
      exists before :: Reaches(earlier, before, cap) && Linked(before.pool, cap) && Enabled(before, e) && s == Do(before, e, cap)
  }

  /** In every reachable state, whatever reserves, releases or caches between two discards. */
  lemma {:induction false} RunKeepsInvariant(trace: Trace, s: State, cap: nat)
    requires Reaches(trace, s, cap)
    ensures Invariant(s, cap)
  {
    match trace
    case Begin =>
    case Then(earlier, e) =>
      hide Invariant, Do, Enabled, Linked;
      var before :| Reaches(earlier, before, cap) && Linked(before.pool, cap) && Enabled(before, e) && s == Do(before, e, cap);
      RunKeepsInvariant(earlier, before, cap);
      StepKeepsInvariant(before, e, cap);
  }

  /** Cached content never keeps anybody waiting for long: while a reservation waits for bytes and something can be discarded,
      a loop is on its way. */
  lemma NobodyWaitsAtRest(trace: Trace, s: State, cap: nat)
    requires Reaches(trace, s, cap) && !s.closed && Queue(s.pool) != [] && s.pool.entries != []
    ensures !s.phase.Resting?
  {
    RunKeepsInvariant(trace, s, cap);
  }

  /** So the loop has a step to take: its next turn, or its second look, which starts it again. */
  lemma WaitersAreLookedAfter(trace: Trace, s: State, cap: nat)
    requires Reaches(trace, s, cap) && !s.closed && Queue(s.pool) != [] && s.pool.entries != []
    ensures Enabled(s, Resume) || (Enabled(s, Finish) && Linked(s.pool, cap) && Do(s, Finish, cap).phase.Suspended?)
  {
    NobodyWaitsAtRest(trace, s, cap);
    RunKeepsInvariant(trace, s, cap);
    hide Linked;
  }

  /** `n` turns of the loop with nothing in between. */
  ghost function Turns(s: State, cap: nat, n: nat): State
    requires Linked(s.pool, cap)
    decreases n
  {
    if n == 0 || !s.phase.Suspended? then s
    else
      TurnKeepsInvariant(s, cap);
      Turns(Turn(s, cap), cap, n - 1)
  }

  /** Each turn discards the oldest entry, so the loop ends after at most one turn more than there are entries. */
  lemma {:induction false} LoopEnds(s: State, cap: nat)
    requires Linked(s.pool, cap) && s.phase.Suspended?
    ensures var t := Turns(s, cap, |s.pool.entries| + 1);
      t.phase.Ending? && Linked(t.pool, cap) && Settled(t.pool)
    decreases |s.pool.entries|
  {
    TurnKeepsInvariant(s, cap);
    var next := Turn(s, cap);
    if next.phase.Suspended? {
      assert |next.pool.entries| == |s.pool.entries| - 1;
      LoopEnds(next, cap);
    }
  }
}

/**
 The runtime that hands out byte reservations. A reservation is the closure record its owner
 holds; here it is kept under its id.
 */
module ContentRuntime {
  import opened ByteBudget

  const MAX_SAFE_INTEGER := 9007199254740991

  /** What a reservation's closure remembers. */
  datatype Reservation = Reservation(size: nat, retained: nat, released: bool)

  /** All reservations ever made, and the discardable contents in the order of registration;
      a content is named by the id of its reservation. */
  datatype Runtime = Runtime(budget: Budget, owned: map<ReservationId, Reservation>, nextId: ReservationId,
    reclaimable: seq<ReservationId>)

  // ---------------------------------------------------------------- the specification

  function Requesting(r: Runtime, size: nat): Runtime {
    r.(budget := Acquired(r.budget, Hold(r.nextId, size)), owned := r.owned[r.nextId := Reservation(size, 0, false)],
       nextId := r.nextId + 1)
  }

  function TriedAdmits(r: Runtime, size: nat): Runtime {
    r.(budget := Reserved(r.budget, Hold(r.nextId, size)), owned := r.owned[r.nextId := Reservation(size, 0, false)],
       nextId := r.nextId + 1)
  }

  /** A second release changes nothing. */
  function ReleasedBy(r: Runtime, id: ReservationId): Runtime
    requires id in r.owned
  {
    if r.owned[id].released then r
    else r.(budget := Released(r.budget, id), owned := r.owned[id := r.owned[id].(released := true)])
  }

  predicate RetainRaises(r: Runtime, id: ReservationId, bytes: int)
    requires id in r.owned
  {
    r.owned[id].released || bytes < 0 || bytes > MAX_SAFE_INTEGER
  }

  /** Inputs are charged against the estimate; beyond it the reservation grows without waiting. */
  function RetainedBy(r: Runtime, id: ReservationId, bytes: nat): Runtime
    requires id in r.owned
  {
    var before := r.owned[id];
    var total := before.retained + bytes;
    if total > before.size
    then r.(budget := Regrown(r.budget, id, total), owned := r.owned[id := Reservation(total, total, false)])
    else r.(owned := r.owned[id := before.(retained := total)])
  }

  function RemoveFrom(ids: seq<ReservationId>, id: ReservationId): seq<ReservationId> {
    if ids == [] then []
    else if ids[0] == id then ids[1..]
    else [ids[0]] + RemoveFrom(ids[1..], id)
  }

  // ---------------------------------------------------------------- the invariant

  ghost predicate Known(r: Runtime, hold: Hold) {
    hold.id in r.owned && !r.owned[hold.id].released && r.owned[hold.id].size == hold.bytes
  }

  /** The budget's live and waiting reservations are exactly the unreleased ones, at their current
      size; only a disposed budget has forgotten some that were still waiting. */
  ghost predicate Sound(r: Runtime) {
    && Good(r.budget)
    && (forall hold | hold in r.budget.live + r.budget.waiting :: Known(r, hold))
    && (forall id | id in r.owned :: id < r.nextId && r.owned[id].retained <= r.owned[id].size)
    && (forall id | id in r.owned && !r.owned[id].released && !r.budget.disposed :: Holds(r.budget.live + r.budget.waiting, id))
  }

  ghost predicate Held(r: Runtime, id: ReservationId) {
    id in r.owned && !r.owned[id].released && Holds(r.budget.live, id)
  }

  lemma MemberIsHeld(r: Runtime, id: ReservationId)
    requires Sound(r) && Held(r, id)
    ensures SizeOf(r.budget.live, id) == r.owned[id].size
    ensures Hold(id, r.owned[id].size) in r.budget.live + r.budget.waiting
  {
    var k := IndexOf(r.budget.live, id);
    assert (r.budget.live + r.budget.waiting)[k] == r.budget.live[k];
    assert Known(r, r.budget.live[k]);
  }

  lemma NextIdIsFresh(r: Runtime)
    requires Sound(r)
    ensures !Holds(r.budget.live + r.budget.waiting, r.nextId)
  {
    var line := r.budget.live + r.budget.waiting;
    forall k | 0 <= k < |line| ensures line[k].id != r.nextId {
      assert line[k] in line && Known(r, line[k]);
    }
  }

  lemma AppendingIsSound(r: Runtime, next: Runtime, size: nat)
    requires Sound(r) && !r.budget.disposed && Good(next.budget)
    requires next.budget.disposed == r.budget.disposed && next.nextId == r.nextId + 1
    requires next.owned == r.owned[r.nextId := Reservation(size, 0, false)]
    requires next.budget.live + next.budget.waiting == r.budget.live + r.budget.waiting + [Hold(r.nextId, size)]
    ensures Sound(next)
  {
    var before, after := r.budget.live + r.budget.waiting, next.budget.live + next.budget.waiting;
    forall hold | hold in after ensures Known(next, hold) {
      if hold in before { assert Known(r, hold); }
    }
    forall id | id in next.owned && !next.owned[id].released ensures Holds(after, id) {
      if id == r.nextId {
        assert after[|before|].id == id;
      } else {
        var k :| 0 <= k < |before| && before[k].id == id;
        assert after[k].id == id;
      }
    }
  }

  lemma RequestingIsSound(r: Runtime, size: nat)
    requires Sound(r) && !r.budget.disposed
    ensures Sound(Requesting(r, size))
  {
    NextIdIsFresh(r);
    AcquiredIsGood(r.budget, Hold(r.nextId, size));
    DisposalStays(r.budget, Hold(r.nextId, size));
    AppendingIsSound(r, Requesting(r, size), size);
  }

  lemma DisposalStays(b: Budget, hold: Hold)
    requires Good(b) && !b.disposed && !Holds(b.live + b.waiting, hold.id)
    ensures !Acquired(b, hold).disposed && Acquired(b, hold).max == b.max
  {
    var n := StepTakesFromFront(b, Acquire(hold));
  }

  lemma TriedIsSound(r: Runtime, size: nat)
    requires Sound(r) && !r.budget.disposed && AdmitsNow(r.budget, size)
    ensures Sound(TriedAdmits(r, size))
  {
    NextIdIsFresh(r);
    AcquiredIsGood(r.budget, Hold(r.nextId, size));
    AppendingIsSound(r, TriedAdmits(r, size), size);
  }

  /** Whatever leaves the line is released, and the rest stays as it was. */
  lemma ReleasedByIsSound(r: Runtime, id: ReservationId)
    requires Sound(r) && Held(r, id)
    ensures var next := ReleasedBy(r, id);
      && Sound(next) && !Holds(next.budget.live + next.budget.waiting, id)
      && next.budget.disposed == r.budget.disposed && next.budget.max == r.budget.max
    ensures forall other | other != id && Held(r, other) :: Held(ReleasedBy(r, id), other)
  {
    var b, next := r.budget, ReleasedBy(r, id);
    var less := b.(live := Without(b.live, id));
    ReleasedIsGood(b, id);
    WithoutKeepsDistinct(b, id);
    DrainKeepsAll(less);
    var before, after := b.live + b.waiting, next.budget.live + next.budget.waiting;
    assert after == less.live + less.waiting;
    forall hold ensures hold in after <==> hold in before && hold.id != id {
      WithoutMembers(b, id, hold);
    }
    hide Without, Released, Drained, Good;
    forall hold | hold in after ensures Known(next, hold) {
      assert Known(r, hold);
    }
    forall other | other in next.owned && !next.owned[other].released && !next.budget.disposed ensures Holds(after, other) {
      var k :| 0 <= k < |before| && before[k].id == other;
      assert before[k] in before && before[k] in after;
      var j :| 0 <= j < |after| && after[j] == before[k];
    }
    forall k | 0 <= k < |after| ensures after[k].id != id { assert after[k] in after; }
    forall other | other != id && Held(r, other) ensures Held(next, other) {
      StaysLive(b, id, other, next.budget);
    }
  }

  lemma StaysLive(b: Budget, id: ReservationId, other: ReservationId, next: Budget)
    requires Distinct(b.live + b.waiting) && Holds(b.live, other) && other != id
    requires Without(b.live, id) <= next.live
    ensures Holds(next.live, other)
  {
    var k := IndexOf(b.live, other);
    if Holds(b.live, id) {
      var i := IndexOf(b.live, id);
      assert Without(b.live, id)[if k < i then k else k - 1] == b.live[k];
      assert next.live[if k < i then k else k - 1] == b.live[k];
    } else {
      assert next.live[k] == b.live[k];
    }
  }

  lemma SameIdsHold(before: seq<Hold>, after: seq<Hold>, id: ReservationId)
    requires |before| <= |after| && forall k | 0 <= k < |before| :: after[k].id == before[k].id
    requires Holds(before, id)
    ensures Holds(after, id)
  {
    var k := IndexOf(before, id);
    assert after[k].id == id;
  }

  lemma GrownIsSound(r: Runtime, id: ReservationId, total: nat)
    requires Sound(r) && Held(r, id)
    ensures var next := r.(budget := Regrown(r.budget, id, total), owned := r.owned[id := Reservation(total, total, false)]);
      Sound(next) && forall other | Held(r, other) :: Held(next, other)
  {
    var b := r.budget;
    var next := r.(budget := Regrown(b, id, total), owned := r.owned[id := Reservation(total, total, false)]);
    var more := b.(live := Resized(b.live, id, total));
    RegrownIsGood(b, id, total);
    ResizedKeepsDistinct(b, id, total);
    DrainKeepsAll(more);
    assert forall k | 0 <= k < |b.live| :: more.live[k].id == b.live[k].id;
    var before, after := b.live + b.waiting, next.budget.live + next.budget.waiting;
    assert after == more.live + more.waiting && forall k | 0 <= k < |before| :: after[k].id == before[k].id;
    forall hold | hold in after ensures Known(next, hold) {
      ResizedMembers(b, id, total, hold);
      if hold != Hold(id, total) { assert Known(r, hold); }
    }
    hide Resized, Regrown, Drained, Good, Known;
    forall other | other in next.owned && !next.owned[other].released && !next.budget.disposed ensures Holds(after, other) {
      SameIdsHold(before, after, other);
    }
    forall other | Held(r, other) ensures Held(next, other) {
      SameIdsHold(b.live, next.budget.live, other);
    }
  }

  lemma RetainedByIsSound(r: Runtime, id: ReservationId, bytes: nat)
    requires Sound(r) && Held(r, id)
    ensures Sound(RetainedBy(r, id, bytes))
    ensures forall other | Held(r, other) :: Held(RetainedBy(r, id, bytes), other)
  {
    var total := r.owned[id].retained + bytes;
    if total > r.owned[id].size {
      GrownIsSound(r, id, total);
    } else {
      var next := RetainedBy(r, id, bytes);
      forall hold | hold in r.budget.live + r.budget.waiting ensures Known(next, hold) { assert Known(r, hold); }
    }
  }

  // ---------------------------------------------------------------- the class

  class SyncContentRuntime {
    const byteBudget: BytesInFlightBudget
    var owned: map<ReservationId, Reservation>
    var nextId: ReservationId
    var reclaimable: seq<ReservationId>

    ghost function Value(): Runtime
      reads this, byteBudget
    {
      Runtime(byteBudget.Value(), owned, nextId, reclaimable)
    }

    ghost predicate Valid()
      reads this, byteBudget
    {
      byteBudget.Valid() && Sound(Value())
    }

    constructor (max: nat)
      ensures Valid() && fresh(byteBudget)
      ensures Value() == Runtime(Budget(max, [], [], false), map[], 0, [])
    {
      byteBudget := new BytesInFlightBudget(max);
      owned, nextId, reclaimable := map[], 0, [];
    }

    /** The promise resolves once the reservation is live. */
    method Reserve(size: nat) returns (id: ReservationId, raised: bool)
      requires Valid()
      modifies this, byteBudget
      ensures Valid() && raised == old(byteBudget.disposed) && id == old(nextId)
      ensures Value() == if raised then old(Value()) else Requesting(old(Value()), size)
    {
      id := nextId;
      NextIdIsFresh(Value());
      raised := byteBudget.Acquire(id, size);
      if !raised {
        RequestingIsSound(old(Value()), size);
        owned := owned[id := Reservation(size, 0, false)];
        nextId := nextId + 1;
      }
    }

    /** Never waits: None when the queue is not empty or the bytes do not fit. */
    method TryReserve(size: nat) returns (admitted: bool, id: ReservationId, raised: bool)
      requires Valid()
      modifies this, byteBudget
      ensures Valid() && raised == old(byteBudget.disposed) && id == old(nextId)
      ensures admitted == (!raised && AdmitsNow(old(Value()).budget, size))
      ensures Value() == if admitted then TriedAdmits(old(Value()), size) else old(Value())
    {
      id := nextId;
      NextIdIsFresh(Value());
      admitted, raised := byteBudget.TryAcquire(id, size);
      if admitted {
        TriedIsSound(old(Value()), size);
        owned := owned[id := Reservation(size, 0, false)];
        nextId := nextId + 1;
      }
    }

    /** Released at most once however often it is called. */
    method Release(id: ReservationId)
      requires Valid() && id in owned && (owned[id].released || Held(Value(), id))
      modifies this`owned, byteBudget
      ensures Valid() && Value() == ReleasedBy(old(Value()), id)
    {
      if owned[id].released {
        return;
      }
      ReleasedByIsSound(Value(), id);
      MemberIsHeld(Value(), id);
      owned := owned[id := owned[id].(released := true)];
      var raised := byteBudget.Release(owned[id].size, id);
    }

    method Retain(id: ReservationId, bytes: int) returns (raised: bool)
      requires Valid() && id in owned && (owned[id].released || Held(Value(), id))
      modifies this`owned, byteBudget
      ensures Valid() && raised == RetainRaises(old(Value()), id, bytes)
      ensures Value() == if raised then old(Value()) else RetainedBy(old(Value()), id, bytes)
    {
      raised := owned[id].released || bytes < 0 || bytes > MAX_SAFE_INTEGER;
      if raised {
        return;
      }
      RetainedByIsSound(Value(), id, bytes);
      MemberIsHeld(Value(), id);
      var size, retained := owned[id].size, owned[id].retained + bytes;
      if retained > size {
        byteBudget.ResizeReservation(size, retained, id);
        size := retained;
      }
      owned := owned[id := Reservation(size, retained, false)];
    }

    method RegisterIdleContent(content: ReservationId)
      requires Valid() && content !in reclaimable
      modifies this`reclaimable
      ensures Valid() && Value() == old(Value()).(reclaimable := old(reclaimable) + [content])
    {
      reclaimable := reclaimable + [content];
    }

    method UnregisterIdleContent(content: ReservationId)
      requires Valid()
      modifies this`reclaimable
      ensures Valid() && Value() == old(Value()).(reclaimable := RemoveFrom(old(reclaimable), content))
    {
      reclaimable := RemoveFrom(reclaimable, content);
    }
  }
}

/** First-in, first-out admission of source bytes held by active work. */
module ByteBudget {
  type ReservationId = nat

  datatype Hold = Hold(id: ReservationId, bytes: nat)

  function Sum(holds: seq<Hold>): nat {
    if holds == [] then 0 else Sum(holds[..|holds| - 1]) + holds[|holds| - 1].bytes
  }

  lemma SumOfAppend(a: seq<Hold>, b: seq<Hold>)
    ensures Sum(a + b) == Sum(a) + Sum(b)
  {
    if b == [] {
      assert a + b == a;
    } else {
      assert (a + b)[..|a + b| - 1] == a + b[..|b| - 1];
      SumOfAppend(a, b[..|b| - 1]);
    }
  }

  // ---------------------------------------------------------------- the specification

  /** Live reservations in the order of admission, and the waiting ones in the order of request. */
  datatype Budget = Budget(max: nat, live: seq<Hold>, waiting: seq<Hold>, disposed: bool)

  /** More than the whole budget is admitted only when nothing else is live. */
  predicate CanAcquire(b: Budget, bytes: nat) {
    if bytes > b.max then b.live == [] else Sum(b.live) + bytes <= b.max
  }

  function Reserved(b: Budget, hold: Hold): Budget { b.(live := b.live + [hold]) }

  predicate AdmitsNow(b: Budget, bytes: nat) { b.waiting == [] && CanAcquire(b, bytes) }

  function Drained(b: Budget): Budget
    decreases |b.waiting|
  {
    if b.disposed || b.waiting == [] || !CanAcquire(b, b.waiting[0].bytes) then b
    else Drained(Reserved(b, b.waiting[0]).(waiting := b.waiting[1..]))
  }

  function Acquired(b: Budget, hold: Hold): Budget {
    if AdmitsNow(b, hold.bytes) then Reserved(b, hold) else Drained(b.(waiting := b.waiting + [hold]))
  }

  predicate Holds(holds: seq<Hold>, id: ReservationId) { exists k | 0 <= k < |holds| :: holds[k].id == id }

  function IndexOf(holds: seq<Hold>, id: ReservationId): (k: nat)
    requires Holds(holds, id)
    ensures k < |holds| && holds[k].id == id
  {
    if holds[0].id == id then 0 else IndexOf(holds[1..], id) + 1
  }

  function SizeOf(holds: seq<Hold>, id: ReservationId): nat
    requires Holds(holds, id)
  {
    holds[IndexOf(holds, id)].bytes
  }

  function Without(holds: seq<Hold>, id: ReservationId): seq<Hold> {
    if Holds(holds, id) then holds[..IndexOf(holds, id)] + holds[IndexOf(holds, id) + 1..] else holds
  }

  function Resized(holds: seq<Hold>, id: ReservationId, bytes: nat): seq<Hold> {
    if Holds(holds, id) then holds[IndexOf(holds, id) := Hold(id, bytes)] else holds
  }

  function Released(b: Budget, id: ReservationId): Budget { Drained(b.(live := Without(b.live, id))) }

  function Regrown(b: Budget, id: ReservationId, bytes: nat): Budget { Drained(b.(live := Resized(b.live, id, bytes))) }

  function Disposed(b: Budget): Budget { if b.disposed then b else b.(waiting := [], disposed := true) }

  ghost predicate Distinct(holds: seq<Hold>) {
    forall i, j | 0 <= i < j < |holds| :: holds[i].id != holds[j].id
  }

  lemma SumAround(holds: seq<Hold>, k: nat, bytes: nat)
    requires k < |holds|
    ensures Sum(holds) == Sum(holds[..k]) + holds[k].bytes + Sum(holds[k + 1..])
    ensures Sum(holds[..k] + holds[k + 1..]) == Sum(holds) - holds[k].bytes
    ensures Sum(holds[k := Hold(holds[k].id, bytes)]) == Sum(holds) - holds[k].bytes + bytes
  {
    var before, after := holds[..k], holds[k + 1..];
    var middle, changed := [holds[k]], [Hold(holds[k].id, bytes)];
    assert holds == before + middle + after;
    assert holds[k := Hold(holds[k].id, bytes)] == before + changed + after;
    SumOfAppend(before + middle, after);
    SumOfAppend(before, middle);
    SumOfAppend(before + changed, after);
    SumOfAppend(before, changed);
    SumOfAppend(before, after);
    assert Sum(middle) == holds[k].bytes && Sum(changed) == bytes;
  }

  lemma WithoutTakesOne(holds: seq<Hold>, id: ReservationId)
    requires Holds(holds, id)
    ensures |Without(holds, id)| == |holds| - 1
    ensures Sum(Without(holds, id)) == Sum(holds) - SizeOf(holds, id)
  {
    SumAround(holds, IndexOf(holds, id), 0);
  }

  lemma ResizedMovesSum(holds: seq<Hold>, id: ReservationId, bytes: nat)
    requires Holds(holds, id)
    ensures |Resized(holds, id, bytes)| == |holds|
    ensures Sum(Resized(holds, id, bytes)) == Sum(holds) - SizeOf(holds, id) + bytes
  {
    SumAround(holds, IndexOf(holds, id), bytes);
  }

  // ---------------------------------------------------------------- what every operation keeps

  /** Nobody waits who could be admitted, nobody waits after disposal, and no id is used twice. */
  ghost predicate Good(b: Budget) {
    && Distinct(b.live + b.waiting)
    && (b.waiting != [] ==> !b.disposed && !CanAcquire(b, b.waiting[0].bytes))
  }

  /** Within the budget, or one oversized reservation alone. */
  ghost predicate Bounded(b: Budget) { Sum(b.live) <= b.max || |b.live| == 1 }

  /** Draining admits a prefix of the queue, in order, and stops only at a head that does not fit. */
  lemma {:induction false} DrainAdmitsPrefix(b: Budget) returns (n: nat)
    requires Distinct(b.live + b.waiting) && (b.disposed ==> b.waiting == [])
    ensures n <= |b.waiting|
    ensures Drained(b) == b.(live := b.live + b.waiting[..n], waiting := b.waiting[n..])
    ensures Good(Drained(b))
    ensures Bounded(b) ==> Bounded(Drained(b))
    decreases |b.waiting|
  {
    hide Distinct, Sum;
    if b.disposed || b.waiting == [] || !CanAcquire(b, b.waiting[0].bytes) {
      n := 0;
      assert b.live + b.waiting[..0] == b.live;
    } else {
      var next := Reserved(b, b.waiting[0]).(waiting := b.waiting[1..]);
      assert next.live + next.waiting == b.live + b.waiting;
      assert Bounded(b) ==> Bounded(next) by { AdmissionKeepsBound(b, b.waiting[0]); }
      var m := DrainAdmitsPrefix(next);
      n := m + 1;
      assert b.waiting[..n] == [b.waiting[0]] + b.waiting[1..][..m];
      assert b.live + b.waiting[..n] == next.live + next.waiting[..m];
      assert b.waiting[n..] == next.waiting[m..];
    }
  }

  lemma DrainStep(b: Budget)
    requires !b.disposed
    ensures b.waiting == [] || !CanAcquire(b, b.waiting[0].bytes) ==> Drained(b) == b
    ensures b.waiting != [] && CanAcquire(b, b.waiting[0].bytes) ==>
      Drained(b) == Drained(b.(live := b.live + [b.waiting[0]], waiting := b.waiting[1..]))
    ensures b.waiting != [] ==> Sum(b.live + [b.waiting[0]]) == Sum(b.live) + b.waiting[0].bytes
  {
  }

  lemma AdmissionKeepsBound(b: Budget, hold: Hold)
    requires CanAcquire(b, hold.bytes)
    ensures Bounded(Reserved(b, hold))
  {
    assert Reserved(b, hold).live[..|b.live|] == b.live;
  }

  lemma AppendKeepsDistinct(b: Budget, hold: Hold)
    requires Distinct(b.live + b.waiting) && !Holds(b.live + b.waiting, hold.id)
    ensures Distinct(b.live + (b.waiting + [hold]))
  {
    assert b.live + (b.waiting + [hold]) == b.live + b.waiting + [hold];
    forall k | 0 <= k < |b.live + b.waiting| ensures (b.live + b.waiting)[k].id != hold.id {}
  }

  lemma AcquiredIsGood(b: Budget, hold: Hold)
    requires Good(b) && !b.disposed && !Holds(b.live + b.waiting, hold.id)
    ensures Good(Acquired(b, hold)) && (Bounded(b) ==> Bounded(Acquired(b, hold)))
    ensures Acquired(b, hold).live + Acquired(b, hold).waiting == b.live + b.waiting + [hold]
    ensures b.live <= Acquired(b, hold).live
  {
    AppendKeepsDistinct(b, hold);
    hide Distinct, Holds;
    if AdmitsNow(b, hold.bytes) {
      AdmissionKeepsBound(b, hold);
      assert Reserved(b, hold).live + [] == b.live + (b.waiting + [hold]);
    } else {
      hide CanAcquire, Bounded;
      var queued := b.(waiting := b.waiting + [hold]);
      assert queued.live + queued.waiting == b.live + b.waiting + [hold];
      var n := DrainAdmitsPrefix(queued);
      assert queued.waiting[..n] + queued.waiting[n..] == queued.waiting;
    }
  }

  /** Draining moves the boundary between live and waiting, nothing else. */
  lemma DrainKeepsAll(b: Budget)
    requires Distinct(b.live + b.waiting) && (b.disposed ==> b.waiting == [])
    ensures var r := Drained(b);
      && r.live + r.waiting == b.live + b.waiting && b.live <= r.live
      && r.disposed == b.disposed && r.max == b.max
  {
    var n := DrainAdmitsPrefix(b);
    assert b.waiting[..n] + b.waiting[n..] == b.waiting;
  }

  lemma HoldsLive(b: Budget, id: ReservationId)
    ensures Holds(b.live, id) || Holds(b.waiting, id) <==> Holds(b.live + b.waiting, id)
  {
    if Holds(b.live, id) {
      var k :| 0 <= k < |b.live| && b.live[k].id == id;
      assert (b.live + b.waiting)[k].id == id;
    }
    if Holds(b.waiting, id) {
      var k :| 0 <= k < |b.waiting| && b.waiting[k].id == id;
      assert (b.live + b.waiting)[|b.live| + k].id == id;
    }
  }

  lemma LiveMember(b: Budget, hold: Hold)
    requires Distinct(b.live + b.waiting) && hold in b.live
    ensures Holds(b.live, hold.id) && SizeOf(b.live, hold.id) == hold.bytes && !Holds(b.waiting, hold.id)
  {
    var k :| 0 <= k < |b.live| && b.live[k] == hold;
    var line := b.live + b.waiting;
    assert b.live[k].id == hold.id;
    var i := IndexOf(b.live, hold.id);
    assert line[i].id == line[k].id;
    forall j | 0 <= j < |b.waiting| ensures b.waiting[j].id != hold.id {
      assert line[|b.live| + j] == b.waiting[j];
      assert line[k].id != line[|b.live| + j].id;
    }
  }

  lemma DropMembers(line: seq<Hold>, k: nat, hold: Hold)
    requires Distinct(line) && k < |line|
    ensures hold in line[..k] + line[k + 1..] <==> hold in line && hold.id != line[k].id
  {
    var rest := line[..k] + line[k + 1..];
    if hold in rest {
      var i :| 0 <= i < |rest| && rest[i] == hold;
      assert hold == line[if i < k then i else i + 1];
    }
    if hold in line && hold.id != line[k].id {
      var i :| 0 <= i < |line| && line[i] == hold;
      assert rest[if i < k then i else i - 1] == hold;
    }
  }

  lemma WithoutMembers(b: Budget, id: ReservationId, hold: Hold)
    requires Distinct(b.live + b.waiting) && Holds(b.live, id)
    ensures hold in Without(b.live, id) + b.waiting <==> hold in b.live + b.waiting && hold.id != id
  {
    var k := IndexOf(b.live, id);
    DropMembers(b.live + b.waiting, k, hold);
    DropFromFront(b.live, b.waiting, k);
    hide Distinct;
  }

  lemma DropFromFront(live: seq<Hold>, waiting: seq<Hold>, k: nat)
    requires k < |live|
    ensures live[..k] + live[k + 1..] + waiting == (live + waiting)[..k] + (live + waiting)[k + 1..]
  {
  }

  /** Taking one live reservation out. */
  lemma TakeOut(holds: seq<Hold>, hold: Hold)
    requires Distinct(holds) && hold in holds
    ensures Distinct(Without(holds, hold.id)) && !Holds(Without(holds, hold.id), hold.id)
    ensures Sum(holds) == Sum(Without(holds, hold.id)) + hold.bytes && |holds| == |Without(holds, hold.id)| + 1
    ensures forall other :: other in Without(holds, hold.id) <==> other in holds && other.id != hold.id
  {
    var b := Budget(0, holds, [], false);
    var less := Without(holds, hold.id);
    assert holds + [] == holds && less + [] == less;
    LiveMember(b, hold);
    WithoutTakesOne(holds, hold.id);
    WithoutKeepsDistinct(b, hold.id);
    hide Without, Distinct, Holds;
    forall other ensures other in less <==> other in holds && other.id != hold.id { WithoutMembers(b, hold.id, other); }
  }

  lemma UpdateMembers(line: seq<Hold>, k: nat, next: Hold, hold: Hold)
    requires Distinct(line) && k < |line| && next.id == line[k].id
    ensures hold in line[k := next] <==> (hold in line && hold.id != next.id) || hold == next
  {
    var changed := line[k := next];
    assert changed[k] == next;
    if hold in changed && hold != next {
      var i :| 0 <= i < |line| && changed[i] == hold;
      assert line[i] == hold;
    }
    if hold in line && hold.id != next.id {
      var i :| 0 <= i < |line| && line[i] == hold;
      assert changed[i] == hold;
    }
  }

  lemma ResizedMembers(b: Budget, id: ReservationId, bytes: nat, hold: Hold)
    requires Distinct(b.live + b.waiting) && Holds(b.live, id)
    ensures hold in Resized(b.live, id, bytes) + b.waiting
      <==> (hold in b.live + b.waiting && hold.id != id) || hold == Hold(id, bytes)
  {
    var k := IndexOf(b.live, id);
    var line := b.live + b.waiting;
    assert Resized(b.live, id, bytes) + b.waiting == line[k := Hold(id, bytes)];
    UpdateMembers(line, k, Hold(id, bytes), hold);
  }

  lemma WithoutKeepsDistinct(b: Budget, id: ReservationId)
    requires Distinct(b.live + b.waiting)
    ensures Distinct(Without(b.live, id) + b.waiting)
    ensures !Holds(Without(b.live, id), id)
  {
    if Holds(b.live, id) {
      var k := IndexOf(b.live, id);
      var line, rest := b.live + b.waiting, Without(b.live, id) + b.waiting;
      assert forall i | 0 <= i < |rest| :: rest[i] == line[if i < k then i else i + 1];
      assert line[k].id == id;
      assert forall i | 0 <= i < |b.live| - 1 :: Without(b.live, id)[i] == rest[i];
    }
  }

  lemma ResizedKeepsDistinct(b: Budget, id: ReservationId, bytes: nat)
    requires Distinct(b.live + b.waiting)
    ensures Distinct(Resized(b.live, id, bytes) + b.waiting)
  {
    var line, changed := b.live + b.waiting, Resized(b.live, id, bytes) + b.waiting;
    assert |line| == |changed|;
    assert forall i | 0 <= i < |line| :: changed[i].id == line[i].id;
  }

  lemma ReleasedIsGood(b: Budget, id: ReservationId)
    requires Good(b)
    ensures Good(Released(b, id)) && (Bounded(b) ==> Bounded(Released(b, id)))
  {
    WithoutKeepsDistinct(b, id);
    if Holds(b.live, id) { WithoutTakesOne(b.live, id); }
    var less := b.(live := Without(b.live, id));
    if Bounded(b) && Holds(b.live, id) && |b.live| == 1 { assert less.live == []; }
    var n := DrainAdmitsPrefix(less);
  }

  lemma RegrownIsGood(b: Budget, id: ReservationId, bytes: nat)
    requires Good(b)
    ensures Good(Regrown(b, id, bytes))
  {
    ResizedKeepsDistinct(b, id, bytes);
    var n := DrainAdmitsPrefix(b.(live := Resized(b.live, id, bytes)));
  }

  /** While anybody waits, somebody holds: the queue never stalls on its own. */
  lemma WaitersImplyHolders(b: Budget)
    requires Good(b) && b.waiting != []
    ensures b.live != []
  {
    assert Sum([]) == 0;
  }

  // ---------------------------------------------------------------- whole runs

  datatype Operation =
    | Try(hold: Hold)
    | Acquire(hold: Hold)
    | Release(id: ReservationId)
    | Grow(id: ReservationId, bytes: nat)

  function Step(b: Budget, op: Operation): Budget {
    match op
    case Try(hold) => if AdmitsNow(b, hold.bytes) then Reserved(b, hold) else b
    case Acquire(hold) => Acquired(b, hold)
    case Release(id) => Released(b, id)
    case Grow(id, bytes) => Regrown(b, id, bytes)
  }

  /** A request is admitted at once exactly when nobody waits and it fits beside the live bytes or nothing is live;
      otherwise an acquire joins the end of the line and a try leaves everything as it is. */
  lemma AdmittedExactly(b: Budget, hold: Hold)
    requires Good(b) && !b.disposed && !Holds(b.live + b.waiting, hold.id)
    ensures var admitted := b.waiting == [] && (b.live == [] || Sum(b.live) + hold.bytes <= b.max);
      && Step(b, Try(hold)) == (if admitted then b.(live := b.live + [hold]) else b)
      && Step(b, Acquire(hold)) == (if admitted then b.(live := b.live + [hold]) else b.(waiting := b.waiting + [hold]))
  {
    assert Sum([]) == 0;
    if b.waiting != [] {
      assert (b.waiting + [hold])[0] == b.waiting[0];
    }
  }

  /** The k-th in the line fits once all before it have been admitted, or is alone then. */
  predicate FitsInTurn(b: Budget, k: nat)
    requires k < |b.waiting|
  {
    b.live + b.waiting[..k] == [] || Sum(b.live + b.waiting[..k]) + b.waiting[k].bytes <= b.max
  }

  lemma FirstFits(b: Budget)
    requires b.waiting != []
    ensures FitsInTurn(b, 0) <==> CanAcquire(b, b.waiting[0].bytes)
  {
    assert Sum([]) == 0;
    assert b.live + b.waiting[..0] == b.live;
  }

  lemma NextFits(b: Budget, k: nat)
    requires k + 1 < |b.waiting|
    ensures FitsInTurn(b.(live := b.live + [b.waiting[0]], waiting := b.waiting[1..]), k) <==> FitsInTurn(b, k + 1)
  {
    assert b.waiting[..k + 1] == [b.waiting[0]] + b.waiting[1..][..k];
    assert b.live + [b.waiting[0]] + b.waiting[1..][..k] == b.live + b.waiting[..k + 1];
    hide Sum;
  }

  /** Draining admits the waiters from the front up to the first that does not fit in its turn. */
  lemma {:induction false} FrontIsAdmitted(b: Budget, n: nat)
    requires !b.disposed && n <= |b.waiting|
    requires forall k | 0 <= k < n :: FitsInTurn(b, k)
    requires n < |b.waiting| ==> !FitsInTurn(b, n)
    ensures Drained(b) == b.(live := b.live + b.waiting[..n], waiting := b.waiting[n..])
    decreases n
  {
    DrainStep(b);
    if b.waiting != [] { FirstFits(b); }
    hide CanAcquire, Drained, FitsInTurn, Sum;
    if n == 0 {
      assert b.live + b.waiting[..0] == b.live;
    } else {
      assert FitsInTurn(b, 0);
      var next := b.(live := b.live + [b.waiting[0]], waiting := b.waiting[1..]);
      forall k | 0 <= k < n - 1 ensures FitsInTurn(next, k) { NextFits(b, k); }
      if n < |b.waiting| { NextFits(b, n - 1); }
      FrontIsAdmitted(next, n - 1);
      RestOfLine(b.live, b.waiting, n);
    }
  }

  lemma RestOfLine(live: seq<Hold>, waiting: seq<Hold>, n: nat)
    requires 0 < n <= |waiting|
    ensures live + [waiting[0]] + waiting[1..][..n - 1] == live + waiting[..n]
    ensures waiting[1..][n - 1..] == waiting[n..]
  {
  }

  function Run(b: Budget, ops: seq<Operation>): Budget {
    if ops == [] then b else Step(Run(b, ops[..|ops| - 1]), ops[|ops| - 1])
  }

  /** Whom an operation adds to the line: a try that fails does not. */
  function Requested(b: Budget, op: Operation): seq<Hold> {
    match op
    case Try(hold) => if AdmitsNow(b, hold.bytes) then [hold] else []
    case Acquire(hold) => [hold]
    case Release(_) => []
    case Grow(_, _) => []
  }

  function Requests(b: Budget, ops: seq<Operation>): seq<Hold> {
    if ops == [] then []
    else Requests(b, ops[..|ops| - 1]) + Requested(Run(b, ops[..|ops| - 1]), ops[|ops| - 1])
  }

  /** Whom a step moved out of the queue, or admitted at once. */
  function Granted(b: Budget, op: Operation): seq<Hold> {
    var line := b.waiting + Requested(b, op);
    if |Step(b, op).waiting| <= |line| then line[..|line| - |Step(b, op).waiting|] else line
  }

  function Grants(b: Budget, ops: seq<Operation>): seq<Hold> {
    if ops == [] then []
    else Grants(b, ops[..|ops| - 1]) + Granted(Run(b, ops[..|ops| - 1]), ops[|ops| - 1])
  }

  /** Each request comes under an id nobody holds or waits under. */
  ghost predicate FreshIds(b: Budget, ops: seq<Operation>) {
    forall k | 0 <= k < |ops| && (ops[k].Try? || ops[k].Acquire?) ::
      var before := Run(b, ops[..k]); !Holds(before.live + before.waiting, ops[k].hold.id)
  }

  /** A step takes from the front of the line only. */
  lemma StepTakesFromFront(b: Budget, op: Operation) returns (n: nat)
    requires Good(b) && !b.disposed
    requires op.Try? || op.Acquire? ==> !Holds(b.live + b.waiting, op.hold.id)
    ensures !Step(b, op).disposed && Step(b, op).max == b.max
    ensures n <= |b.waiting + Requested(b, op)| && Step(b, op).waiting == (b.waiting + Requested(b, op))[n..]
  {
    hide CanAcquire, Without, Resized, Drained, Distinct, Holds;
    match op
    case Try(hold) =>
      n := if AdmitsNow(b, hold.bytes) then 1 else 0;
    case Acquire(hold) =>
      AppendKeepsDistinct(b, hold);
      if AdmitsNow(b, hold.bytes) {
        n := 1;
      } else {
        n := DrainAdmitsPrefix(b.(waiting := b.waiting + [hold]));
      }
    case Release(id) =>
      WithoutKeepsDistinct(b, id);
      n := DrainAdmitsPrefix(b.(live := Without(b.live, id)));
      assert b.waiting + [] == b.waiting;
    case Grow(id, bytes) =>
      ResizedKeepsDistinct(b, id, bytes);
      n := DrainAdmitsPrefix(b.(live := Resized(b.live, id, bytes)));
      assert b.waiting + [] == b.waiting;
  }

  lemma StepKeepsLine(b: Budget, op: Operation)
    requires Good(b) && !b.disposed
    requires op.Try? || op.Acquire? ==> !Holds(b.live + b.waiting, op.hold.id)
    ensures !Step(b, op).disposed && Step(b, op).max == b.max
    ensures b.waiting + Requested(b, op) == Granted(b, op) + Step(b, op).waiting
  {
    var n := StepTakesFromFront(b, op);
    hide Step, Requested, Good, Holds;
    var line := b.waiting + Requested(b, op);
    assert |Step(b, op).waiting| == |line| - n;
  }

  lemma StepIsGood(b: Budget, op: Operation)
    requires Good(b) && !b.disposed
    requires op.Try? || op.Acquire? ==> !Holds(b.live + b.waiting, op.hold.id)
    ensures Good(Step(b, op))
    ensures !op.Grow? && Bounded(b) ==> Bounded(Step(b, op))
  {
    match op
    case Try(hold) => AcquiredIsGood(b, hold);
    case Acquire(hold) => AcquiredIsGood(b, hold);
    case Release(id) => ReleasedIsGood(b, id);
    case Grow(id, bytes) => RegrownIsGood(b, id, bytes);
  }

  lemma Regroup<T>(a: seq<T>, b: seq<T>, c: seq<T>, d: seq<T>, e: seq<T>)
    requires d + e == b + c
    ensures a + b + c == a + d + e
  {
    assert a + (b + c) == a + b + c;
    assert a + (d + e) == a + d + e;
  }

  function Target(op: Operation): ReservationId {
    match op
    case Try(hold) => hold.id
    case Acquire(hold) => hold.id
    case Release(id) => id
    case Grow(id, _) => id
  }

  lemma HoldsGrow(a: seq<Hold>, b: seq<Hold>, id: ReservationId)
    requires Holds(a, id) && a <= b
    ensures Holds(b, id)
  {
    var k :| 0 <= k < |a| && a[k].id == id;
    assert b[k].id == id;
  }

  lemma HoldsInAppended(line: seq<Hold>, hold: Hold, id: ReservationId)
    ensures Holds(line + [hold], id) <==> Holds(line, id) || hold.id == id
  {
    if Holds(line, id) { HoldsGrow(line, line + [hold], id); }
    assert (line + [hold])[|line|] == hold;
  }

  lemma HoldsWithout(live: seq<Hold>, waiting: seq<Hold>, id: ReservationId, other: ReservationId)
    requires other != id
    ensures Holds(Without(live, id) + waiting, other) <==> Holds(live + waiting, other)
    ensures Holds(Without(live, id), other) <==> Holds(live, other)
  {
    if Holds(live, id) {
      var k := IndexOf(live, id);
      HoldsDropped(live + waiting, k, other);
      DropFromFront(live, waiting, k);
      HoldsDropped(live, k, other);
    }
  }

  lemma HoldsDropped(line: seq<Hold>, k: nat, other: ReservationId)
    requires k < |line| && line[k].id != other
    ensures Holds(line[..k] + line[k + 1..], other) <==> Holds(line, other)
  {
    var rest := line[..k] + line[k + 1..];
    if Holds(line, other) {
      var i :| 0 <= i < |line| && line[i].id == other;
      assert rest[if i < k then i else i - 1].id == other;
    }
    if Holds(rest, other) {
      var i :| 0 <= i < |rest| && rest[i].id == other;
      assert line[if i < k then i else i + 1].id == other;
    }
  }

  lemma HoldsResized(live: seq<Hold>, waiting: seq<Hold>, id: ReservationId, bytes: nat, other: ReservationId)
    ensures Holds(Resized(live, id, bytes) + waiting, other) <==> Holds(live + waiting, other)
    ensures Holds(Resized(live, id, bytes), other) <==> Holds(live, other)
  {
    var more := Resized(live, id, bytes);
    assert |more| == |live| && forall k | 0 <= k < |live| :: more[k].id == live[k].id;
    SameIds(live, more, other);
    SameIds(live + waiting, more + waiting, other);
  }

  lemma SameIds(a: seq<Hold>, b: seq<Hold>, id: ReservationId)
    requires |a| == |b| && forall k | 0 <= k < |a| :: a[k].id == b[k].id
    ensures Holds(a, id) <==> Holds(b, id)
  {
  }

  /** A step touches only its own reservation; what is live stays live until it is released. */
  lemma StepTouchesOnly(b: Budget, op: Operation, other: ReservationId)
    requires Good(b) && !b.disposed && other != Target(op)
    requires op.Try? || op.Acquire? ==> !Holds(b.live + b.waiting, op.hold.id)
    ensures Holds(Step(b, op).live + Step(b, op).waiting, other) <==> Holds(b.live + b.waiting, other)
    ensures Holds(b.live, other) ==> Holds(Step(b, op).live, other)
  {
    hide CanAcquire, Without, Resized, Drained, Distinct, Holds;
    match op
    case Try(hold) =>
      AcquiredIsGood(b, hold);
      HoldsInAppended(b.live + b.waiting, hold, other);
      if Holds(b.live, other) { HoldsGrow(b.live, b.live + [hold], other); }
    case Acquire(hold) =>
      AcquiredIsGood(b, hold);
      HoldsInAppended(b.live + b.waiting, hold, other);
      if Holds(b.live, other) { HoldsGrow(b.live, Acquired(b, hold).live, other); }
    case Release(id) => ReleaseTouchesOnly(b, id, other);
    case Grow(id, bytes) => GrowTouchesOnly(b, id, bytes, other);
  }

  lemma ReleaseTouchesOnly(b: Budget, id: ReservationId, other: ReservationId)
    requires Good(b) && other != id
    ensures Holds(Released(b, id).live + Released(b, id).waiting, other) <==> Holds(b.live + b.waiting, other)
    ensures Holds(b.live, other) ==> Holds(Released(b, id).live, other)
  {
    var less := b.(live := Without(b.live, id));
    WithoutKeepsDistinct(b, id);
    hide CanAcquire, Without, Drained, Distinct, Holds;
    DrainKeepsAll(less);
    HoldsWithout(b.live, b.waiting, id, other);
    if Holds(b.live, other) { HoldsGrow(less.live, Released(b, id).live, other); }
  }

  lemma GrowTouchesOnly(b: Budget, id: ReservationId, bytes: nat, other: ReservationId)
    requires Good(b)
    ensures Holds(Regrown(b, id, bytes).live + Regrown(b, id, bytes).waiting, other) <==> Holds(b.live + b.waiting, other)
    ensures Holds(b.live, other) ==> Holds(Regrown(b, id, bytes).live, other)
  {
    var more := b.(live := Resized(b.live, id, bytes));
    ResizedKeepsDistinct(b, id, bytes);
    hide CanAcquire, Resized, Drained, Distinct, Holds;
    DrainKeepsAll(more);
    HoldsResized(b.live, b.waiting, id, bytes, other);
    if Holds(b.live, other) { HoldsGrow(more.live, Regrown(b, id, bytes).live, other); }
  }

  /** A live reservation is gone once released. */
  lemma ReleaseEnds(b: Budget, id: ReservationId)
    requires Good(b) && Holds(b.live, id)
    ensures !Holds(Released(b, id).live + Released(b, id).waiting, id)
    ensures Good(Released(b, id)) && Released(b, id).disposed == b.disposed
  {
    var less := b.(live := Without(b.live, id));
    ReleasedIsGood(b, id);
    WithoutKeepsDistinct(b, id);
    var k := IndexOf(b.live, id);
    LiveMember(b, b.live[k]);
    HoldsLive(less, id);
    hide Drained, Without, Distinct;
    DrainKeepsAll(less);
  }

  ghost predicate NeverGrows(ops: seq<Operation>) { forall k | 0 <= k < |ops| :: !ops[k].Grow? }

  /** Over every run the grants, followed by those still waiting, are the requests in their order:
      no one overtakes. Without growth the bytes stay within the budget, or one reservation is alone. */
  lemma {:induction false} RunIsFirstInFirstOut(b: Budget, ops: seq<Operation>)
    requires Good(b) && !b.disposed && b.waiting == [] && FreshIds(b, ops)
    ensures var r := Run(b, ops);
      && Good(r) && !r.disposed
      && Grants(b, ops) + r.waiting == Requests(b, ops)
      && (Bounded(b) && NeverGrows(ops) ==> Bounded(r))
  {
    hide Good, Granted, Requested, Step, Bounded;
    if ops == [] {
      assert Grants(b, ops) + b.waiting == [];
    } else {
      var init, op := ops[..|ops| - 1], ops[|ops| - 1];
      assert FreshIds(b, init) by {
        assert forall k | 0 <= k < |init| :: init[..k] == ops[..k] && init[k] == ops[k];
      }
      RunIsFirstInFirstOut(b, init);
      var before := Run(b, init);
      assert NeverGrows(ops) ==> NeverGrows(init) && !op.Grow?;
      assert op.Try? || op.Acquire? ==> !Holds(before.live + before.waiting, op.hold.id);
      StepIsGood(before, op);
      StepKeepsLine(before, op);
      Regroup(Grants(b, init), Granted(before, op), Step(before, op).waiting, before.waiting, Requested(before, op));
    }
  }

  // ---------------------------------------------------------------- the class


  /** Keeps two counters and a queue; the live reservations themselves belong to their owners. */
  class BytesInFlightBudget {
    const maxBytes: nat
    var reservedBytes: int
    var activeReservations: int
    var waiting: seq<Hold>
    var disposed: bool
    ghost var live: seq<Hold>

    ghost function Value(): Budget
      reads this
    {
      Budget(maxBytes, live, waiting, disposed)
    }

    /** The counters are the number and the sum of the live reservations. */
    ghost predicate Valid()
      reads this
    {
      && reservedBytes == Sum(live)
      && activeReservations == |live|
      && Good(Value())
    }

    constructor (max: nat)
      ensures Valid() && Value() == Budget(max, [], [], false)
    {
      maxBytes := max;
      reservedBytes, activeReservations, waiting, disposed := 0, 0, [], false;
      live := [];
    }

    predicate CanAcquireNow(bytes: nat)
      requires Valid()
      reads this
      ensures CanAcquireNow(bytes) <==> CanAcquire(Value(), bytes)
    {
      if bytes > maxBytes then activeReservations == 0 else reservedBytes + bytes <= maxBytes
    }

    /** None when the budget is disposed, which raises. */
    method TryAcquire(id: ReservationId, bytes: nat) returns (admitted: bool, raised: bool)
      requires Valid() && !Holds(live + waiting, id)
      modifies this
      ensures Valid()
      ensures raised == old(disposed)
      ensures admitted == (!old(disposed) && AdmitsNow(old(Value()), bytes))
      ensures Value() == if admitted then Reserved(old(Value()), Hold(id, bytes)) else old(Value())
    {
      raised := disposed;
      admitted := !disposed && |waiting| == 0 && CanAcquireNow(bytes);
      if admitted {
        AcquiredIsGood(Value(), Hold(id, bytes));
        reservedBytes, activeReservations := reservedBytes + bytes, activeReservations + 1;
        live := live + [Hold(id, bytes)];
        assert live[..|live| - 1] == old(live);
      }
    }

    method Drain()
      requires reservedBytes == Sum(live) && activeReservations == |live|
      requires Distinct(live + waiting) && (disposed ==> waiting == [])
      modifies this`reservedBytes, this`activeReservations, this`waiting, this`live
      ensures Valid() && Value() == Drained(old(Value()))
    {
      if disposed {
        return;
      }
      ghost var _ := DrainAdmitsPrefix(Value());
      hide Distinct, Good, Drained, Sum;
      ghost var goal := Drained(Value());
      ghost var b := Value();
      while |waiting| > 0
        invariant b == Value() && Drained(b) == goal && !disposed
        invariant reservedBytes == Sum(b.live) && activeReservations == |b.live|
        decreases |waiting|
      {
        var head := waiting[0];
        DrainStep(b);
        if !(if head.bytes > maxBytes then activeReservations == 0 else reservedBytes + head.bytes <= maxBytes) {
          return;
        }
        waiting := waiting[1..];
        reservedBytes, activeReservations := reservedBytes + head.bytes, activeReservations + 1;
        live := live + [head];
        b := b.(live := b.live + [head], waiting := b.waiting[1..]);
      }
      DrainStep(b);
    }

    /** Admits at once or joins the queue; the promise with this id resolves when the id becomes live. */
    method Acquire(id: ReservationId, bytes: nat) returns (raised: bool)
      requires Valid() && !Holds(live + waiting, id)
      modifies this
      ensures Valid()
      ensures raised == old(disposed)
      ensures Value() == if raised then old(Value()) else Acquired(old(Value()), Hold(id, bytes))
    {
      ghost var before := Value();
      var admitted;
      admitted, raised := TryAcquire(id, bytes);
      if raised || admitted {
        return;
      }
      AcquiredIsGood(before, Hold(id, bytes));
      waiting := waiting + [Hold(id, bytes)];
      assert live + waiting == before.live + before.waiting + [Hold(id, bytes)];
      assert Distinct(live + waiting) by {
        forall k | 0 <= k < |before.live + before.waiting| ensures (before.live + before.waiting)[k].id != id {}
      }
      Drain();
    }

    /** For the owner of a live reservation, the check against negative counters never fires. */
    method Release(bytes: nat, ghost id: ReservationId) returns (raised: bool)
      requires Valid() && Holds(live, id) && SizeOf(live, id) == bytes
      modifies this
      ensures Valid() && !raised && Value() == Released(old(Value()), id)
    {
      WithoutKeepsDistinct(Value(), id);
      WithoutTakesOne(live, id);
      activeReservations := activeReservations - 1;
      reservedBytes := reservedBytes - bytes;
      live := Without(live, id);
      raised := reservedBytes < 0 || activeReservations < 0;
      if !raised {
        Drain();
      }
    }

    method ResizeReservation(previous: nat, next: nat, ghost id: ReservationId)
      requires Valid() && Holds(live, id) && SizeOf(live, id) == previous
      modifies this
      ensures Valid() && Value() == Regrown(old(Value()), id, next)
    {
      ResizedKeepsDistinct(Value(), id, next);
      ResizedMovesSum(live, id, next);
      reservedBytes := reservedBytes + (next - previous);
      live := Resized(live, id, next);
      Drain();
    }

    method Dispose()
      requires Valid()
      modifies this
      ensures Valid() && Value() == Disposed(old(Value()))
    {
      if disposed {
        return;
      }
      disposed := true;
      while |waiting| > 0
        invariant Value() == Budget(maxBytes, old(live), waiting, true)
        invariant Distinct(live + waiting)
        invariant reservedBytes == old(reservedBytes) && activeReservations == old(activeReservations)
        decreases |waiting|
      {
        ghost var line := live + waiting;
        waiting := waiting[1..];
        assert forall i | 0 <= i < |live + waiting| :: (live + waiting)[i] == line[if i < |live| then i else i + 1];
      }
    }
  }
}

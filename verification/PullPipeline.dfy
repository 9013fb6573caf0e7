/**
 Preparing pulled groups in parallel while a single consumer applies them in plan order.
 Each group holds one reservation of the shared byte budget, under its own index as id; other
 users of the budget have ids beyond the groups and may act at any time.
 */
module PullPipeline {
  import opened ByteBudget

  /** Life of a group's task. `granted` tells whether its reservation was ever admitted. */
  datatype Phase =
    | Unstarted
    | Reserving
    | Preparing
    | Ready
    | Applying
    | Failing(granted: bool)
    | Null(granted: bool)
    | Cleared

  datatype Consumer = Looping | Awaiting | AtWork | Finishing | Finished

  /** `head` counts the tasks the consumer has taken from the pending queue, `next` those started;
      `releases` counts releases per group. */
  datatype State = State(budget: Budget, phases: seq<Phase>, next: nat, head: nat, stopped: bool,
    consumer: Consumer, applied: seq<nat>, releases: seq<nat>)

  datatype Event =
    | Advance
    | Resume(g: nat)
    | RejectReserve(g: nat)
    | PrepareDone(g: nat)
    | PrepareFails(g: nat)
    | Catch(g: nat)
    | TakeResult
    | ApplyDone
    | ApplyFails
    | Collect(g: nat)
    | Finish
    | Retain(g: nat, bytes: nat)
    | Others(op: Operation)
    | DisposeBudget

  /** The groups' estimates and the number of tasks allowed at once. */
  datatype Config = Config(estimates: seq<nat>, concurrency: nat)

  // ---------------------------------------------------------------- steps

  function Clear(s: State, g: nat, phase: Phase): State
    requires g < |s.phases| && g < |s.releases|
  {
    s.(budget := Released(s.budget, g), phases := s.phases[g := phase], releases := s.releases[g := s.releases[g] + 1])
  }

  function Relabeled(s: State, g: nat, phase: Phase): State
    requires g < |s.phases|
  {
    s.(phases := s.phases[g := phase])
  }

  /** Starting a task reserves at once, so reservations join the queue in plan order. */
  function Start(c: Config, s: State): State
    requires s.next < |c.estimates| == |s.phases|
  {
    if s.budget.disposed then s.(phases := s.phases[s.next := Failing(false)], next := s.next + 1)
    else
      s.(budget := Acquired(s.budget, Hold(s.next, c.estimates[s.next])), phases := s.phases[s.next := Reserving],
         next := s.next + 1)
  }

  function Fill(c: Config, s: State): State
    requires |c.estimates| == |s.phases|
    decreases |s.phases| - s.next
  {
    if !s.stopped && s.next < |s.phases| && s.head <= s.next && s.next - s.head < c.concurrency then Fill(c, Start(c, s))
    else s
  }

  predicate Settled(phase: Phase) { phase.Null? || phase.Cleared? }

  predicate Enabled(c: Config, s: State, e: Event) {
    && |c.estimates| == |s.phases| == |s.releases|
    && match e
       case Advance => s.consumer.Looping?
       case Resume(g) => g < |s.phases| && s.phases[g].Reserving? && Holds(s.budget.live, g)
       case RejectReserve(g) => g < |s.phases| && s.phases[g].Reserving? && s.budget.disposed && !Holds(s.budget.live, g)
       case PrepareDone(g) => g < |s.phases| && s.phases[g].Preparing?
       case PrepareFails(g) => g < |s.phases| && s.phases[g].Preparing?
       case Catch(g) => g < |s.phases| && s.phases[g].Failing?
       case TakeResult => s.consumer.Awaiting? && 0 < s.head <= |s.phases| && (s.phases[s.head - 1].Ready? || s.phases[s.head - 1].Null?)
       case ApplyDone => s.consumer.AtWork? && 0 < s.head <= |s.phases|
       case ApplyFails => s.consumer.AtWork? && 0 < s.head <= |s.phases|
       case Collect(g) => s.consumer.Finishing? && s.head <= g < s.next && g < |s.phases| && s.phases[g].Ready?
       case Finish => s.consumer.Finishing? && forall g | s.head <= g < s.next && g < |s.phases| :: Settled(s.phases[g])
       case Retain(g, _) => g < |s.phases| && (s.phases[g].Preparing? || s.phases[g].Applying?)
       case Others(op) => IsForeign(s, op) && !s.budget.disposed
       case DisposeBudget => true
  }

  predicate IsForeign(s: State, op: Operation) {
    match op
    case Try(hold) => hold.id >= |s.phases| && !Holds(s.budget.live + s.budget.waiting, hold.id)
    case Acquire(hold) => hold.id >= |s.phases| && !Holds(s.budget.live + s.budget.waiting, hold.id)
    case Release(id) => id >= |s.phases|
    case Grow(id, _) => id >= |s.phases|
  }

  function Do(c: Config, s: State, e: Event): State
    requires Enabled(c, s, e)
  {
    match e
    case Advance =>
      if !(s.next < |s.phases| || s.head < s.next) then s.(stopped := true, consumer := Finishing)
      else var filled := Fill(c, s); filled.(head := filled.head + 1, consumer := Awaiting)
    case Resume(g) => if s.stopped then Clear(s, g, Null(true)) else Relabeled(s, g, Preparing)
    case RejectReserve(g) => Relabeled(s, g, Failing(false))
    case PrepareDone(g) => Relabeled(s, g, Ready)
    case PrepareFails(g) => Clear(s, g, Failing(true))
    case Catch(g) => s.(phases := s.phases[g := Null(s.phases[g].granted)], stopped := true)
    case TakeResult =>
      var g := s.head - 1;
      if s.phases[g].Null? then s.(stopped := true, consumer := Finishing)
      else if s.stopped then Clear(s, g, Cleared).(stopped := true, consumer := Finishing)
      else s.(phases := s.phases[g := Applying], consumer := AtWork)
    case ApplyDone => Clear(s, s.head - 1, Cleared).(applied := s.applied + [s.head - 1], consumer := Looping)
    case ApplyFails => Clear(s, s.head - 1, Cleared).(stopped := true, consumer := Finishing)
    case Collect(g) => Clear(s, g, Cleared)
    case Finish => s.(consumer := Finished)
    case Retain(g, bytes) => s.(budget := Regrown(s.budget, g, bytes))
    case Others(op) => s.(budget := Step(s.budget, op))
    case DisposeBudget => s.(budget := Disposed(s.budget))
  }

  // ---------------------------------------------------------------- the invariant

  predicate HoldsBytes(phase: Phase) { phase.Preparing? || phase.Ready? || phase.Applying? }

  predicate WasReleased(phase: Phase) {
    phase.Cleared? || (phase.Failing? && phase.granted) || (phase.Null? && phase.granted)
  }

  /** A group's reservation is in the budget exactly while its task needs it, and released once afterwards. */
  ghost predicate GroupGood(s: State, g: nat)
    requires g < |s.phases| && g < |s.releases|
  {
    var phase := s.phases[g];
    && (HoldsBytes(phase) ==> Holds(s.budget.live, g))
    && (phase.Reserving? ==> s.budget.disposed || Holds(s.budget.live + s.budget.waiting, g))
    && (!HoldsBytes(phase) && !phase.Reserving? ==> !Holds(s.budget.live + s.budget.waiting, g))
    && s.releases[g] == (if WasReleased(phase) then 1 else 0)
    && (phase.Unstarted? <==> g >= s.next)
  }

  /** The first group that can still hold its reservation. */
  function First(s: State): int {
    if s.consumer.Awaiting? || s.consumer.AtWork? then s.head - 1 else s.head
  }

  /** Own reservations are admitted in plan order. */
  ghost predicate InOrder(b: Budget, n: nat) {
    && (forall i, j | 0 <= i < |b.live| && 0 <= j < |b.waiting| && b.live[i].id < n && b.waiting[j].id < n ::
          b.live[i].id < b.waiting[j].id)
    && (forall i, j | 0 <= i < j < |b.waiting| && b.waiting[i].id < n && b.waiting[j].id < n ::
          b.waiting[i].id < b.waiting[j].id)
  }

  ghost predicate Consumed(s: State) {
    && |s.applied| <= s.head <= s.next <= |s.phases|
    && (forall k | 0 <= k < |s.applied| :: s.applied[k] == k)
    && 0 <= First(s)
    && (forall g | 0 <= g < First(s) && g < |s.phases| :: Settled(s.phases[g]))
    && (s.consumer.Looping? || s.consumer.Awaiting? || s.consumer.AtWork? ==> |s.applied| == First(s))
    && (s.consumer.AtWork? ==> s.phases[s.head - 1].Applying?)
    && (forall g | 0 <= g < |s.phases| && s.phases[g].Applying? :: s.consumer.AtWork? && g == s.head - 1)
    && (s.consumer.Finished? ==> forall g | s.head <= g < s.next :: Settled(s.phases[g]))
  }

  /** A stop seen by a consumer that still runs comes from a failed task it has not taken yet. */
  ghost predicate StopHasCause(s: State) {
    s.stopped && (s.consumer.Looping? || s.consumer.Awaiting? || s.consumer.AtWork?) ==>
      exists g :: 0 <= First(s) <= g < s.next && g < |s.phases| && s.phases[g].Null?
  }

  ghost predicate Invariant(c: Config, s: State) {
    && |c.estimates| == |s.phases| == |s.releases|
    && c.concurrency >= 1
    && Good(s.budget)
    && InOrder(s.budget, |s.phases|)
    && Consumed(s)
    && StopHasCause(s)
    && s.next - First(s) <= c.concurrency
    && (forall g | 0 <= g < |s.phases| :: GroupGood(s, g))
  }

  ghost predicate Initial(c: Config, s: State) {
    && |c.estimates| == |s.phases| == |s.releases| && c.concurrency >= 1
    && Good(s.budget)
    && (forall g: nat | g < |s.phases| :: !Holds(s.budget.live + s.budget.waiting, g))
    && (forall g | 0 <= g < |s.phases| :: s.phases[g].Unstarted? && s.releases[g] == 0)
    && s.next == s.head == 0 && !s.stopped && s.consumer.Looping? && s.applied == []
  }

  // ---------------------------------------------------------------- plan order in the budget

  lemma DrainKeepsOrder(b: Budget, n: nat)
    requires Distinct(b.live + b.waiting) && (b.disposed ==> b.waiting == []) && InOrder(b, n)
    ensures InOrder(Drained(b), n)
  {
    var k := DrainAdmitsPrefix(b);
    hide Drained, Distinct;
    MovedKeepsOrder(b, n, k);
  }

  lemma MovedKeepsOrder(b: Budget, n: nat, k: nat)
    requires InOrder(b, n) && k <= |b.waiting|
    ensures InOrder(b.(live := b.live + b.waiting[..k], waiting := b.waiting[k..]), n)
  {
    var moved := b.(live := b.live + b.waiting[..k], waiting := b.waiting[k..]);
    forall i, j | 0 <= i < |moved.live| && 0 <= j < |moved.waiting| && moved.live[i].id < n && moved.waiting[j].id < n
      ensures moved.live[i].id < moved.waiting[j].id
    {
      assert moved.waiting[j] == b.waiting[k + j];
      if i >= |b.live| { assert moved.live[i] == b.waiting[i - |b.live|]; } else { assert moved.live[i] == b.live[i]; }
    }
    forall i, j | 0 <= i < j < |moved.waiting| && moved.waiting[i].id < n && moved.waiting[j].id < n
      ensures moved.waiting[i].id < moved.waiting[j].id
    {
      assert moved.waiting[i] == b.waiting[k + i] && moved.waiting[j] == b.waiting[k + j];
    }
  }

  lemma AppendKeepsOrder(b: Budget, hold: Hold, n: nat)
    requires InOrder(b, n)
    requires hold.id >= n || forall other | other in b.live + b.waiting && other.id < n :: other.id < hold.id
    ensures InOrder(b.(waiting := b.waiting + [hold]), n)
  {
    assert forall other | other in b.live :: other in b.live + b.waiting;
    assert forall other | other in b.waiting :: other in b.live + b.waiting;
  }

  lemma AcquireKeepsOrder(b: Budget, hold: Hold, n: nat)
    requires Good(b) && !b.disposed && !Holds(b.live + b.waiting, hold.id) && InOrder(b, n)
    requires hold.id >= n || forall other | other in b.live + b.waiting && other.id < n :: other.id < hold.id
    ensures InOrder(Acquired(b, hold), n)
  {
    if !AdmitsNow(b, hold.bytes) {
      AppendKeepsDistinct(b, hold);
      AppendKeepsOrder(b, hold, n);
      hide InOrder, Distinct;
      DrainKeepsOrder(b.(waiting := b.waiting + [hold]), n);
    }
  }

  lemma ReleaseKeepsOrder(b: Budget, id: ReservationId, n: nat)
    requires Good(b) && InOrder(b, n)
    ensures InOrder(Released(b, id), n)
  {
    var less := b.(live := Without(b.live, id));
    WithoutKeepsDistinct(b, id);
    assert InOrder(less, n) by {
      assert forall i | 0 <= i < |less.live| ::
        less.live[i] == b.live[if !Holds(b.live, id) || i < IndexOf(b.live, id) then i else i + 1];
    }
    hide InOrder, Without, Distinct;
    DrainKeepsOrder(less, n);
  }

  lemma GrowKeepsOrder(b: Budget, id: ReservationId, bytes: nat, n: nat)
    requires Good(b) && InOrder(b, n)
    ensures InOrder(Regrown(b, id, bytes), n)
  {
    var more := b.(live := Resized(b.live, id, bytes));
    ResizedKeepsDistinct(b, id, bytes);
    assert InOrder(more, n) by {
      assert forall i | 0 <= i < |more.live| :: more.live[i].id == b.live[i].id;
    }
    hide InOrder, Resized, Distinct;
    DrainKeepsOrder(more, n);
  }

  lemma OthersKeepOrder(s: State, op: Operation)
    requires Good(s.budget) && !s.budget.disposed && IsForeign(s, op) && InOrder(s.budget, |s.phases|)
    ensures InOrder(Step(s.budget, op), |s.phases|)
  {
    var n := |s.phases|;
    match op
    case Try(hold) =>
      if AdmitsNow(s.budget, hold.bytes) { assert s.budget.waiting == []; }
    case Acquire(hold) => AcquireKeepsOrder(s.budget, hold, n);
    case Release(id) => ReleaseKeepsOrder(s.budget, id, n);
    case Grow(id, bytes) => GrowKeepsOrder(s.budget, id, bytes, n);
  }

  // ---------------------------------------------------------------- each step keeps the invariant

  /** What a budget step of one reservation leaves to the groups. */
  ghost predicate BudgetKept(before: Budget, after: Budget, touched: int) {
    && Good(after) && after.disposed == before.disposed
    && (forall g: nat {:trigger Holds(after.live, g)} {:trigger Holds(after.live + after.waiting, g)} | g != touched ::
          && (Holds(after.live + after.waiting, g) <==> Holds(before.live + before.waiting, g))
          && (Holds(before.live, g) ==> Holds(after.live, g)))
  }

  lemma ReleaseKept(b: Budget, id: ReservationId)
    requires Good(b)
    ensures BudgetKept(b, Released(b, id), id)
  {
    ReleasedIsGood(b, id);
    WithoutKeepsDistinct(b, id);
    DrainKeepsAll(b.(live := Without(b.live, id)));
    forall g: nat | g != id
      ensures Holds(Released(b, id).live + Released(b, id).waiting, g) <==> Holds(b.live + b.waiting, g)
      ensures Holds(b.live, g) ==> Holds(Released(b, id).live, g)
    {
      ReleaseTouchesOnly(b, id, g);
    }
  }

  lemma GrowKept(b: Budget, id: ReservationId, bytes: nat)
    requires Good(b)
    ensures BudgetKept(b, Regrown(b, id, bytes), -1)
  {
    RegrownIsGood(b, id, bytes);
    ResizedKeepsDistinct(b, id, bytes);
    DrainKeepsAll(b.(live := Resized(b.live, id, bytes)));
    forall g: nat
      ensures Holds(Regrown(b, id, bytes).live + Regrown(b, id, bytes).waiting, g) <==> Holds(b.live + b.waiting, g)
      ensures Holds(b.live, g) ==> Holds(Regrown(b, id, bytes).live, g)
    {
      GrowTouchesOnly(b, id, bytes, g);
    }
  }

  lemma OthersKept(s: State, op: Operation)
    requires Good(s.budget) && !s.budget.disposed && IsForeign(s, op)
    ensures BudgetKept(s.budget, Step(s.budget, op), Target(op)) && Target(op) >= |s.phases|
  {
    StepIsGood(s.budget, op);
    StepKeepsLine(s.budget, op);
    forall g: nat | g != Target(op)
      ensures Holds(Step(s.budget, op).live + Step(s.budget, op).waiting, g) <==> Holds(s.budget.live + s.budget.waiting, g)
      ensures Holds(s.budget.live, g) ==> Holds(Step(s.budget, op).live, g)
    {
      StepTouchesOnly(s.budget, op, g);
    }
  }

  lemma AcquireKept(b: Budget, hold: Hold)
    requires Good(b) && !b.disposed && !Holds(b.live + b.waiting, hold.id)
    ensures BudgetKept(b, Acquired(b, hold), hold.id)
    ensures Holds(Acquired(b, hold).live + Acquired(b, hold).waiting, hold.id)
  {
    var op := Acquire(hold);
    StepIsGood(b, op);
    StepKeepsLine(b, op);
    forall g: nat | g != hold.id
      ensures Holds(Acquired(b, hold).live + Acquired(b, hold).waiting, g) <==> Holds(b.live + b.waiting, g)
      ensures Holds(b.live, g) ==> Holds(Acquired(b, hold).live, g)
    {
      StepTouchesOnly(b, op, g);
    }
    AcquiredIsGood(b, hold);
    HoldsInAppended(b.live + b.waiting, hold, hold.id);
  }

  /** Releasing one group's bytes and moving it on leaves every other group good. */
  lemma ClearKeepsGroups(s: State, g: nat, phase: Phase)
    requires g < |s.phases| == |s.releases| && Good(s.budget)
    requires forall k | 0 <= k < |s.phases| :: GroupGood(s, k)
    requires HoldsBytes(s.phases[g]) || (s.phases[g].Reserving? && Holds(s.budget.live, g))
    requires WasReleased(phase)
    ensures forall k | 0 <= k < |s.phases| :: GroupGood(Clear(s, g, phase), k)
    ensures Good(Clear(s, g, phase).budget)
  {
    var t := Clear(s, g, phase);
    assert GroupGood(s, g);
    ReleaseKept(s.budget, g);
    ReleaseEnds(s.budget, g);
    hide Good, Released, Holds;
    forall k | 0 <= k < |s.phases| ensures GroupGood(t, k) {
      assert GroupGood(s, k) && GroupGood(s, g);
      if k != g { assert t.phases[k] == s.phases[k] && t.releases[k] == s.releases[k]; }
    }
  }

  lemma BudgetStepKeepsGroups(s: State, budget: Budget, touched: int)
    requires |s.phases| == |s.releases| && BudgetKept(s.budget, budget, touched) && (touched < 0 || touched >= |s.phases|)
    requires forall k | 0 <= k < |s.phases| :: GroupGood(s, k)
    ensures forall k | 0 <= k < |s.phases| :: GroupGood(s.(budget := budget), k)
  {
    hide Good, Holds;
    forall k | 0 <= k < |s.phases| ensures GroupGood(s.(budget := budget), k) {
      assert GroupGood(s, k);
    }
  }

  lemma OwnAreStarted(c: Config, s: State, hold: Hold)
    requires |s.phases| == |s.releases| && forall k | 0 <= k < |s.phases| :: GroupGood(s, k)
    requires hold in s.budget.live + s.budget.waiting && hold.id < |s.phases|
    ensures hold.id < s.next
  {
    var line := s.budget.live + s.budget.waiting;
    var i :| 0 <= i < |line| && line[i] == hold;
    assert Holds(line, hold.id);
    assert GroupGood(s, hold.id);
  }

  lemma StartKeepsInvariant(c: Config, s: State)
    requires Invariant(c, s) && !s.stopped && s.consumer.Looping? && s.next < |s.phases| && s.next - s.head < c.concurrency
    ensures Invariant(c, Start(c, s))
  {
    var t, g := Start(c, s), s.next;
    assert GroupGood(s, g);
    if s.budget.disposed {
      forall k | 0 <= k < |s.phases| ensures GroupGood(t, k) { assert GroupGood(s, k); }
    } else {
      var hold := Hold(g, c.estimates[g]);
      forall other | other in s.budget.live + s.budget.waiting && other.id < |s.phases| ensures other.id < g {
        OwnAreStarted(c, s, other);
      }
      AcquireKept(s.budget, hold);
      AcquireKeepsOrder(s.budget, hold, |s.phases|);
      hide Good, Acquired, Holds, InOrder;
      forall k | 0 <= k < |s.phases| ensures GroupGood(t, k) { assert GroupGood(s, k); }
    }
  }

  lemma {:induction false} FillKeepsInvariant(c: Config, s: State)
    requires Invariant(c, s) && s.consumer.Looping?
    requires s.next < |s.phases| || s.head < s.next
    ensures var t := Fill(c, s);
      && Invariant(c, t) && t.consumer.Looping? && t.head == s.head < t.next
      && t.phases[..s.head] == s.phases[..s.head] && t.applied == s.applied && t.stopped == s.stopped
    decreases |s.phases| - s.next
  {
    if !s.stopped && s.next < |s.phases| && s.next - s.head < c.concurrency {
      StartKeepsInvariant(c, s);
      hide Invariant, Start;
      assert Start(c, s).head == s.head && Start(c, s).next == s.next + 1 by { StartShape(c, s); }
      StartShape(c, s);
      FillKeepsInvariant(c, Start(c, s));
    }
  }

  lemma StartShape(c: Config, s: State)
    requires s.head <= s.next < |s.phases| == |c.estimates|
    ensures var t := Start(c, s);
      && t.head == s.head && t.next == s.next + 1 && t.consumer == s.consumer && t.stopped == s.stopped
      && t.applied == s.applied && |t.phases| == |s.phases| && t.phases[..s.head] == s.phases[..s.head]
  {
  }

  /** Moving one group between phases with the same claim on the budget keeps all groups good. */
  lemma RelabelKeepsGroups(s: State, g: nat, phase: Phase)
    requires g < |s.phases| == |s.releases| && Good(s.budget)
    requires forall k | 0 <= k < |s.phases| :: GroupGood(s, k)
    requires !s.phases[g].Unstarted? && !phase.Unstarted? && !phase.Reserving?
    requires WasReleased(phase) == WasReleased(s.phases[g])
    requires HoldsBytes(phase) ==> Holds(s.budget.live, g)
    requires !HoldsBytes(phase) ==> !Holds(s.budget.live + s.budget.waiting, g)
    ensures forall k | 0 <= k < |s.phases| :: GroupGood(Relabeled(s, g, phase), k)
  {
    hide Good, Holds;
    forall k | 0 <= k < |s.phases| ensures GroupGood(Relabeled(s, g, phase), k) {
      assert GroupGood(s, k);
    }
  }

  lemma AdvanceKeepsInvariant(c: Config, s: State)
    requires Invariant(c, s) && Enabled(c, s, Advance)
    ensures Invariant(c, Do(c, s, Advance))
  {
    if s.next < |s.phases| || s.head < s.next {
      FillKeepsInvariant(c, s);
      var filled := Fill(c, s);
      var t := Do(c, s, Advance);
      hide Good, InOrder, Fill;
      forall k | 0 <= k < |t.phases| ensures GroupGood(t, k) { assert GroupGood(filled, k); }
    } else {
      var t := Do(c, s, Advance);
      hide Good, InOrder;
      forall k | 0 <= k < |t.phases| ensures GroupGood(t, k) { assert GroupGood(s, k); }
    }
  }

  lemma ResumeKeepsInvariant(c: Config, s: State, g: nat)
    requires Invariant(c, s) && Enabled(c, s, Resume(g))
    ensures Invariant(c, Do(c, s, Resume(g)))
  {
    assert GroupGood(s, g);
    if s.stopped {
      ClearKeepsGroups(s, g, Null(true));
      ReleaseKeepsOrder(s.budget, g, |s.phases|);
    } else {
      RelabelKeepsGroups(s, g, Preparing);
    }
    hide Good, InOrder, Released, GroupGood, Holds;
    KeepsCause(s, Do(c, s, Resume(g)), g);
  }

  /** A group that changes to or stays Null keeps the cause of a stop. */
  lemma KeepsCause(s: State, t: State, g: nat)
    requires StopHasCause(s) && |t.phases| == |s.phases| && t.stopped == s.stopped && t.next == s.next && First(t) == First(s)
    requires t.consumer == s.consumer && g < |s.phases|
    requires t.phases == s.phases[g := t.phases[g]] && (s.phases[g].Null? ==> t.phases[g].Null?)
    ensures StopHasCause(t)
  {
    if s.stopped && (s.consumer.Looping? || s.consumer.Awaiting? || s.consumer.AtWork?) {
      var k :| 0 <= First(s) <= k < s.next && k < |s.phases| && s.phases[k].Null?;
      assert t.phases[k].Null?;
    }
  }

  lemma RejectReserveKeepsInvariant(c: Config, s: State, g: nat)
    requires Invariant(c, s) && Enabled(c, s, RejectReserve(g))
    ensures Invariant(c, Do(c, s, RejectReserve(g)))
  {
    assert GroupGood(s, g);
    assert s.budget.waiting == [];
    assert s.budget.live + s.budget.waiting == s.budget.live;
    RelabelKeepsGroups(s, g, Failing(false));
    hide Good, InOrder, GroupGood, Holds;
    KeepsCause(s, Do(c, s, RejectReserve(g)), g);
  }

  lemma PrepareKeepsInvariant(c: Config, s: State, e: Event)
    requires Invariant(c, s) && Enabled(c, s, e) && (e.PrepareDone? || e.PrepareFails?)
    ensures Invariant(c, Do(c, s, e))
  {
    var g := e.g;
    assert GroupGood(s, g);
    if e.PrepareDone? {
      RelabelKeepsGroups(s, g, Ready);
    } else {
      ClearKeepsGroups(s, g, Failing(true));
      ReleaseKeepsOrder(s.budget, g, |s.phases|);
    }
    hide Good, InOrder, Released, GroupGood, Holds;
    KeepsCause(s, Do(c, s, e), g);
  }

  lemma CatchKeepsInvariant(c: Config, s: State, g: nat)
    requires Invariant(c, s) && Enabled(c, s, Catch(g))
    ensures Invariant(c, Do(c, s, Catch(g)))
  {
    var t := Do(c, s, Catch(g));
    assert GroupGood(s, g);
    RelabelKeepsGroups(s, g, Null(s.phases[g].granted));
    hide Good, InOrder, Holds;
    forall k | 0 <= k < |t.phases| ensures GroupGood(t, k) { assert GroupGood(Relabeled(s, g, t.phases[g]), k); }
    assert t.phases[g].Null? && First(t) == First(s);
    assert g >= First(s);
  }

  lemma TakeKeepsInvariant(c: Config, s: State)
    requires Invariant(c, s) && Enabled(c, s, TakeResult)
    ensures Invariant(c, Do(c, s, TakeResult))
  {
    var g := s.head - 1;
    var t := Do(c, s, TakeResult);
    assert GroupGood(s, g);
    if s.phases[g].Null? {
    } else if s.stopped {
      ClearKeepsGroups(s, g, Cleared);
      ReleaseKeepsOrder(s.budget, g, |s.phases|);
      forall k | 0 <= k < |t.phases| ensures GroupGood(t, k) { assert GroupGood(Clear(s, g, Cleared), k); }
    } else {
      RelabelKeepsGroups(s, g, Applying);
      forall k | 0 <= k < |t.phases| ensures GroupGood(t, k) { assert GroupGood(Relabeled(s, g, t.phases[g]), k); }
    }
    hide Good, InOrder, Released, Holds;
    if s.phases[g].Null? {
      forall k | 0 <= k < |t.phases| ensures GroupGood(t, k) { assert GroupGood(s, k); }
    }
  }

  lemma ApplyKeepsInvariant(c: Config, s: State, e: Event)
    requires Invariant(c, s) && Enabled(c, s, e) && (e.ApplyDone? || e.ApplyFails?)
    ensures Invariant(c, Do(c, s, e))
  {
    var g := s.head - 1;
    var t := Do(c, s, e);
    ClearKeepsGroups(s, g, Cleared);
    ReleaseKeepsOrder(s.budget, g, |s.phases|);
    forall k | 0 <= k < |t.phases| ensures GroupGood(t, k) { assert GroupGood(Clear(s, g, Cleared), k); }
    hide Good, InOrder, Released, Holds, GroupGood;
    if e.ApplyDone? && s.stopped {
      var k :| 0 <= First(s) <= k < s.next && k < |s.phases| && s.phases[k].Null?;
      assert k != g && t.phases[k].Null?;
    }
  }

  lemma CollectKeepsInvariant(c: Config, s: State, g: nat)
    requires Invariant(c, s) && Enabled(c, s, Collect(g))
    ensures Invariant(c, Do(c, s, Collect(g)))
  {
    ClearKeepsGroups(s, g, Cleared);
    ReleaseKeepsOrder(s.budget, g, |s.phases|);
    hide Good, InOrder, Released, Holds, GroupGood;
  }

  lemma BudgetEventKeepsInvariant(c: Config, s: State, e: Event)
    requires Invariant(c, s) && Enabled(c, s, e) && (e.Retain? || e.Others? || e.DisposeBudget?)
    ensures Invariant(c, Do(c, s, e))
  {
    match e
    case Retain(g, bytes) =>
      GrowKept(s.budget, g, bytes);
      GrowKeepsOrder(s.budget, g, bytes, |s.phases|);
      BudgetStepKeepsGroups(s, Regrown(s.budget, g, bytes), -1);
      hide Good, InOrder, Regrown, Holds, GroupGood;
    case Others(op) =>
      OthersKept(s, op);
      OthersKeepOrder(s, op);
      BudgetStepKeepsGroups(s, Step(s.budget, op), Target(op));
      hide Good, InOrder, Step, Holds, GroupGood;
    case DisposeBudget => DisposeKeepsInvariant(c, s);
  }

  lemma DisposeKeepsInvariant(c: Config, s: State)
    requires Invariant(c, s)
    ensures Invariant(c, s.(budget := Disposed(s.budget)))
  {
    var b, d := s.budget, Disposed(s.budget);
    assert Good(d) by { assert forall i | 0 <= i < |d.live| :: (b.live + b.waiting)[i] == (d.live + d.waiting)[i]; }
    assert InOrder(d, |s.phases|);
    forall k | 0 <= k < |s.phases| ensures GroupGood(s.(budget := d), k) {
      assert GroupGood(s, k);
      HoldsLive(b, k);
      HoldsLive(d, k);
    }
    hide Good, InOrder, GroupGood;
  }

  /** Every step keeps the invariant: reservations follow the tasks, in plan order, at most `concurrency` at once. */
  lemma StepKeepsInvariant(c: Config, s: State, e: Event)
    requires Invariant(c, s) && Enabled(c, s, e)
    ensures Invariant(c, Do(c, s, e))
  {
    match e
    case Advance => AdvanceKeepsInvariant(c, s);
    case Resume(g) => ResumeKeepsInvariant(c, s, g);
    case RejectReserve(g) => RejectReserveKeepsInvariant(c, s, g);
    case PrepareDone(g) => PrepareKeepsInvariant(c, s, e);
    case PrepareFails(g) => PrepareKeepsInvariant(c, s, e);
    case Catch(g) => CatchKeepsInvariant(c, s, g);
    case TakeResult => TakeKeepsInvariant(c, s);
    case ApplyDone => ApplyKeepsInvariant(c, s, e);
    case ApplyFails => ApplyKeepsInvariant(c, s, e);
    case Collect(g) => CollectKeepsInvariant(c, s, g);
    case Finish =>
      hide Good, InOrder, GroupGood;
      forall k | 0 <= k < |s.phases| ensures GroupGood(Do(c, s, e), k) { FinishKeepsGroup(s, k); }
    case Retain(_, _) => BudgetEventKeepsInvariant(c, s, e);
    case Others(_) => BudgetEventKeepsInvariant(c, s, e);
    case DisposeBudget => BudgetEventKeepsInvariant(c, s, e);
  }

  lemma FinishKeepsGroup(s: State, k: nat)
    requires k < |s.phases| == |s.releases| && GroupGood(s, k)
    ensures GroupGood(s.(consumer := Finished), k)
  {
  }

  // ---------------------------------------------------------------- whole runs

  datatype Trace = Begin | Then(earlier: Trace, event: Event)

  /** The trace leads from an initial state to `s`. */
  ghost predicate Reaches(c: Config, trace: Trace, s: State) {
    match trace
    case Begin => Initial(c, s)
    case Then(earlier, e) => exists before :: Reaches(c, earlier, before) && Enabled(c, before, e) && s == Do(c, before, e)
  }

  lemma InitialIsGood(c: Config, s: State)
    requires Initial(c, s)
    ensures Invariant(c, s)
  {
    var line := s.budget.live + s.budget.waiting;
    forall i | 0 <= i < |line| ensures line[i].id >= |s.phases| {
      assert Holds(line, line[i].id);
    }
    assert InOrder(s.budget, |s.phases|) by {
      forall i | 0 <= i < |s.budget.waiting| ensures s.budget.waiting[i].id >= |s.phases| {
        assert s.budget.waiting[i] == line[|s.budget.live| + i];
      }
    }
    hide Good, Holds;
  }

  lemma {:induction false} RunKeepsInvariant(c: Config, trace: Trace, s: State)
    requires Reaches(c, trace, s)
    ensures Invariant(c, s)
  {
    hide Invariant, Initial, Do, Enabled;
    match trace
    case Begin => InitialIsGood(c, s);
    case Then(earlier, e) =>
      var before :| Reaches(c, earlier, before) && Enabled(c, before, e) && s == Do(c, before, e);
      RunKeepsInvariant(c, earlier, before);
      StepKeepsInvariant(c, before, e);
  }

  /** Groups are applied in plan order, without a gap, whatever fails. */
  lemma AppliedInPlanOrder(c: Config, trace: Trace, s: State)
    requires Reaches(c, trace, s)
    ensures |s.applied| <= |s.phases| && forall k | 0 <= k < |s.applied| :: s.applied[k] == k
  {
    RunKeepsInvariant(c, trace, s);
  }

  /** A run that ends without a failure has applied every group. */
  lemma NormalExitAppliesAll(c: Config, trace: Trace, s: State)
    requires Reaches(c, trace, s) && s.consumer.Looping? && Do(c, s, Advance).consumer.Finishing?
    ensures |s.applied| == |s.phases|
  {
    RunKeepsInvariant(c, trace, s);
  }

  /** The consumer never takes from an empty queue: there is a task to await at every turn. */
  lemma ThereIsATaskToAwait(c: Config, trace: Trace, s: State)
    requires Reaches(c, trace, s) && s.consumer.Looping? && (s.next < |s.phases| || s.head < s.next)
    ensures Fill(c, s).head < Fill(c, s).next
  {
    RunKeepsInvariant(c, trace, s);
    FillKeepsInvariant(c, s);
  }

  ghost function Outstanding(s: State): set<nat> {
    set g: nat | g < |s.phases| && Holds(s.budget.live + s.budget.waiting, g)
  }

  ghost function Interval(lo: nat, hi: nat): (r: set<nat>)
    ensures forall k :: k in r <==> lo <= k < hi
    ensures |r| == if lo < hi then hi - lo else 0
  {
    if lo < hi then Interval(lo, hi - 1) + {hi - 1} else {}
  }

  lemma SubsetSize(a: set<nat>, b: set<nat>)
    requires a <= b
    ensures |a| <= |b|
  {
    if a != {} {
      var x :| x in a;
      SubsetSize(a - {x}, b - {x});
    }
  }

  /** At most `concurrency` reservations are outstanding, waiting or admitted. */
  lemma AtMostConcurrencyOutstanding(c: Config, trace: Trace, s: State)
    requires Reaches(c, trace, s)
    ensures |Outstanding(s)| <= c.concurrency
  {
    RunKeepsInvariant(c, trace, s);
    var lo, hi := First(s), s.next;
    forall g | g in Outstanding(s) ensures lo <= g < hi {
      assert GroupGood(s, g);
    }
    SubsetSize(Outstanding(s), Interval(lo, hi));
  }

  /** While an earlier group waits for its bytes, no later group holds any. */
  lemma NoGroupOvertakes(c: Config, trace: Trace, s: State, earlier: nat, later: nat)
    requires Reaches(c, trace, s) && earlier < later < |s.phases|
    ensures Holds(s.budget.waiting, earlier) ==> !Holds(s.budget.live, later)
  {
    RunKeepsInvariant(c, trace, s);
  }

  /** When the group the consumer awaits is still queued, this pipeline holds no bytes at all:
      it never waits for itself. */
  lemma NeverWaitsForItself(c: Config, trace: Trace, s: State, awaited: nat, g: nat)
    requires Reaches(c, trace, s) && s.consumer.Awaiting? && awaited == s.head - 1 && g < |s.phases|
    requires Holds(s.budget.waiting, awaited)
    ensures !Holds(s.budget.live, g)
  {
    RunKeepsInvariant(c, trace, s);
    if g == awaited {
      WaitingIsNotLive(s.budget, g);
    } else if g < awaited {
      assert GroupGood(s, g);
      HoldsLive(s.budget, g);
    } else {
      NoGroupOvertakes(c, trace, s, awaited, g);
    }
  }

  lemma WaitingIsNotLive(b: Budget, g: nat)
    requires Distinct(b.live + b.waiting) && Holds(b.waiting, g)
    ensures !Holds(b.live, g)
  {
    var line := b.live + b.waiting;
    var j := IndexOf(b.waiting, g);
    forall i | 0 <= i < |b.live| ensures b.live[i].id != g {
      assert line[i] == b.live[i] && line[|b.live| + j] == b.waiting[j];
    }
  }

  /** No reservation is released twice; when the pipeline has finished, each one that was ever admitted has
      been released once and none is left, on success and on every failure. */
  lemma EveryReservationIsReleasedOnce(c: Config, trace: Trace, s: State, g: nat)
    requires Reaches(c, trace, s) && g < |s.phases|
    ensures |s.releases| == |s.phases| && s.releases[g] <= 1
    ensures s.consumer.Finished? ==>
      && !Holds(s.budget.live + s.budget.waiting, g)
      && (s.releases[g] == 1 <==> s.phases[g].Cleared? || s.phases[g] == Null(true))
      && (s.releases[g] == 0 <==> s.phases[g].Unstarted? || s.phases[g] == Null(false))
  {
    RunKeepsInvariant(c, trace, s);
    assert GroupGood(s, g);
  }
}

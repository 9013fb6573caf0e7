/**
 Where the pull pipeline gets to: it never hangs by itself, it ends after a bounded number of its own steps, it keeps as
 many groups prepared as it may, each charged with its estimate, and a failure stops it.
 */
module PullProgress {
  import opened ByteBudget
  import opened PullPipeline

  // ---------------------------------------------------------------- how far the consumer is

  /** A group is cleared only once the consumer has passed it, and the end of the loop stops everything. */
  ghost predicate Passed(s: State) {
    && (s.consumer.Finishing? || s.consumer.Finished? ==> s.stopped)
    && (!s.consumer.Finishing? && !s.consumer.Finished? ==>
          forall g | 0 <= First(s) <= g < |s.phases| :: !s.phases[g].Cleared?)
  }

  lemma {:induction false} FillKeepsPassed(c: Config, s: State)
    requires Invariant(c, s) && s.consumer.Looping? && Passed(s) && (s.next < |s.phases| || s.head < s.next)
    ensures Passed(Fill(c, s)) && Fill(c, s).consumer == s.consumer && Fill(c, s).head == s.head
    decreases |s.phases| - s.next
  {
    if !s.stopped && s.next < |s.phases| && s.next - s.head < c.concurrency {
      StartKeepsInvariant(c, s);
      StartShape(c, s);
      assert Passed(Start(c, s)) by { hide Invariant, Acquired; }
      hide Invariant, Start, Passed;
      FillKeepsPassed(c, Start(c, s));
    }
  }

  lemma StepKeepsPassed(c: Config, s: State, e: Event)
    requires Invariant(c, s) && Enabled(c, s, e) && Passed(s)
    ensures Passed(Do(c, s, e))
  {
    if e.Advance? {
      if s.next < |s.phases| || s.head < s.next {
        FillKeepsPassed(c, s);
        FillKeepsInvariant(c, s);
      }
      hide Invariant, Fill;
    } else {
      hide Good, InOrder, GroupGood, Released, Regrown, Step, Holds, StopHasCause;
    }
  }

  lemma {:induction false} RunKeepsPassed(c: Config, trace: Trace, s: State)
    requires Reaches(c, trace, s)
    ensures Invariant(c, s) && Passed(s)
  {
    RunKeepsInvariant(c, trace, s);
    match trace
    case Begin =>
    case Then(earlier, e) =>
      hide Invariant, Initial, Do, Enabled, Passed;
      var before :| Reaches(c, earlier, before) && Enabled(c, before, e) && s == Do(c, before, e);
      RunKeepsPassed(c, earlier, before);
      StepKeepsPassed(c, before, e);
  }

  // ---------------------------------------------------------------- it never hangs by itself

  /** A step of the pipeline itself, not of the budget's other users or of an owner that retains more. */
  predicate IsOwn(e: Event) { !e.Retain? && !e.Others? && !e.DisposeBudget? }

  /** Somebody else holds bytes of the budget. */
  ghost predicate OthersHold(s: State) { exists hold :: hold in s.budget.live && hold.id >= |s.phases| }

  /** The step that takes the group on, if its task has one to take. */
  function NextOf(s: State, g: nat): Event
    requires g < |s.phases|
  {
    match s.phases[g]
    case Reserving => if Holds(s.budget.live, g) then Resume(g) else RejectReserve(g)
    case Preparing => PrepareDone(g)
    case Failing(_) => Catch(g)
    case _ => Collect(g)
  }

  lemma TaskGoesOn(c: Config, s: State, g: nat)
    requires Invariant(c, s) && g < |s.phases|
    requires s.phases[g].Preparing? || s.phases[g].Failing?
          || (s.phases[g].Reserving? && (s.budget.disposed || Holds(s.budget.live, g)))
    ensures Enabled(c, s, NextOf(s, g)) && IsOwn(NextOf(s, g))
  {
    hide Good, InOrder, GroupGood, Consumed, StopHasCause;
  }

  lemma WaiterMeansHolder(s: State, g: nat)
    requires Good(s.budget) && Holds(s.budget.waiting, g)
    ensures s.budget.live != [] && !s.budget.disposed && s.budget.live[0] in s.budget.live
    ensures Holds(s.budget.live, s.budget.live[0].id)
  {
    WaitersImplyHolders(s.budget);
  }

  /** A pipeline that has not finished has a step of its own to take, or waits for bytes that somebody else holds. */
  lemma NeverHangs(c: Config, trace: Trace, s: State) returns (e: Event)
    requires Reaches(c, trace, s) && !s.consumer.Finished?
    ensures IsOwn(e) && (Enabled(c, s, e) || OthersHold(s))
  {
    RunKeepsPassed(c, trace, s);
    if s.consumer.Looping? {
      e := Advance;
    } else if s.consumer.AtWork? {
      e := ApplyDone;
    } else if s.consumer.Awaiting? {
      e := AwaitedGoesOn(c, trace, s);
    } else {
      e := FinishingGoesOn(c, s);
    }
  }

  lemma AwaitedGoesOn(c: Config, trace: Trace, s: State) returns (e: Event)
    requires Reaches(c, trace, s) && s.consumer.Awaiting? && Invariant(c, s) && Passed(s)
    ensures IsOwn(e) && (Enabled(c, s, e) || OthersHold(s))
  {
    var g := s.head - 1;
    assert GroupGood(s, g);
    if s.phases[g].Ready? || s.phases[g].Null? {
      e := TakeResult;
    } else {
      e := NextOf(s, g);
      HoldsLive(s.budget, g);
      hide Good, InOrder, StopHasCause;
      if s.phases[g].Reserving? && !s.budget.disposed && !Holds(s.budget.live, g) {
        WaiterMeansHolder(s, g);
        var holder := s.budget.live[0];
        if holder.id < |s.phases| { NeverWaitsForItself(c, trace, s, g, holder.id); }
      } else {
        TaskGoesOn(c, s, g);
      }
    }
  }

  lemma FinishingGoesOn(c: Config, s: State) returns (e: Event)
    requires Invariant(c, s) && s.consumer.Finishing?
    ensures IsOwn(e) && (Enabled(c, s, e) || OthersHold(s))
  {
    if forall g | s.head <= g < s.next && g < |s.phases| :: Settled(s.phases[g]) {
      e := Finish;
    } else {
      var g :| s.head <= g < s.next && g < |s.phases| && !Settled(s.phases[g]);
      assert GroupGood(s, g);
      HoldsLive(s.budget, g);
      hide InOrder, StopHasCause, Good;
      if s.phases[g].Reserving? && !s.budget.disposed && !Holds(s.budget.live, g) {
        WaiterMeansHolder(s, g);
        var holder := s.budget.live[0];
        e := if holder.id < |s.phases| then NextOf(s, holder.id) else Finish;
        if holder.id < |s.phases| { HolderGoesOn(c, s, holder.id); }
      } else {
        e := NextOf(s, g);
        if !s.phases[g].Ready? { TaskGoesOn(c, s, g); }
      }
    }
  }

  lemma HolderGoesOn(c: Config, s: State, g: nat)
    requires Invariant(c, s) && s.consumer.Finishing? && g < |s.phases| && Holds(s.budget.live, g)
    ensures Enabled(c, s, NextOf(s, g)) && IsOwn(NextOf(s, g))
  {
    assert GroupGood(s, g);
    HoldsLive(s.budget, g);
    hide Good, InOrder, StopHasCause;
    if !s.phases[g].Ready? { TaskGoesOn(c, s, g); }
  }

  // ---------------------------------------------------------------- it ends

  function Rank(phase: Phase): nat {
    match phase
    case Unstarted => 5
    case Reserving => 4
    case Preparing => 3
    case Ready => 2
    case Failing(_) => 2
    case Applying => 1
    case Null(_) => 0
    case Cleared => 0
  }

  function Ranks(phases: seq<Phase>): nat { if phases == [] then 0 else Rank(phases[0]) + Ranks(phases[1..]) }

  function ConsumerRank(consumer: Consumer): nat {
    match consumer
    case Awaiting => 4
    case AtWork => 3
    case Looping => 2
    case Finishing => 1
    case Finished => 0
  }

  /** The steps the pipeline can still take by itself, at most. */
  function StepsLeft(s: State): int { Ranks(s.phases) + 3 * (|s.phases| - s.head) + ConsumerRank(s.consumer) }

  lemma {:induction false} RankMoves(phases: seq<Phase>, g: nat, phase: Phase)
    requires g < |phases|
    ensures Ranks(phases[g := phase]) - Ranks(phases) == Rank(phase) - Rank(phases[g])
  {
    if g > 0 {
      assert phases[g := phase][1..] == phases[1..][g - 1 := phase];
      RankMoves(phases[1..], g - 1, phase);
    } else {
      assert phases[0 := phase][1..] == phases[1..];
    }
  }

  lemma {:induction false} FillLowers(c: Config, s: State)
    requires Invariant(c, s) && s.consumer.Looping? && (s.next < |s.phases| || s.head < s.next)
    ensures Ranks(Fill(c, s).phases) <= Ranks(s.phases) && |Fill(c, s).phases| == |s.phases|
    ensures Fill(c, s).head == s.head
    decreases |s.phases| - s.next
  {
    if !s.stopped && s.next < |s.phases| && s.next - s.head < c.concurrency {
      StartKeepsInvariant(c, s);
      StartShape(c, s);
      assert GroupGood(s, s.next);
      RankMoves(s.phases, s.next, Start(c, s).phases[s.next]);
      assert Ranks(Start(c, s).phases) <= Ranks(s.phases) by { hide Invariant, Acquired, Ranks; }
      hide Invariant, Start, Ranks;
      FillLowers(c, Start(c, s));
    }
  }

  /** The group whose task a step moves on, if it moves one. */
  function Moved(s: State, e: Event): int {
    if e.TakeResult? || e.ApplyDone? || e.ApplyFails? then s.head - 1
    else if e.Resume? || e.RejectReserve? || e.PrepareDone? || e.PrepareFails? || e.Catch? || e.Collect? then e.g
    else -1
  }

  lemma MovedAlone(c: Config, s: State, e: Event)
    requires Consumed(s) && Enabled(c, s, e) && !e.Advance?
    ensures var t, g := Do(c, s, e), Moved(s, e);
      && t.head == s.head && |t.phases| == |s.phases|
      && if g < 0 then t.phases == s.phases
         else g < |s.phases| && t.phases == s.phases[g := t.phases[g]]
  {
    hide Released, Regrown, Step, Holds, Disposed, Settled, IsForeign;
  }

  lemma MovedOn(c: Config, s: State, e: Event)
    requires Consumed(s) && Enabled(c, s, e) && IsOwn(e) && !e.Advance?
    ensures var t, g := Do(c, s, e), Moved(s, e);
      if g < 0 then t.phases == s.phases && ConsumerRank(t.consumer) < ConsumerRank(s.consumer)
      else
        && g < |s.phases| == |t.phases|
        && Rank(t.phases[g]) + ConsumerRank(t.consumer) < Rank(s.phases[g]) + ConsumerRank(s.consumer)
  {
    hide Released, Regrown, Step, Holds, Disposed, Settled, IsForeign;
  }

  /** Each step of its own brings the pipeline closer to its end, and no step of anybody else takes it back. */
  lemma OwnStepsCountDown(c: Config, s: State, e: Event)
    requires Invariant(c, s) && Enabled(c, s, e)
    ensures var t := Do(c, s, e);
      0 <= StepsLeft(t) && if IsOwn(e) then StepsLeft(t) < StepsLeft(s) else StepsLeft(t) == StepsLeft(s)
  {
    StepKeepsInvariant(c, s, e);
    var t, g := Do(c, s, e), Moved(s, e);
    assert 0 <= StepsLeft(t) by { hide Ranks, GroupGood, Do; }
    if e.Advance? {
      if s.next < |s.phases| || s.head < s.next { FillLowers(c, s); }
      hide Invariant, Fill, Ranks;
    } else {
      MovedAlone(c, s, e);
      if g >= 0 { RankMoves(s.phases, g, t.phases[g]); }
      if IsOwn(e) {
        MovedOn(c, s, e);
        hide Invariant, Enabled, Do, Moved, Ranks, Rank, ConsumerRank;
      } else {
        hide Invariant, Ranks;
      }
    }
  }

  function OwnSteps(trace: Trace): nat {
    match trace
    case Begin => 0
    case Then(earlier, e) => OwnSteps(earlier) + if IsOwn(e) then 1 else 0
  }

  lemma {:induction false} RankOfStart(phases: seq<Phase>)
    requires forall g | 0 <= g < |phases| :: phases[g].Unstarted?
    ensures Ranks(phases) == 5 * |phases|
  {
    if phases != [] { RankOfStart(phases[1..]); }
  }

  /** Whatever fails and whoever interferes, a run takes at most eight steps of its own per group and two more. */
  lemma {:induction false} RunsAreBounded(c: Config, trace: Trace, s: State)
    requires Reaches(c, trace, s)
    ensures OwnSteps(trace) + StepsLeft(s) <= 8 * |s.phases| + 2 && 0 <= StepsLeft(s)
  {
    RunKeepsInvariant(c, trace, s);
    match trace
    case Begin => RankOfStart(s.phases);
    case Then(earlier, e) =>
      hide Invariant, Initial, Enabled, StepsLeft;
      var before :| Reaches(c, earlier, before) && Enabled(c, before, e) && s == Do(c, before, e);
      RunKeepsInvariant(c, earlier, before);
      RunsAreBounded(c, earlier, before);
      OwnStepsCountDown(c, before, e);
      SameGroups(c, before, e);
      hide Do;
  }

  lemma SameGroups(c: Config, s: State, e: Event)
    requires Invariant(c, s) && Enabled(c, s, e)
    ensures |Do(c, s, e).phases| == |s.phases|
  {
    if e.Advance? && (s.next < |s.phases| || s.head < s.next) { FillKeepsInvariant(c, s); }
    hide Invariant, Fill;
  }

  // ---------------------------------------------------------------- a failure stops it

  /** A failed preparation stops the pipeline once its error is caught, a failed application at once. */
  lemma FailureStops(c: Config, s: State, e: Event)
    requires Enabled(c, s, e) && (e.Catch? || e.ApplyFails? || (e.TakeResult? && s.phases[s.head - 1].Null?))
    ensures Do(c, s, e).stopped && (!e.Catch? ==> Do(c, s, e).consumer.Finishing?)
  {
  }

  /** A stopped pipeline stays stopped; it starts no group, prepares and applies no further one, and writes off only what it
      was applying. */
  lemma StoppedStartsNothing(c: Config, s: State, e: Event)
    requires Invariant(c, s) && Enabled(c, s, e) && s.stopped
    ensures var t := Do(c, s, e);
      && t.stopped && t.next == s.next && |t.phases| == |s.phases|
      && (forall g | 0 <= g < |s.phases| && (t.phases[g].Preparing? || t.phases[g].Applying?) :: t.phases[g] == s.phases[g])
      && (t.applied == s.applied || (e.ApplyDone? && t.applied == s.applied + [s.head - 1]))
      && (t.consumer.AtWork? ==> s.consumer.AtWork?)
  {
    hide Good, InOrder, GroupGood, Released, Regrown, Step, Holds, StopHasCause;
  }

  ghost predicate Continues(c: Config, s: State, trace: Trace, t: State) {
    match trace
    case Begin => t == s
    case Then(earlier, e) => exists before :: Continues(c, s, earlier, before) && Enabled(c, before, e) && t == Do(c, before, e)
  }

  /** After a failure no run starts another group, and applies none but the one it was applying. */
  lemma {:induction false} NothingAfterFailure(c: Config, s: State, trace: Trace, t: State)
    requires Invariant(c, s) && s.stopped && Continues(c, s, trace, t)
    ensures Invariant(c, t) && t.stopped && t.next == s.next && |t.phases| == |s.phases|
    ensures |t.applied| <= |s.applied| + (if s.consumer.AtWork? then 1 else 0)
    ensures t.consumer.AtWork? ==> s.consumer.AtWork? && t.applied == s.applied
    ensures forall g | 0 <= g < |s.phases| && t.phases[g].Preparing? :: s.phases[g].Preparing?
  {
    match trace
    case Begin =>
    case Then(earlier, e) =>
      var before :| Continues(c, s, earlier, before) && Enabled(c, before, e) && t == Do(c, before, e);
      NothingAfterFailure(c, s, earlier, before);
      StepKeepsInvariant(c, before, e);
      StoppedStartsNothing(c, before, e);
      assert e.ApplyDone? ==> before.consumer.AtWork? && !t.consumer.AtWork?;
      hide Invariant, Do, Enabled;
  }

  /** A disposed budget keeps what is held and rejects whoever waits; their tasks then fail one by one. */
  lemma DisposingRejects(c: Config, s: State, g: nat)
    requires Invariant(c, s)
    ensures var t := Do(c, s, DisposeBudget);
      && t == s.(budget := t.budget) && t.budget.disposed && t.budget.waiting == [] && t.budget.live == s.budget.live
      && (g < |s.phases| && s.phases[g].Reserving? && !Holds(s.budget.live, g) ==> Enabled(c, t, RejectReserve(g)))
  {
  }

  // ---------------------------------------------------------------- how much it starts, and at what price

  /** A group's reservation is for its estimate as long as it waits, and until its preparation begins. */
  ghost predicate Priced(c: Config, s: State) {
    forall hold | hold in s.budget.live + s.budget.waiting && hold.id < |s.phases| == |c.estimates| ::
      hold.id < s.next && (s.phases[hold.id].Reserving? ==> hold.bytes == c.estimates[hold.id])
  }

  lemma LineOfAcquired(b: Budget, hold: Hold)
    requires Good(b) && !b.disposed && !Holds(b.live + b.waiting, hold.id)
    ensures Acquired(b, hold).live + Acquired(b, hold).waiting == b.live + b.waiting + [hold]
  {
    AcquiredIsGood(b, hold);
  }

  lemma StartKeepsPriced(c: Config, s: State)
    requires Invariant(c, s) && Priced(c, s) && s.next < |s.phases|
    ensures Priced(c, Start(c, s))
    ensures !s.budget.disposed ==> Hold(s.next, c.estimates[s.next]) in Start(c, s).budget.live + Start(c, s).budget.waiting
  {
    if !s.budget.disposed {
      var hold := Hold(s.next, c.estimates[s.next]);
      assert GroupGood(s, s.next);
      LineOfAcquired(s.budget, hold);
      hide Acquired, Invariant;
    }
  }

  /** The pipeline starts as many groups as it may, `concurrency` from the one it awaits on, in plan order; each reserves
      its estimate, unless the budget is disposed. */
  lemma {:induction false} FillStartsAll(c: Config, s: State)
    requires Invariant(c, s) && s.consumer.Looping? && Priced(c, s) && (s.next < |s.phases| || s.head < s.next)
    ensures var t := Fill(c, s);
      && Priced(c, t) && |t.phases| == |s.phases| && t.budget.disposed == s.budget.disposed
      && t.phases[..s.next] == s.phases[..s.next]
      && t.next == (if s.stopped || s.next - s.head >= c.concurrency then s.next
                    else if s.head + c.concurrency <= |s.phases| then s.head + c.concurrency else |s.phases|)
      && (forall g | s.next <= g < t.next :: t.phases[g] == if s.budget.disposed then Failing(false) else Reserving)
    decreases |s.phases| - s.next
  {
    if !s.stopped && s.next < |s.phases| && s.next - s.head < c.concurrency {
      StartKeepsInvariant(c, s);
      StartShape(c, s);
      StartKeepsPriced(c, s);
      var u := Start(c, s);
      assert u.budget.disposed == s.budget.disposed by { StartKeepsDisposal(c, s); }
      assert u.phases[..s.next] == s.phases[..s.next] && u.phases[s.next] == if s.budget.disposed then Failing(false) else Reserving;
      hide Invariant, Start, Priced;
      FillStartsAll(c, u);
      assert Fill(c, s) == Fill(c, u);
      forall g | 0 <= g < u.next ensures Fill(c, u).phases[g] == u.phases[g] {
        assert Fill(c, u).phases[..u.next][g] == u.phases[..u.next][g];
      }
    }
  }

  lemma StartKeepsDisposal(c: Config, s: State)
    requires Invariant(c, s) && s.next < |s.phases|
    ensures Start(c, s).budget.disposed == s.budget.disposed
  {
    if !s.budget.disposed {
      assert GroupGood(s, s.next);
      AcquireKept(s.budget, Hold(s.next, c.estimates[s.next]));
      hide Acquired, Invariant;
    }
  }

  /** A budget step of one reservation brings in no other. */
  lemma ReleaseBringsNone(b: Budget, id: ReservationId, hold: Hold)
    requires Good(b) && hold in Released(b, id).live + Released(b, id).waiting
    ensures hold in b.live + b.waiting
  {
    var less := b.(live := Without(b.live, id));
    WithoutKeepsDistinct(b, id);
    DrainKeepsAll(less);
    if Holds(b.live, id) { WithoutMembers(b, id, hold); }
    hide Without, Drained, Good;
  }

  lemma GrowBringsNone(b: Budget, id: ReservationId, bytes: nat, hold: Hold)
    requires Good(b) && hold in Regrown(b, id, bytes).live + Regrown(b, id, bytes).waiting && hold.id != id
    ensures hold in b.live + b.waiting
  {
    ResizedKeepsDistinct(b, id, bytes);
    DrainKeepsAll(b.(live := Resized(b.live, id, bytes)));
    if Holds(b.live, id) { ResizedMembers(b, id, bytes, hold); }
    hide Resized, Drained, Good;
  }

  lemma OthersBringNone(s: State, op: Operation, hold: Hold)
    requires Good(s.budget) && !s.budget.disposed && IsForeign(s, op)
    requires hold in Step(s.budget, op).live + Step(s.budget, op).waiting && hold.id < |s.phases|
    ensures hold in s.budget.live + s.budget.waiting
  {
    hide Good, Released, Regrown, Acquired;
    match op
    case Try(other) => assert hold != other; LineOfTry(s.budget, other);
    case Acquire(other) => assert hold != other; LineOfAcquired(s.budget, other);
    case Release(id) => ReleaseBringsNone(s.budget, id, hold);
    case Grow(id, bytes) => GrowBringsNone(s.budget, id, bytes, hold);
  }

  lemma LineOfTry(b: Budget, hold: Hold)
    requires Good(b) && !b.disposed && !Holds(b.live + b.waiting, hold.id)
    ensures var t := Step(b, Try(hold));
      t.live + t.waiting == b.live + b.waiting || t.live + t.waiting == b.live + b.waiting + [hold]
  {
    AdmittedExactly(b, hold);
  }

  /** Nothing but a start brings a group's reservation into the budget, and only the owner of a running preparation
      changes it. */
  lemma StepBringsNone(c: Config, s: State, e: Event, hold: Hold)
    requires Invariant(c, s) && Enabled(c, s, e) && !e.Advance? && hold.id < |s.phases|
    requires hold in Do(c, s, e).budget.live + Do(c, s, e).budget.waiting
    ensures hold in s.budget.live + s.budget.waiting || (e.Retain? && hold.id == e.g)
  {
    hide Good, InOrder, GroupGood, Consumed, StopHasCause, Released, Regrown, Step, Holds, IsForeign;
    match e
    case Resume(g) => if s.stopped { ReleaseBringsNone(s.budget, g, hold); }
    case PrepareFails(g) => ReleaseBringsNone(s.budget, g, hold);
    case TakeResult =>
      if !s.phases[s.head - 1].Null? && s.stopped { ReleaseBringsNone(s.budget, s.head - 1, hold); }
    case ApplyDone => ReleaseBringsNone(s.budget, s.head - 1, hold);
    case ApplyFails => ReleaseBringsNone(s.budget, s.head - 1, hold);
    case Collect(g) => ReleaseBringsNone(s.budget, g, hold);
    case Retain(g, bytes) => if hold.id != g { GrowBringsNone(s.budget, g, bytes, hold); }
    case Others(op) => OthersBringNone(s, op, hold);
    case _ =>
  }

  lemma StepKeepsPriced(c: Config, s: State, e: Event)
    requires Invariant(c, s) && Enabled(c, s, e) && Priced(c, s)
    ensures Priced(c, Do(c, s, e))
  {
    var t := Do(c, s, e);
    if e.Advance? {
      if s.next < |s.phases| || s.head < s.next { FillStartsAll(c, s); }
      hide Invariant, Fill;
    } else {
      SameGroups(c, s, e);
      forall hold | hold in t.budget.live + t.budget.waiting && hold.id < |t.phases| == |c.estimates|
        ensures hold.id < t.next && (t.phases[hold.id].Reserving? ==> hold.bytes == c.estimates[hold.id])
      {
        StepBringsNone(c, s, e, hold);
        PhaseBefore(c, s, e, hold.id);
        hide Do, Invariant;
      }
    }
  }

  lemma PhaseBefore(c: Config, s: State, e: Event, g: nat)
    requires Invariant(c, s) && Enabled(c, s, e) && !e.Advance? && g < |s.phases|
    ensures Do(c, s, e).next == s.next && |Do(c, s, e).phases| == |s.phases|
    ensures Do(c, s, e).phases[g].Reserving? ==> s.phases[g].Reserving? && !(e.Retain? && e.g == g)
    ensures e.Retain? && e.g == g ==> g < s.next
  {
    assert GroupGood(s, g);
    hide Good, InOrder, Consumed, StopHasCause, Released, Regrown, Step, Holds, IsForeign;
  }

  /** In every run a group that waits for bytes, or was just given them, asks for its estimate. */
  lemma {:induction false} GroupsReserveTheirEstimates(c: Config, trace: Trace, s: State)
    requires Reaches(c, trace, s)
    ensures Invariant(c, s) && Priced(c, s)
  {
    RunKeepsInvariant(c, trace, s);
    match trace
    case Begin =>
      forall hold | hold in s.budget.live + s.budget.waiting ensures hold.id >= |s.phases| {
        var line := s.budget.live + s.budget.waiting;
        var k :| 0 <= k < |line| && line[k] == hold;
        assert Holds(line, hold.id);
      }
    case Then(earlier, e) =>
      hide Invariant, Initial, Do, Enabled, Priced;
      var before :| Reaches(c, earlier, before) && Enabled(c, before, e) && s == Do(c, before, e);
      GroupsReserveTheirEstimates(c, earlier, before);
      StepKeepsPriced(c, before, e);
  }

  /** Each turn of the consumer's loop starts all it may, in every run. */
  lemma AdvanceStartsAll(c: Config, trace: Trace, s: State)
    requires Reaches(c, trace, s) && s.consumer.Looping? && !s.stopped && s.head < |s.phases|
    ensures var t := Do(c, s, Advance);
      && t.consumer.Awaiting? && t.head == s.head + 1 && |t.phases| == |s.phases|
      && t.next == (if s.head + c.concurrency <= |s.phases| then s.head + c.concurrency else |s.phases|)
      && (forall g | 0 <= g < |s.phases| :: t.phases[g] ==
            if g < s.next || g >= t.next then s.phases[g] else if s.budget.disposed then Failing(false) else Reserving)
  {
    GroupsReserveTheirEstimates(c, trace, s);
    FillStartsAll(c, s);
    FillKeepsInvariant(c, s);
    var t := Fill(c, s);
    forall g | 0 <= g < |s.phases|
      ensures t.phases[g] ==
        if g < s.next || g >= t.next then s.phases[g] else if s.budget.disposed then Failing(false) else Reserving
    {
      assert GroupGood(t, g) && GroupGood(s, g);
      if g < s.next { assert t.phases[g] == t.phases[..s.next][g]; }
    }
    hide Invariant, Fill;
  }
}

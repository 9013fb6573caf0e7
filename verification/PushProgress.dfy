/**
 Where the push pipeline gets to: it never hangs, it ends after a bounded number of steps once the store has nothing more,
 it prepares as many entries as it may, in load order, and it hands out whatever is ready.
 */
module PushProgress {
  import opened Common
  import opened PushPipeline

  // ---------------------------------------------------------------- it never hangs

  /** Until the generator has closed there is always a step to take, by itself, by a job, the store or its consumer. */
  lemma NeverHangs(workers: nat, trace: Trace, s: State) returns (e: Event)
    requires workers >= 1 && Reaches(workers, trace, s) && !s.phase.Closed?
    ensures Enabled(s, e) && !e.TimerFires? && !e.ConsumerReturns? && !e.PrepareFails? && !e.LoadFails?
  {
    RunKeepsInvariant(workers, trace, s);
    if s.phase.Loading? { FewAreOwned(workers, trace, s); }
    hide Reaches, Ownership, Accounting;
    e := StepToTake(workers, s);
  }

  lemma StepToTake(workers: nat, s: State) returns (e: Event)
    requires Control(workers, s) && !s.phase.Closed? && (s.phase.Loading? ==> |s.owned| <= MAX_OWNED_ENTRIES)
    ensures Enabled(s, e) && !e.TimerFires? && !e.ConsumerReturns? && !e.PrepareFails? && !e.LoadFails?
  {
    assert s.phase.Sleeping? ==> s.woken || Jobs(s) > 0;
    hide Control;
    e :=
      if s.phase.Top? then Turn(0)
      else if s.phase.Loading? then LoadDone([], 0)
      else if s.phase.Yielded? then Consumed
      else if s.settled > 0 then JobEnds(0)
      else if s.running != [] then Prepared(0)
      else if s.phase.Closing? then Close
      else WakeUp;
  }

  lemma FewAreOwned(workers: nat, trace: Trace, s: State)
    requires workers >= 1 && Reaches(workers, trace, s)
    ensures |s.owned| <= MAX_OWNED_ENTRIES
  {
    OwnershipIsExclusive(workers, trace, s);
    hide Held;
  }

  // ---------------------------------------------------------------- it ends

  function PhaseRank(s: State): nat {
    match s.phase
    case Top => 4
    case Loading => 3
    case Sleeping => if s.woken then 5 else 2
    case Yielded => 2
    case Closing(_) => 1
    case Closed(_) => 0
  }

  /** The steps that can still follow without another load, at most. */
  function StepsLeft(s: State): nat {
    12 * |s.waiting| + 12 * |s.running| + 4 * s.settled + 3 * |s.ready| + 3 * |s.batch| + PhaseRank(s)
    + if s.timer.Armed? then 4 else 0
  }

  lemma SortedLength(s: State)
    ensures |SortedByIndex(s.ready)| == |s.ready|
  {
    SortingSorts(s.ready);
  }

  lemma FinalizeLowers(s: State, exit: Exit)
    requires PhaseRank(s) > 1
    ensures StepsLeft(Finalize(s, exit)) < StepsLeft(s) && Finalize(s, exit).nextIndex == s.nextIndex
  {
    var t := Finalize(s, exit);
    assert t.waiting == s.waiting && t.running == s.running && t.settled == s.settled && t.ready == [] && t.batch == s.batch;
    hide Finalize;
  }

  lemma HandOutLowers(s: State, t: State, sorted: seq<Work>, n: nat)
    requires |sorted| == |s.ready| && n <= |sorted| && PhaseRank(s) > 2
    requires t == s.(timer := Unset, flush := false, batch := sorted[..n], ready := sorted[n..], phase := Yielded)
    ensures StepsLeft(t) < StepsLeft(s)
  {
    assert |t.ready| + |t.batch| == |s.ready| && t.waiting == s.waiting && t.running == s.running && t.settled == s.settled;
  }

  lemma SleepLowers(s: State)
    requires PhaseRank(s) > 2
    ensures StepsLeft(s.(phase := Sleeping, woken := false)) < StepsLeft(s)
  {
  }

  lemma DecideLowers(s: State)
    requires s.phase.Top? || s.phase.Loading?
    ensures StepsLeft(Decide(s)) < StepsLeft(s) && Decide(s).nextIndex == s.nextIndex
  {
    SortedLength(s);
    FinalizeLowers(s, Failed);
    FinalizeLowers(s, Normal);
    SleepLowers(s);
    var sorted := SortedByIndex(s.ready);
    var n := if |sorted| <= MAX_COMMIT_MUTATIONS then |sorted| else MAX_COMMIT_MUTATIONS;
    var t := s.(timer := Unset, flush := false, batch := sorted[..n], ready := sorted[n..], phase := Yielded);
    HandOutLowers(s, t, sorted, n);
    hide SortedByIndex, StepsLeft, PreparationFinished, Finalize;
  }

  lemma PumpLowers(workers: nat, s: State, patience: nat)
    ensures var t := Pump(workers, s, patience);
      && |t.waiting| + |t.running| == |s.waiting| + |s.running|
      && t == s.(waiting := t.waiting, running := t.running, yielding := t.yielding)
    decreases |s.waiting|
  {
  }

  lemma {:induction false} WorksLength(items: seq<EntryId>, index: nat)
    ensures |Works(items, index)| == |items|
  {
    if items != [] { WorksLength(items[..|items| - 1], index); }
  }

  lemma TurnLowers(s: State, patience: nat)
    requires s.phase.Top?
    ensures StepsLeft(TakeTurn(s, patience)) < StepsLeft(s) && TakeTurn(s, patience).nextIndex == s.nextIndex
  {
    var asked := Asked(s, patience);
    assert StepsLeft(asked) == StepsLeft(s) && asked.nextIndex == s.nextIndex && asked.phase == s.phase;
    assert StepsLeft(asked.(phase := Loading)) < StepsLeft(asked);
    DecideLowers(asked);
    FinalizeLowers(s, Failed);
    hide Decide, StepsLeft, Asked, Finalize, SupplyStopped;
  }

  lemma PumpingLowers(workers: nat, s: State, patience: nat)
    ensures var t := Pump(workers, s, patience);
      StepsLeft(t) == StepsLeft(s) && t.nextIndex == s.nextIndex && t.phase == s.phase
  {
    PumpLowers(workers, s, patience);
    var t := Pump(workers, s, patience);
    assert t == s.(waiting := t.waiting, running := t.running, yielding := t.yielding);
    hide Pump;
  }

  lemma ItemsRaise(s: State, items: seq<EntryId>)
    ensures var t := WithItems(s, items);
      StepsLeft(t) == StepsLeft(s) + 12 * |items| && t.nextIndex == s.nextIndex + |items| && t.phase == s.phase
  {
    WorksLength(items, s.nextIndex);
    hide Works;
  }

  lemma LoadLowers(workers: nat, s: State, items: seq<EntryId>, patience: nat)
    requires s.phase.Loading?
    ensures var t := Loaded(workers, s, items, patience);
      StepsLeft(t) + 1 <= StepsLeft(s) + 12 * (t.nextIndex - s.nextIndex) && t.nextIndex >= s.nextIndex
  {
    var asked := Asked(s, patience);
    assert StepsLeft(asked) == StepsLeft(s) && asked.nextIndex == s.nextIndex && asked.phase == s.phase;
    DecideLowers(asked);
    ItemsRaise(asked, items);
    PumpingLowers(workers, WithItems(asked, items), Left(s, patience));
    DecideLowers(Pump(workers, WithItems(asked, items), Left(s, patience)));
    hide Decide, StepsLeft, Asked, Pump, WithItems, SupplyStopped;
  }

  lemma JobLowers(workers: nat, s: State, patience: nat)
    requires s.settled > 0
    ensures StepsLeft(Ended(workers, s, patience)) < StepsLeft(s) && Ended(workers, s, patience).nextIndex == s.nextIndex
  {
    var less := s.(settled := s.settled - 1);
    assert StepsLeft(less) == StepsLeft(s) - 4;
    PumpingLowers(workers, less, patience);
    var t := Pump(workers, less, patience);
    assert StepsLeft(t.(woken := true)) <= StepsLeft(t) + 3;
    hide Pump, StepsLeft;
  }

  lemma SucceedingLowers(s: State, k: nat)
    requires k < |s.running|
    ensures StepsLeft(Succeeded(s, k)) < StepsLeft(s) && Succeeded(s, k).nextIndex == s.nextIndex
  {
    RemovedBag(s.running, k);
    hide Removed;
  }

  lemma BreakingLowers(s: State, k: nat)
    requires k < |s.running|
    ensures StepsLeft(Broken(s, k)) < StepsLeft(s) && Broken(s, k).nextIndex == s.nextIndex
  {
    RemovedBag(s.running, k);
    hide Removed;
  }

  lemma BatchLowers(s: State)
    requires s.phase.Yielded? && s.batch != []
    ensures StepsLeft(BatchDone(s)) < StepsLeft(s) && BatchDone(s).nextIndex == s.nextIndex
  {
    hide Entries;
  }

  lemma GivingLowers(s: State)
    requires s.phase.Yielded?
    ensures var t := Finalize(BatchGiven(s), Returned); StepsLeft(t) < StepsLeft(s) && t.nextIndex == s.nextIndex
  {
    var given := BatchGiven(s);
    assert StepsLeft(given) <= StepsLeft(s) && given.nextIndex == s.nextIndex && PhaseRank(given) == 2;
    FinalizeLowers(given, Returned);
    hide StepsLeft, Finalize, BatchGiven;
  }

  /** Each step lowers what is left, except that each entry loaded brings at most twelve steps. */
  lemma StepsCountDown(workers: nat, s: State, e: Event)
    requires Enabled(s, e) && (s.phase.Yielded? ==> s.batch != [])
    ensures var t := Do(workers, s, e);
      StepsLeft(t) + 1 <= StepsLeft(s) + 12 * (t.nextIndex - s.nextIndex) && t.nextIndex >= s.nextIndex
  {
    hide TakeTurn, Loaded, Ended, BatchDone, BatchGiven, Succeeded, Broken, Finalize;
    match e
    case Turn(patience) => TurnLowers(s, patience); hide StepsLeft;
    case LoadDone(items, patience) => LoadLowers(workers, s, items, patience); hide StepsLeft;
    case LoadFails => FinalizeLowers(s, Failed); hide StepsLeft;
    case Prepared(k) => SucceedingLowers(s, k); hide StepsLeft;
    case PrepareFails(k) => BreakingLowers(s, k); hide StepsLeft;
    case JobEnds(patience) => JobLowers(workers, s, patience); hide StepsLeft;
    case Consumed => BatchLowers(s); hide StepsLeft;
    case ConsumerReturns => GivingLowers(s); hide StepsLeft;
    case _ =>
  }

  function Steps(trace: Trace): nat {
    match trace
    case Begin => 0
    case Then(earlier, _) => Steps(earlier) + 1
  }

  /** A run takes at most twelve steps per entry loaded and four more. */
  lemma {:induction false} RunsAreBounded(workers: nat, trace: Trace, s: State)
    requires workers >= 1 && Reaches(workers, trace, s)
    ensures Steps(trace) + StepsLeft(s) <= 12 * s.nextIndex + 4
  {
    match trace
    case Begin =>
    case Then(earlier, e) =>
      hide Enabled, Do, StepsLeft;
      var before :| Reaches(workers, earlier, before) && Enabled(before, e) && s == Do(workers, before, e);
      RunsAreBounded(workers, earlier, before);
      RunKeepsInvariant(workers, earlier, before);
      hide Ownership, Accounting;
      assert before.phase.Yielded? ==> before.batch != [];
      StepsCountDown(workers, before, e);
  }

  // ---------------------------------------------------------------- what it starts, hands out and gives up

  /** How many waiting works are started: as many as there are free workers for, until the supply stops. */
  function Starts(workers: nat, s: State, patience: nat): nat {
    if s.stopped || s.yielding || Jobs(s) >= workers then 0
    else Min(patience, Min(workers - Jobs(s), |s.waiting|))
  }

  lemma PumpStarts(workers: nat, s: State, patience: nat)
    requires Starts(workers, s, patience) > 0
    ensures s.waiting != [] && patience > 0
    ensures var next := s.(waiting := s.waiting[1..], running := s.running + [s.waiting[0]]);
      && Pump(workers, s, patience) == Pump(workers, next, patience - 1)
      && Starts(workers, next, patience - 1) == Starts(workers, s, patience) - 1
  {
    assert Asked(s, patience) == s;
  }

  lemma PumpRests(workers: nat, s: State, patience: nat)
    requires Starts(workers, s, patience) == 0
    ensures Pump(workers, s, patience) == s.(yielding := s.yielding || patience == 0)
  {
  }

  /** Pumping starts the first waiting works, in order, one for each free worker; it asks whether to yield before each and
      once more at the end, and a wish to yield is never forgotten. */
  lemma {:induction false} PumpExactly(workers: nat, s: State, patience: nat)
    ensures var n := Starts(workers, s, patience);
      && n <= |s.waiting|
      && Pump(workers, s, patience) ==
           s.(waiting := s.waiting[n..], running := s.running + s.waiting[..n], yielding := s.yielding || n == patience)
    decreases |s.waiting|
  {
    var n := Starts(workers, s, patience);
    hide Pump, Starts;
    if n == 0 {
      PumpRests(workers, s, patience);
      assert s.running + s.waiting[..0] == s.running;
    } else {
      PumpStarts(workers, s, patience);
      var first, rest := s.waiting[0], s.waiting[1..];
      PumpExactly(workers, s.(waiting := rest, running := s.running + [first]), patience - 1);
      assert n - 1 <= |rest| && rest[n - 1..] == s.waiting[n..];
      assert s.running + [first] + rest[..n - 1] == s.running + s.waiting[..n];
    }
  }

  /** Nothing is being prepared, and nothing more will be unless it is loaded. */
  predicate IsIdle(s: State) { s.running == [] && s.settled == 0 && (s.yielding || s.waiting == []) }

  /** Neither supply nor preparation has moved. */
  ghost predicate SameWork(s: State, t: State) {
    && t.owned == s.owned && t.waiting == s.waiting && t.running == s.running && t.settled == s.settled
    && t.yielding == s.yielding && t.failure == s.failure && t.prepared == s.prepared && t.nextIndex == s.nextIndex
    && t.sourceEmpty == s.sourceEmpty
  }

  /** How a turn ends that does not load. */
  ghost predicate Concludes(s: State, t: State) {
    && SameWork(s, t)
    && if s.failure then GivesUp(s, t, Failed)
       else if s.ready != [] && (s.flush || |s.ready| >= 100 || IsIdle(s)) then HandsOut(s, t)
       else if IsIdle(s) && (s.yielding || s.sourceEmpty) then GivesUp(s, t, Normal)
       else t == s.(phase := Sleeping, woken := false)
  }

  /** All that is ready goes out in one batch, in load order, and the coalescing timer is off. */
  ghost predicate HandsOut(s: State, t: State) {
    && t.phase.Yielded? && t.timer.Unset? && !t.flush && t.stopped == s.stopped && t.disposed == s.disposed
    && t.ready == [] && IsSorted(t.batch) && multiset(t.batch) == multiset(s.ready)
  }

  /** The ready values are given back, nothing more is started, and the timer is off. */
  ghost predicate GivesUp(s: State, t: State, exit: Exit) {
    && t.phase == Closing(exit) && t.timer.Unset? && t.stopped
    && t.ready == [] && t.disposed == s.disposed + multiset(s.ready)
  }

  lemma FinalizeGivesUp(s: State, exit: Exit)
    ensures GivesUp(s, Finalize(s, exit), exit) && SameWork(s, Finalize(s, exit))
  {
  }

  lemma AllAreHandedOut(s: State)
    requires |s.ready| <= 100
    ensures var sorted := SortedByIndex(s.ready);
      var n := if |sorted| <= MAX_COMMIT_MUTATIONS then |sorted| else MAX_COMMIT_MUTATIONS;
      var t := s.(timer := Unset, flush := false, batch := sorted[..n], ready := sorted[n..], phase := Yielded);
      HandsOut(s, t) && SameWork(s, t)
  {
    SortingSorts(s.ready);
    var sorted := SortedByIndex(s.ready);
    assert sorted[..|sorted|] == sorted && sorted[|sorted|..] == [];
    hide SortedByIndex, IsSorted;
  }

  lemma DecideConcludes(s: State)
    requires |s.ready| <= 100
    ensures Concludes(s, Decide(s))
  {
    FinalizeGivesUp(s, Failed);
    FinalizeGivesUp(s, Normal);
    AllAreHandedOut(s);
    assert SameWork(s, s.(phase := Sleeping, woken := false));
    assert PreparationFinished(s) == IsIdle(s);
    hide SortedByIndex, Finalize, GivesUp, HandsOut, PreparationFinished, IsIdle, SameWork;
  }

  lemma FewAreReady(s: State)
    requires Ownership(s)
    ensures |s.ready| <= 100
  {
    assert |multiset(s.ready)| <= |Held(s)|;
    hide Single;
  }

  lemma {:induction false} WorksAt(items: seq<EntryId>, index: nat)
    ensures |Works(items, index)| == |items|
    ensures forall k | 0 <= k < |items| :: Works(items, index)[k] == Work(items[k], index + k)
  {
    if items != [] { WorksAt(items[..|items| - 1], index); }
  }

  /** A turn loads exactly when nothing failed, nobody asks to yield, the store may have more, and fewer than 100 entries
      are owned; otherwise it concludes. */
  lemma TurnOutcome(workers: nat, trace: Trace, s: State, patience: nat)
    requires workers >= 1 && Reaches(workers, trace, s) && Enabled(s, Turn(patience))
    ensures var t := Do(workers, s, Turn(patience));
      if s.failure then GivesUp(s, t, Failed)
      else if !s.yielding && patience > 0 && !s.sourceEmpty && |s.owned| < 100 then t == s.(phase := Loading)
      else Concludes(s.(yielding := s.yielding || patience == 0), t)
  {
    RunKeepsInvariant(workers, trace, s);
    FewAreReady(s);
    hide Reaches, Invariant, TakeTurn, Concludes, GivesUp;
    TurnConcludes(s, patience);
  }

  lemma TurnConcludes(s: State, patience: nat)
    requires |s.ready| <= 100 && (s.failure ==> s.stopped) && (s.phase.Top? && s.stopped ==> s.failure)
    requires s.phase.Top?
    ensures var t := TakeTurn(s, patience);
      if s.failure then GivesUp(s, t, Failed)
      else if !s.yielding && patience > 0 && !s.sourceEmpty && |s.owned| < 100 then t == s.(phase := Loading)
      else Concludes(s.(yielding := s.yielding || patience == 0), t)
  {
    DecideConcludes(s.(yielding := s.yielding || patience == 0));
    FinalizeGivesUp(s, Failed);
    hide Decide, Concludes, Finalize, GivesUp;
  }

  /** Loaded entries wait in their order behind those that wait, each under the next index, and the free workers start; an
      empty load ends the supply. Whoever asks to yield meanwhile has the load dropped. */
  lemma LoadOutcome(workers: nat, trace: Trace, s: State, items: seq<EntryId>, patience: nat)
    requires workers >= 1 && Reaches(workers, trace, s) && Enabled(s, LoadDone(items, patience))
    ensures var t := Do(workers, s, LoadDone(items, patience));
      if s.stopped || s.yielding || patience == 0 then Concludes(s.(yielding := s.yielding || patience == 0), t)
      else
        var works := seq(|items|, k requires 0 <= k < |items| => Work(items[k], s.nextIndex + k));
        var more := s.(sourceEmpty := items == [], owned := s.owned + (set id | id in items), waiting := s.waiting + works,
                       nextIndex := s.nextIndex + |items|);
        var n := Starts(workers, more, patience - 1);
        && n <= |more.waiting|
        && Concludes(more.(waiting := more.waiting[n..], running := more.running + more.waiting[..n],
                           yielding := n == patience - 1), t)
  {
    RunKeepsInvariant(workers, trace, s);
    FewAreReady(s);
    hide Reaches, Invariant;
    if s.stopped || s.yielding || patience == 0 {
      DecideConcludes(s.(yielding := s.yielding || patience == 0));
      hide Decide, Concludes, Pump, Starts;
    } else {
      ItemsWait(s, items);
      SupplyConcludes(workers, s, items, patience);
      hide Loaded, WithItems, Concludes, Starts;
    }
  }

  lemma SupplyConcludes(workers: nat, s: State, items: seq<EntryId>, patience: nat)
    requires !s.stopped && !s.yielding && patience > 0 && |s.ready| <= 100
    ensures var more := WithItems(s, items);
      var n := Starts(workers, more, patience - 1);
      && n <= |more.waiting|
      && Concludes(more.(waiting := more.waiting[n..], running := more.running + more.waiting[..n],
                         yielding := n == patience - 1), Loaded(workers, s, items, patience))
  {
    var more := WithItems(s, items);
    assert more.ready == s.ready && !more.yielding;
    PumpExactly(workers, more, patience - 1);
    assert Asked(s, patience) == s;
    hide WithItems, Pump, Starts, Decide, Concludes;
    DecideConcludes(Pump(workers, more, patience - 1));
  }

  lemma ItemsWait(s: State, items: seq<EntryId>)
    ensures var works := seq(|items|, k requires 0 <= k < |items| => Work(items[k], s.nextIndex + k));
      WithItems(s, items) ==
        s.(sourceEmpty := items == [], owned := s.owned + (set id | id in items), waiting := s.waiting + works,
           nextIndex := s.nextIndex + |items|)
  {
    WorksAt(items, s.nextIndex);
    assert Works(items, s.nextIndex) == seq(|items|, k requires 0 <= k < |items| => Work(items[k], s.nextIndex + k));
    hide Works;
  }

  /** A prepared value is ready, with the coalescing timer running, or given back once the pipeline has stopped. The worker
      stays taken until the job has ended. */
  lemma PreparedOutcome(workers: nat, s: State, k: nat)
    requires k < |s.running|
    ensures var t, w := Do(workers, s, Prepared(k)), s.running[k];
      && t.running == s.running[..k] + s.running[k + 1..] && t.settled == s.settled + 1
      && t.stopped == s.stopped && t.failure == s.failure && t.prepared == s.prepared + multiset{w}
      && if s.stopped then t.ready == s.ready && t.disposed == s.disposed + multiset{w} && t.timer == s.timer
         else t.ready == s.ready + [w] && t.disposed == s.disposed && t.timer == (if s.timer.Unset? then Armed else s.timer)
  {
  }

  /** A failed preparation stops the pipeline and yields no value. */
  lemma BrokenOutcome(workers: nat, s: State, k: nat)
    requires k < |s.running|
    ensures var t := Do(workers, s, PrepareFails(k));
      && t.running == s.running[..k] + s.running[k + 1..] && t.settled == s.settled + 1
      && t.stopped && t.failure && t.ready == s.ready && t.prepared == s.prepared && t.disposed == s.disposed
  {
  }

  /** A job that ends frees its worker for the next waiting work and wakes the generator. */
  lemma JobOutcome(workers: nat, s: State, patience: nat)
    requires s.settled > 0
    ensures var t, less := Do(workers, s, JobEnds(patience)), s.(settled := s.settled - 1);
      var n := Starts(workers, less, patience);
      && n <= |s.waiting|
      && t == less.(waiting := s.waiting[n..], running := s.running + s.waiting[..n],
                    yielding := s.yielding || n == patience, woken := true)
  {
    PumpExactly(workers, s.(settled := s.settled - 1), patience);
  }

  /** A consumed batch is given back and no longer owned, and the store is asked again; a consumer that returns early ends
      the pipeline with its batch given back and still owned. */
  lemma BatchOutcome(workers: nat, s: State)
    requires s.phase.Yielded?
    ensures var t := Do(workers, s, Consumed);
      && t.phase.Top? && t.batch == [] && !t.sourceEmpty && t.ready == s.ready && t.spent == s.spent
      && t.disposed == s.disposed + multiset(s.batch)
      && forall id :: id in t.owned <==> id in s.owned && forall w | w in s.batch :: w.entryId != id
    ensures var t := Do(workers, s, ConsumerReturns);
      && t.phase == Closing(Returned) && t.stopped && t.batch == [] && t.ready == [] && t.owned == s.owned
      && t.disposed == s.disposed + multiset(s.batch) + multiset(s.ready)
  {
  }

  /** The timer, a wake-up, a failed load and the join of the last job. */
  lemma SmallSteps(workers: nat, s: State)
    ensures s.timer.Armed? ==> Do(workers, s, TimerFires) == s.(timer := Fired, flush := true, woken := true)
    ensures s.phase.Sleeping? && s.woken ==> Do(workers, s, WakeUp) == s.(phase := Top)
    ensures s.phase.Loading? ==> GivesUp(s, Do(workers, s, LoadFails), Failed)
    ensures s.phase.Closing? && Jobs(s) == 0 ==> Do(workers, s, Close) == s.(phase := Closed(s.phase.exit))
  {
  }
}

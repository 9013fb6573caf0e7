/**
 Preparing local mutations for upload in parallel and handing them to the consumer in batches.
 The generator, its jobs, its timer and its consumer interleave; each event below runs to its next
 suspension point.
 */
module PushPipeline {
  type EntryId = string

  const MAX_OWNED_ENTRIES := 100
  const MAX_COMMIT_MUTATIONS := 100

  /** A loaded entry; indices are never reused. */
  datatype Work = Work(entryId: EntryId, index: nat)

  datatype Exit = Normal | Failed | Returned

  datatype Timer = Unset | Armed | Fired

  datatype Phase = Top | Loading | Sleeping | Yielded | Closing(exit: Exit) | Closed(exit: Exit)

  /** `running` are jobs whose preparation is under way, `settled` counts jobs that have a result but have not
      ended; `spent` are works that failed or whose value was disposed without a batch. `prepared` and
      `disposed` record, over the whole run, which works produced a value and which values were disposed. */
  datatype State = State(owned: set<EntryId>, waiting: seq<Work>, running: seq<Work>, settled: nat, ready: seq<Work>,
    batch: seq<Work>, spent: seq<Work>, nextIndex: nat, stopped: bool, yielding: bool, sourceEmpty: bool, failure: bool,
    flush: bool, timer: Timer, phase: Phase, woken: bool, prepared: multiset<Work>, disposed: multiset<Work>)

  /** `patience` is how many times shouldYield is still answered with false; then it is answered with true. */
  datatype Event =
    | Turn(patience: nat)
    | LoadDone(items: seq<EntryId>, patience: nat)
    | LoadFails
    | Prepared(k: nat)
    | PrepareFails(k: nat)
    | JobEnds(patience: nat)
    | TimerFires
    | WakeUp
    | Consumed
    | ConsumerReturns
    | Close

  // ---------------------------------------------------------------- sorting a batch

  function Insert(w: Work, sorted: seq<Work>): seq<Work> {
    if sorted == [] || w.index <= sorted[0].index then [w] + sorted
    else [sorted[0]] + Insert(w, sorted[1..])
  }

  function SortedByIndex(works: seq<Work>): seq<Work> {
    if works == [] then [] else Insert(works[0], SortedByIndex(works[1..]))
  }

  ghost predicate IsSorted(works: seq<Work>) {
    forall i, j | 0 <= i < j < |works| :: works[i].index <= works[j].index
  }

  lemma InsertBag(w: Work, sorted: seq<Work>)
    ensures multiset(Insert(w, sorted)) == multiset(sorted) + multiset{w}
  {
    if sorted != [] && w.index > sorted[0].index {
      InsertBag(w, sorted[1..]);
      assert sorted == [sorted[0]] + sorted[1..];
    }
  }

  lemma InsertSorts(w: Work, sorted: seq<Work>)
    requires IsSorted(sorted)
    ensures IsSorted(Insert(w, sorted))
  {
    if sorted != [] && w.index > sorted[0].index {
      var rest := Insert(w, sorted[1..]);
      InsertSorts(w, sorted[1..]);
      InsertBag(w, sorted[1..]);
      forall k | 0 <= k < |rest| ensures sorted[0].index <= rest[k].index {
        assert rest[k] in multiset(rest);
        assert rest[k] == w || rest[k] in sorted[1..];
      }
    }
  }

  lemma {:induction false} SortingSorts(works: seq<Work>)
    ensures IsSorted(SortedByIndex(works)) && multiset(SortedByIndex(works)) == multiset(works)
    ensures |SortedByIndex(works)| == |works|
  {
    if works != [] {
      SortingSorts(works[1..]);
      InsertSorts(works[0], SortedByIndex(works[1..]));
      InsertBag(works[0], SortedByIndex(works[1..]));
      assert works == [works[0]] + works[1..];
      assert |multiset(SortedByIndex(works))| == |multiset(works)|;
    }
  }

  // ---------------------------------------------------------------- steps

  function Jobs(s: State): nat { |s.running| + s.settled }

  /** Latches the wish to yield. */
  function Asked(s: State, patience: nat): State { s.(yielding := s.yielding || patience == 0) }

  function Left(s: State, patience: nat): nat { if s.yielding || patience == 0 then patience else patience - 1 }

  predicate SupplyStopped(s: State) { s.stopped || s.yielding }

  /** Starts waiting works while there is a free worker. */
  function Pump(workers: nat, s: State, patience: nat): State
    decreases |s.waiting|
  {
    var asked := Asked(s, patience);
    if SupplyStopped(asked) || Jobs(s) >= workers || s.waiting == [] then asked
    else Pump(workers, asked.(waiting := s.waiting[1..], running := s.running + [s.waiting[0]]), Left(s, patience))
  }

  function Works(items: seq<EntryId>, index: nat): seq<Work> {
    if items == [] then [] else Works(items[..|items| - 1], index) + [Work(items[|items| - 1], index + |items| - 1)]
  }

  function IdSet(items: seq<EntryId>): set<EntryId> { set id | id in items }

  /** The finally block: no new work, and the ready values are given back before the jobs are joined. */
  function Finalize(s: State, exit: Exit): State {
    s.(stopped := true, timer := Unset, disposed := s.disposed + multiset(s.ready), spent := s.spent + s.ready, ready := [],
       phase := Closing(exit))
  }

  predicate PreparationFinished(s: State) { Jobs(s) == 0 && (s.yielding || s.waiting == []) }

  /** What a turn does once loading is over: fail, hand out a batch, leave the loop, or sleep. */
  function Decide(s: State): State {
    if s.failure then Finalize(s, Failed)
    else if s.ready != [] && (s.flush || |s.ready| >= MAX_COMMIT_MUTATIONS || PreparationFinished(s)) then
      var sorted := SortedByIndex(s.ready);
      var n := if |sorted| <= MAX_COMMIT_MUTATIONS then |sorted| else MAX_COMMIT_MUTATIONS;
      s.(timer := Unset, flush := false, batch := sorted[..n], ready := sorted[n..], phase := Yielded)
    else if PreparationFinished(s) && (s.yielding || s.sourceEmpty) then Finalize(s, Normal)
    else s.(phase := Sleeping, woken := false)
  }

  function TakeTurn(s: State, patience: nat): State {
    if s.failure then Finalize(s, Failed)
    else
      var asked := Asked(s, patience);
      if !SupplyStopped(asked) && !s.sourceEmpty && |s.owned| < MAX_OWNED_ENTRIES then asked.(phase := Loading)
      else Decide(asked)
  }

  function WithItems(s: State, items: seq<EntryId>): State {
    s.(sourceEmpty := items == [], owned := s.owned + IdSet(items), waiting := s.waiting + Works(items, s.nextIndex),
       nextIndex := s.nextIndex + |items|)
  }

  function Loaded(workers: nat, s: State, items: seq<EntryId>, patience: nat): State {
    var asked := Asked(s, patience);
    if SupplyStopped(asked) then Decide(asked)
    else Decide(Pump(workers, WithItems(asked, items), Left(s, patience)))
  }

  function Removed<T>(s: seq<T>, k: nat): seq<T>
    requires k < |s|
  {
    s[..k] + s[k + 1..]
  }

  ghost predicate Enabled(s: State, e: Event) {
    match e
    case Turn(_) => s.phase.Top?
    case LoadDone(items, _) =>
      && s.phase.Loading? && |items| + |s.owned| <= MAX_OWNED_ENTRIES
      && AllDiffer(items) && (forall id | id in items :: id !in s.owned)
    case LoadFails => s.phase.Loading?
    case Prepared(k) => k < |s.running|
    case PrepareFails(k) => k < |s.running|
    case JobEnds(_) => s.settled > 0
    case TimerFires => s.timer.Armed?
    case WakeUp => s.phase.Sleeping? && s.woken
    case Consumed => s.phase.Yielded?
    case ConsumerReturns => s.phase.Yielded?
    case Close => s.phase.Closing? && Jobs(s) == 0
  }

  /** The job's preparation succeeded: its value is ready, or disposed when the pipeline has stopped. */
  function Succeeded(s: State, k: nat): State
    requires k < |s.running|
  {
    var w := s.running[k];
    if s.stopped then
      s.(running := Removed(s.running, k), settled := s.settled + 1, prepared := s.prepared + multiset{w},
         disposed := s.disposed + multiset{w}, spent := s.spent + [w])
    else
      s.(running := Removed(s.running, k), settled := s.settled + 1, prepared := s.prepared + multiset{w},
         ready := s.ready + [w], timer := if s.timer.Unset? then Armed else s.timer)
  }

  function Broken(s: State, k: nat): State
    requires k < |s.running|
  {
    s.(running := Removed(s.running, k), settled := s.settled + 1, spent := s.spent + [s.running[k]],
       failure := true, stopped := true)
  }

  function Ended(workers: nat, s: State, patience: nat): State
    requires s.settled > 0
  {
    Pump(workers, s.(settled := s.settled - 1), patience).(woken := true)
  }

  /** The consumer has committed and applied the batch. */
  function BatchDone(s: State): State {
    s.(owned := s.owned - Entries(s.batch), disposed := s.disposed + multiset(s.batch), batch := [], sourceEmpty := false,
       phase := Top)
  }

  function BatchGiven(s: State): State {
    s.(disposed := s.disposed + multiset(s.batch), spent := s.spent + s.batch, batch := [])
  }

  ghost function Do(workers: nat, s: State, e: Event): State
    requires Enabled(s, e)
  {
    match e
    case Turn(patience) => TakeTurn(s, patience)
    case LoadDone(items, patience) => Loaded(workers, s, items, patience)
    case LoadFails => Finalize(s, Failed)
    case Prepared(k) => Succeeded(s, k)
    case PrepareFails(k) => Broken(s, k)
    case JobEnds(patience) => Ended(workers, s, patience)
    case TimerFires => s.(timer := Fired, flush := true, woken := true)
    case WakeUp => s.(phase := Top)
    case Consumed => BatchDone(s)
    case ConsumerReturns => Finalize(BatchGiven(s), Returned)
    case Close => s.(phase := Closed(s.phase.exit))
  }

  function Entries(works: seq<Work>): set<EntryId> { set w | w in works :: w.entryId }

  // ---------------------------------------------------------------- the invariant

  /** All works loaded and not consumed. */
  ghost function Held(s: State): multiset<Work> {
    multiset(s.waiting) + multiset(s.running) + multiset(s.ready) + multiset(s.batch) + multiset(s.spent)
  }

  ghost predicate Single(works: multiset<Work>) {
    && (forall a, b | a in works && b in works && (a.entryId == b.entryId || a.index == b.index) :: a == b)
    && (forall a :: works[a] <= 1)
  }

  ghost function EntriesOf(works: multiset<Work>): set<EntryId> { set w | w in works :: w.entryId }

  /** Each loaded entry is owned once until its batch is consumed; at most MAX_OWNED_ENTRIES are. */
  ghost predicate Ownership(s: State) {
    && s.owned == EntriesOf(Held(s)) && Single(Held(s)) && |Held(s)| <= MAX_OWNED_ENTRIES
    && (forall w | w in Held(s) :: w.index < s.nextIndex)
  }

  /** A value is disposed once, or it is ready or in the batch being consumed. */
  ghost predicate Accounting(s: State) {
    && s.prepared == s.disposed + multiset(s.ready) + multiset(s.batch)
    && (forall w :: s.prepared[w] <= 1)
    && (forall w | w in s.prepared :: w.index < s.nextIndex && w !in s.waiting && w !in s.running)
  }

  ghost predicate Control(workers: nat, s: State) {
    && (s.batch != [] ==> s.phase.Yielded?)
    && (s.failure ==> s.stopped)
    && (s.stopped ==> s.failure || s.phase.Closing? || s.phase.Closed?)
    && (s.phase.Closing? || s.phase.Closed? ==> s.stopped && s.ready == [])
    && (s.phase.Yielded? ==> IsSorted(s.batch) && 0 < |s.batch| <= MAX_COMMIT_MUTATIONS)
    && (s.phase.Closed? ==> Jobs(s) == 0)
    && (s.phase.Sleeping? ==> s.woken || Jobs(s) > 0)
    && (!SupplyStopped(s) && s.waiting != [] ==> Jobs(s) >= workers)
    && (!s.stopped && s.ready != [] ==> !s.timer.Unset?)
    && (s.timer.Fired? ==> s.flush)
    && (!s.stopped ==> s.spent == [])
    && (s.phase == Closing(Normal) || s.phase == Closed(Normal) ==> Clean(s))
  }

  /** Nothing runs, is ready or was given up; works are left only when the pipeline yields to a pull. */
  predicate Clean(s: State) {
    Jobs(s) == 0 && s.ready == [] && s.batch == [] && s.spent == [] && (s.yielding || s.waiting == [])
  }

  ghost predicate Invariant(workers: nat, s: State) {
    workers >= 1 && Ownership(s) && Accounting(s) && Control(workers, s)
  }

  // ---------------------------------------------------------------- counting

  lemma SingleWithout(works: multiset<Work>, w: Work)
    requires Single(works) && w in works
    ensures Single(works - multiset{w}) && w !in works - multiset{w}
    ensures w.entryId !in EntriesOf(works - multiset{w})
  {
    var rest := works - multiset{w};
    assert forall a :: a in rest ==> a in works;
    assert works[w] == 1;
    forall x | x in rest ensures x.entryId != w.entryId { assert x in works; }
  }

  lemma EntriesOfMore(works: multiset<Work>, w: Work)
    ensures EntriesOf(works + multiset{w}) == EntriesOf(works) + {w.entryId}
  {
    forall id ensures id in EntriesOf(works + multiset{w}) <==> id in EntriesOf(works) + {w.entryId} {
      if id in EntriesOf(works + multiset{w}) {
        var x :| x in works + multiset{w} && x.entryId == id;
      }
      if id in EntriesOf(works) {
        var x :| x in works && x.entryId == id;
        assert x in works + multiset{w};
      }
      if id == w.entryId { assert w in works + multiset{w}; }
    }
  }

  lemma {:induction false} SingleCount(works: multiset<Work>)
    requires Single(works)
    ensures |EntriesOf(works)| == |works|
    decreases |works|
  {
    if works == multiset{} {
      assert EntriesOf(works) == {};
    } else {
      var w :| w in works;
      var rest := works - multiset{w};
      assert works == rest + multiset{w};
      SingleWithout(works, w);
      EntriesOfMore(rest, w);
      hide Single, EntriesOf;
      SingleCount(rest);
    }
  }

  lemma RemovedBag<T>(s: seq<T>, k: nat)
    requires k < |s|
    ensures multiset(s) == multiset(Removed(s, k)) + multiset{s[k]}
    ensures |Removed(s, k)| == |s| - 1
  {
    assert s == s[..k] + [s[k]] + s[k + 1..];
  }

  // ---------------------------------------------------------------- moving works along

  lemma {:induction false} PumpMoves(workers: nat, s: State, patience: nat)
    requires workers >= 1
    ensures var t := Pump(workers, s, patience);
      && t == s.(waiting := t.waiting, running := t.running, yielding := t.yielding)
      && multiset(t.waiting) + multiset(t.running) == multiset(s.waiting) + multiset(s.running)
      && (!SupplyStopped(t) && t.waiting != [] ==> Jobs(t) >= workers)
      && (Jobs(t) == 0 && !SupplyStopped(t) ==> t.waiting == s.waiting == [])
      && Jobs(t) >= Jobs(s)
      && (s.yielding ==> t.yielding)
    decreases |s.waiting|
  {
    var asked := Asked(s, patience);
    if SupplyStopped(asked) || Jobs(s) >= workers || s.waiting == [] {
    } else {
      assert s.waiting == [s.waiting[0]] + s.waiting[1..];
      PumpMoves(workers, asked.(waiting := s.waiting[1..], running := s.running + [s.waiting[0]]), Left(s, patience));
    }
  }

  /** Ownership and accounting see waiting and running works together. */
  lemma PumpKeeps(workers: nat, s: State, patience: nat)
    requires workers >= 1 && Ownership(s) && Accounting(s)
    ensures Ownership(Pump(workers, s, patience)) && Accounting(Pump(workers, s, patience))
  {
    hide Single;
    var t := Pump(workers, s, patience);
    PumpMoves(workers, s, patience);
    hide Pump;
    assert Held(t) == Held(s);
    forall w | w in t.prepared ensures w !in t.waiting && w !in t.running {
      assert w !in multiset(s.waiting) + multiset(s.running);
      assert w !in multiset(t.waiting) && w !in multiset(t.running);
    }
  }

  lemma FinalizeKeepsHeld(s: State, exit: Exit)
    ensures Held(Finalize(s, exit)) == Held(s)
  {
  }

  lemma FinalizeKeepsAccounting(s: State, exit: Exit)
    requires Accounting(s)
    ensures Accounting(Finalize(s, exit))
  {
    var t := Finalize(s, exit);
    assert t.disposed + multiset(t.ready) + multiset(t.batch) == s.disposed + multiset(s.ready) + multiset(s.batch);
  }

  lemma FinalizeKeeps(workers: nat, s: State, exit: Exit)
    requires workers >= 1 && Ownership(s) && Accounting(s) && s.batch == []
    requires exit.Normal? ==> Clean(s)
    ensures Invariant(workers, Finalize(s, exit))
  {
    hide Ownership, Accounting, Held;
    FinalizeKeepsHeld(s, exit);
    FinalizeKeepsAccounting(s, exit);
    SameHeldKeeps(s, Finalize(s, exit));
  }

  lemma BatchTakesAll(s: State)
    requires Ownership(s)
    ensures |s.ready| <= MAX_COMMIT_MUTATIONS
  {
    hide Single;
    assert multiset(s.ready) <= Held(s);
    assert |multiset(s.ready)| == |s.ready|;
    SubBag(multiset(s.ready), Held(s));
  }

  lemma SubBag<T>(a: multiset<T>, b: multiset<T>)
    requires a <= b
    ensures |a| <= |b|
  {
    assert b == a + (b - a);
  }

  lemma SameHeldKeeps(s: State, t: State)
    requires Ownership(s) && t.owned == s.owned && t.nextIndex == s.nextIndex && Held(t) == Held(s)
    ensures Ownership(t)
  {
    hide Single;
  }

  lemma YieldKeeps(workers: nat, s: State)
    requires workers >= 1 && Ownership(s) && Accounting(s) && s.batch == []
    requires Control(workers, s.(phase := Top)) && s.ready != [] && !s.failure
    ensures var sorted := SortedByIndex(s.ready);
      |sorted| <= MAX_COMMIT_MUTATIONS
      && Invariant(workers, s.(timer := Unset, flush := false, batch := sorted, ready := [], phase := Yielded))
  {
    hide Single;
    SortingSorts(s.ready);
    BatchTakesAll(s);
    var sorted := SortedByIndex(s.ready);
    hide SortedByIndex;
    var t := s.(timer := Unset, flush := false, batch := sorted, ready := [], phase := Yielded);
    assert Held(t) == Held(s);
    SameHeldKeeps(s, t);
    hide Ownership, Held, Single;
  }

  lemma SleepKeeps(workers: nat, s: State)
    requires workers >= 1 && Ownership(s) && Accounting(s) && s.batch == [] && !s.failure
    requires Control(workers, s.(phase := Top))
    requires !SupplyStopped(s) && Jobs(s) == 0 && s.ready == [] ==> s.sourceEmpty
    requires !(s.ready != [] && (s.flush || |s.ready| >= MAX_COMMIT_MUTATIONS || PreparationFinished(s)))
    requires !(PreparationFinished(s) && (s.yielding || s.sourceEmpty))
    ensures Invariant(workers, s.(phase := Sleeping, woken := false))
  {
    hide Single;
    var t := s.(phase := Sleeping, woken := false);
    assert Held(t) == Held(s);
    SameHeldKeeps(s, t);
    hide Ownership, Held, Single;
  }

  lemma LeavingIsClean(workers: nat, s: State)
    requires Control(workers, s.(phase := Top)) && s.batch == [] && !s.failure && PreparationFinished(s)
    requires !(s.ready != [] && (s.flush || |s.ready| >= MAX_COMMIT_MUTATIONS || PreparationFinished(s)))
    ensures Clean(s)
  {
  }

  lemma DecideKeeps(workers: nat, s: State)
    requires workers >= 1 && Ownership(s) && Accounting(s) && s.batch == []
    requires Control(workers, s.(phase := Top))
    requires !SupplyStopped(s) && Jobs(s) == 0 && s.ready == [] ==> s.sourceEmpty
    ensures Invariant(workers, Decide(s))
  {
    hide Invariant, Ownership, Accounting, Control, SortedByIndex, PreparationFinished, SupplyStopped, Jobs, Finalize, Clean;
    var sorted := SortedByIndex(s.ready);
    assert sorted[..|sorted|] == sorted && sorted[|sorted|..] == [];
    if s.failure {
      FinalizeKeeps(workers, s, Failed);
    } else if s.ready != [] && (s.flush || |s.ready| >= MAX_COMMIT_MUTATIONS || PreparationFinished(s)) {
      YieldKeeps(workers, s);
    } else if PreparationFinished(s) && (s.yielding || s.sourceEmpty) {
      LeavingIsClean(workers, s);
      FinalizeKeeps(workers, s, Normal);
    } else {
      SleepKeeps(workers, s);
    }
  }

  lemma NothingHeld(s: State)
    requires Ownership(s) && !s.stopped && s.spent == [] && s.batch == [] && s.ready == [] && s.waiting == [] && s.running == []
    ensures s.owned == {}
  {
    assert Held(s) == multiset{};
  }

  lemma AskedKeeps(workers: nat, s: State, patience: nat)
    requires Invariant(workers, s)
    ensures var asked := Asked(s, patience);
      Ownership(asked) && Accounting(asked) && Control(workers, asked)
  {
    hide Single;
    assert Held(Asked(s, patience)) == Held(s);
    SameHeldKeeps(s, Asked(s, patience));
    hide Ownership, Held;
  }

  lemma StartLoadingKeeps(workers: nat, s: State)
    requires workers >= 1 && Ownership(s) && Accounting(s) && Control(workers, s) && s.phase.Top? && !s.failure
    ensures Invariant(workers, s.(phase := Loading))
  {
    hide Single;
    assert Held(s.(phase := Loading)) == Held(s);
    SameHeldKeeps(s, s.(phase := Loading));
    hide Ownership, Held;
  }

  lemma TurnKeepsInvariant(workers: nat, s: State, patience: nat)
    requires Invariant(workers, s) && s.phase.Top?
    ensures Invariant(workers, TakeTurn(s, patience))
  {
    hide Single;
    var asked := Asked(s, patience);
    AskedKeeps(workers, s, patience);
    assert s.batch == [] && asked.batch == [] && asked.(phase := Top) == asked;
    if s.failure {
      FinalizeKeeps(workers, s, Failed);
    } else if !SupplyStopped(asked) && !s.sourceEmpty && |s.owned| < MAX_OWNED_ENTRIES {
      StartLoadingKeeps(workers, asked);
    } else {
      if !SupplyStopped(asked) && Jobs(asked) == 0 && asked.ready == [] && !asked.sourceEmpty {
        NothingHeld(asked);
      }
      hide Ownership, Accounting, Control, Decide;
      DecideKeeps(workers, asked);
    }
  }

  // ---------------------------------------------------------------- loading

  lemma WorksAt(items: seq<EntryId>, index: nat)
    ensures |Works(items, index)| == |items|
    ensures forall k | 0 <= k < |items| :: Works(items, index)[k] == Work(items[k], index + k)
  {
  }

  lemma WorkOf(items: seq<EntryId>, index: nat, w: Work)
    requires w in Works(items, index)
    ensures index <= w.index < index + |items| && items[w.index - index] == w.entryId
  {
    var works := Works(items, index);
    WorksAt(items, index);
    var k :| 0 <= k < |works| && works[k] == w;
  }

  ghost predicate AllDiffer<T>(s: seq<T>) { forall i, j | 0 <= i < j < |s| :: s[i] != s[j] }

  ghost predicate InRange(bag: multiset<Work>, items: seq<EntryId>, index: nat) {
    forall w | w in bag :: index <= w.index < index + |items| && items[w.index - index] == w.entryId
  }

  lemma WorksInRange(items: seq<EntryId>, index: nat)
    ensures InRange(multiset(Works(items, index)), items, index)
  {
    forall w: Work | w in multiset(Works(items, index))
      ensures index <= w.index < index + |items| && items[w.index - index] == w.entryId
    {
      assert w in Works(items, index);
      WorkOf(items, index, w);
    }
  }

  lemma InRangeIsSingle(bag: multiset<Work>, items: seq<EntryId>, index: nat)
    requires InRange(bag, items, index) && AllDiffer(items) && forall w :: bag[w] <= 1
    ensures Single(bag)
  {
  }

  lemma WorksHaveIds(items: seq<EntryId>, index: nat)
    ensures EntriesOf(multiset(Works(items, index))) == IdSet(items)
  {
    var bag := multiset(Works(items, index));
    WorksInRange(items, index);
    WorksAt(items, index);
    forall id | id in items ensures id in EntriesOf(bag) {
      var k :| 0 <= k < |items| && items[k] == id;
      assert Works(items, index)[k] in bag;
    }
  }

  lemma WorksAreNew(items: seq<EntryId>, index: nat)
    requires AllDiffer(items)
    ensures Single(multiset(Works(items, index)))
  {
    var works := Works(items, index);
    assert AllDiffer(works) by { WorksAt(items, index); }
    NoRepeats(works);
    WorksInRange(items, index);
    hide InRange, AllDiffer, Single, Works;
    InRangeIsSingle(multiset(works), items, index);
  }

  lemma {:induction false} NoRepeats(works: seq<Work>)
    requires AllDiffer(works)
    ensures forall w :: multiset(works)[w] <= 1
  {
    if works != [] {
      var init, last := works[..|works| - 1], works[|works| - 1];
      NoRepeats(init);
      assert works == init + [last];
      assert last !in init;
    }
  }

  lemma UnionIsSingle(a: multiset<Work>, b: multiset<Work>)
    requires Single(a) && Single(b) && Apart(a, b)
    ensures Single(a + b) && EntriesOf(a + b) == EntriesOf(a) + EntriesOf(b)
  {
    forall x ensures (a + b)[x] <= 1 {
      assert !(x in a && x in b);
    }
    forall id ensures id in EntriesOf(a + b) <==> id in EntriesOf(a) + EntriesOf(b) {
      if id in EntriesOf(a) { var x :| x in a && x.entryId == id; assert x in a + b; }
      if id in EntriesOf(b) { var x :| x in b && x.entryId == id; assert x in a + b; }
    }
  }

  lemma HeldGrows(s: State, items: seq<EntryId>)
    ensures Held(WithItems(s, items)) == Held(s) + multiset(Works(items, s.nextIndex))
  {
  }

  ghost predicate Apart(a: multiset<Work>, b: multiset<Work>) {
    forall x, y | x in a && y in b :: x.entryId != y.entryId && x.index != y.index
  }

  lemma NewIsApart(s: State, items: seq<EntryId>)
    requires Ownership(s) && forall id | id in items :: id !in s.owned
    ensures Apart(Held(s), multiset(Works(items, s.nextIndex)))
  {
    var bag := multiset(Works(items, s.nextIndex));
    WorksInRange(items, s.nextIndex);
    hide Works, Held, Single;
    forall x: Work, y: Work | x in Held(s) && y in bag ensures x.entryId != y.entryId && x.index != y.index {
      assert x.entryId in EntriesOf(Held(s));
      assert y.entryId in items;
    }
  }

  lemma IndicesStayBelow(s: State, items: seq<EntryId>)
    requires Ownership(s)
    ensures forall w | w in Held(s) + multiset(Works(items, s.nextIndex)) :: w.index < s.nextIndex + |items|
  {
    WorksInRange(items, s.nextIndex);
    hide Works, Held, Single;
  }

  lemma SizeAfterLoad(s: State, items: seq<EntryId>)
    requires Ownership(s) && |items| + |s.owned| <= MAX_OWNED_ENTRIES
    ensures |Held(s) + multiset(Works(items, s.nextIndex))| <= MAX_OWNED_ENTRIES
  {
    SingleCount(Held(s));
    WorksAt(items, s.nextIndex);
    hide Works, Held, Single;
    assert |multiset(Works(items, s.nextIndex))| == |items|;
  }

  lemma WithItemsKeepsOwnership(s: State, items: seq<EntryId>)
    requires Ownership(s) && Enabled(s, LoadDone(items, 0))
    ensures Ownership(WithItems(s, items))
  {
    var bag := multiset(Works(items, s.nextIndex));
    WorksAreNew(items, s.nextIndex);
    WorksHaveIds(items, s.nextIndex);
    HeldGrows(s, items);
    NewIsApart(s, items);
    IndicesStayBelow(s, items);
    SizeAfterLoad(s, items);
    hide Works, Held, Single, EntriesOf, Apart, AllDiffer, InRange;
    UnionIsSingle(Held(s), bag);
  }

  lemma WithItemsKeepsAccounting(s: State, items: seq<EntryId>)
    requires Accounting(s) && Enabled(s, LoadDone(items, 0))
    ensures Accounting(WithItems(s, items))
  {
    var t := WithItems(s, items);
    forall w | w in t.prepared ensures w !in t.waiting {
      if w in Works(items, s.nextIndex) { WorkOf(items, s.nextIndex, w); }
    }
  }

  lemma PumpedCanDecide(workers: nat, s: State, items: seq<EntryId>, patience: nat)
    requires Control(workers, s) && workers >= 1 && s.batch == [] && s.phase.Loading? && !SupplyStopped(s)
    ensures var t := Pump(workers, WithItems(s, items), patience);
      && t.batch == [] && Control(workers, t.(phase := Top))
      && (!SupplyStopped(t) && Jobs(t) == 0 && t.ready == [] ==> t.sourceEmpty)
  {
    PumpMoves(workers, WithItems(s, items), patience);
    WorksAt(items, s.nextIndex);
    hide Pump, Works;
  }

  lemma LoadDroppedKeeps(workers: nat, s: State, patience: nat)
    requires Invariant(workers, s) && s.phase.Loading? && SupplyStopped(Asked(s, patience))
    ensures Invariant(workers, Decide(Asked(s, patience)))
  {
    hide Ownership, Accounting, Decide;
    var asked := Asked(s, patience);
    AskedKeeps(workers, s, patience);
    assert asked.batch == [] && Control(workers, asked.(phase := Top));
    hide Control;
    DecideKeeps(workers, asked);
  }

  lemma LoadTakenKeeps(workers: nat, s: State, items: seq<EntryId>, patience: nat)
    requires workers >= 1 && Ownership(s) && Accounting(s) && Control(workers, s) && !SupplyStopped(s)
    requires Enabled(s, LoadDone(items, 0))
    ensures Invariant(workers, Decide(Pump(workers, WithItems(s, items), patience)))
  {
    assert s.batch == [];
    hide Ownership, Accounting, Decide, Control, Pump, Works, WithItems;
    WithItemsKeepsOwnership(s, items);
    WithItemsKeepsAccounting(s, items);
    PumpKeeps(workers, WithItems(s, items), patience);
    PumpedCanDecide(workers, s, items, patience);
    DecideKeeps(workers, Pump(workers, WithItems(s, items), patience));
  }

  lemma LoadKeepsInvariant(workers: nat, s: State, items: seq<EntryId>, patience: nat)
    requires Invariant(workers, s) && Enabled(s, LoadDone(items, patience))
    ensures Invariant(workers, Loaded(workers, s, items, patience))
  {
    var asked := Asked(s, patience);
    AskedKeeps(workers, s, patience);
    hide Ownership, Accounting, Decide, Control, Pump, Works;
    if SupplyStopped(asked) {
      LoadDroppedKeeps(workers, s, patience);
    } else {
      LoadTakenKeeps(workers, asked, items, Left(s, patience));
    }
  }

  // ---------------------------------------------------------------- jobs and batches

  /** The state after a job's preparation has a result. */
  function Settled(s: State, k: nat, ok: bool): State
    requires k < |s.running|
  {
    if ok then Succeeded(s, k) else Broken(s, k)
  }

  lemma SettlingMovesRunning(s: State, k: nat, ok: bool)
    requires k < |s.running|
    ensures multiset(s.running) == multiset(Settled(s, k, ok).running) + multiset{s.running[k]}
  {
    RemovedBag(s.running, k);
    hide Removed;
  }

  lemma SettlingMovesValue(s: State, k: nat, ok: bool)
    requires k < |s.running|
    ensures var t := Settled(s, k, ok);
      multiset(t.ready) + multiset(t.spent) == multiset(s.ready) + multiset(s.spent) + multiset{s.running[k]}
  {
    hide Removed;
  }

  lemma Regroup(a: multiset<Work>, r: multiset<Work>, d: multiset<Work>, b: multiset<Work>, p: multiset<Work>,
      r': multiset<Work>, d': multiset<Work>, p': multiset<Work>, one: multiset<Work>)
    requires r == r' + one && d' + p' == d + p + one
    ensures a + r' + d' + b + p' == a + r + d + b + p
  {
    assert a + r' + d' + b + p' == a + r' + b + (d' + p');
    assert a + r + d + b + p == a + r' + b + (d + p + one);
  }

  lemma SettlingKeepsHeld(s: State, k: nat, ok: bool)
    requires k < |s.running|
    ensures Held(Settled(s, k, ok)) == Held(s)
  {
    SettlingMovesRunning(s, k, ok);
    SettlingMovesValue(s, k, ok);
    var t := Settled(s, k, ok);
    assert t.waiting == s.waiting && t.batch == s.batch;
    hide Removed, Settled;
    Regroup(multiset(s.waiting), multiset(s.running), multiset(s.ready), multiset(s.batch), multiset(s.spent),
      multiset(t.running), multiset(t.ready), multiset(t.spent), multiset{s.running[k]});
  }

  lemma SettlingLeavesOthers(s: State, k: nat, ok: bool, x: Work)
    requires k < |s.running| && Ownership(s) && x in Settled(s, k, ok).running
    ensures x in s.running && x != s.running[k]
  {
    var t := Settled(s, k, ok);
    SettlingMovesRunning(s, k, ok);
    OnceInHeld(s, s.running[k]);
    hide Settled, Ownership;
    assert x in multiset(t.running);
    assert x in multiset(s.running);
  }

  lemma SettlingBalances(s: State, k: nat, ok: bool)
    requires k < |s.running| && s.prepared == s.disposed + multiset(s.ready) + multiset(s.batch)
    ensures var t := Settled(s, k, ok);
      && t.prepared == t.disposed + multiset(t.ready) + multiset(t.batch)
      && t.prepared == s.prepared + (if ok then multiset{s.running[k]} else multiset{})
      && t.waiting == s.waiting && t.nextIndex == s.nextIndex
  {
    hide Removed;
  }

  lemma SettlingKeepsAccounting(s: State, k: nat, ok: bool)
    requires k < |s.running| && Accounting(s) && Ownership(s)
    ensures Accounting(Settled(s, k, ok))
  {
    var w := s.running[k];
    var t := Settled(s, k, ok);
    OnceInHeld(s, w);
    SettlingBalances(s, k, ok);
    assert w !in s.prepared && w in s.running;
    assert w !in s.waiting by { assert w !in multiset(s.waiting); }
    forall x | x in t.running ensures x in s.running && x != w {
      SettlingLeavesOthers(s, k, ok, x);
    }
    hide Removed, Ownership, Settled;
    forall x | x in t.prepared ensures x.index < t.nextIndex && x !in t.waiting && x !in t.running {
      assert x in s.prepared || x == w;
    }
    forall x ensures t.prepared[x] <= 1 {
      assert s.prepared[x] <= 1 && s.prepared[w] == 0;
    }
  }

  lemma SettlingKeepsControl(workers: nat, s: State, k: nat, ok: bool)
    requires k < |s.running| && Control(workers, s)
    ensures Control(workers, Settled(s, k, ok))
  {
    RemovedBag(s.running, k);
    hide Removed;
  }

  lemma SettlingKeeps(workers: nat, s: State, k: nat, ok: bool)
    requires Invariant(workers, s) && k < |s.running|
    ensures Invariant(workers, Settled(s, k, ok))
  {
    assert Settled(s, k, ok).owned == s.owned && Settled(s, k, ok).nextIndex == s.nextIndex;
    hide Ownership, Accounting, Held, Settled, Control;
    SettlingKeepsHeld(s, k, ok);
    SettlingKeepsAccounting(s, k, ok);
    SettlingKeepsControl(workers, s, k, ok);
    SameHeldKeeps(s, Settled(s, k, ok));
  }

  /** A running work is in no other list, and its index has been used. */
  lemma OnceInHeld(s: State, w: Work)
    requires Ownership(s) && w in s.running
    ensures w !in multiset(s.running) - multiset{w} && w !in multiset(s.waiting) && w.index < s.nextIndex
  {
    assert w in multiset(s.running) && w in Held(s);
    assert Held(s)[w] <= 1;
    assert Held(s)[w] >= multiset(s.running)[w] + multiset(s.waiting)[w];
  }

  lemma JobEndsKeepsControl(workers: nat, s: State, patience: nat)
    requires workers >= 1 && Control(workers, s) && s.settled > 0
    ensures Control(workers, Ended(workers, s, patience))
  {
    PumpMoves(workers, s.(settled := s.settled - 1), patience);
    hide Pump;
  }

  lemma JobEndsKeeps(workers: nat, s: State, patience: nat)
    requires Invariant(workers, s) && s.settled > 0
    ensures Invariant(workers, Ended(workers, s, patience))
  {
    hide Pump, Held, Ownership, Control;
    var less := s.(settled := s.settled - 1);
    HeldIgnores(s, less);
    SameHeldKeeps(s, less);
    PumpKeeps(workers, less, patience);
    JobEndsKeepsControl(workers, s, patience);
    var pumped := Pump(workers, less, patience);
    HeldIgnores(pumped, Ended(workers, s, patience));
    SameHeldKeeps(pumped, Ended(workers, s, patience));
  }

  lemma HeldIgnores(s: State, t: State)
    requires t.waiting == s.waiting && t.running == s.running && t.ready == s.ready && t.batch == s.batch && t.spent == s.spent
    ensures Held(t) == Held(s)
  {
  }

  lemma EntriesWithout(all: multiset<Work>, part: seq<Work>)
    requires Single(all) && multiset(part) <= all
    ensures Single(all - multiset(part)) && EntriesOf(all - multiset(part)) == EntriesOf(all) - Entries(part)
  {
    var rest := all - multiset(part);
    assert forall w :: w in rest ==> w in all;
    forall id ensures id in EntriesOf(rest) <==> id in EntriesOf(all) - Entries(part) {
      if id in EntriesOf(rest) {
        var x :| x in rest && x.entryId == id;
        forall y | y in part ensures y.entryId != id {
          assert y in multiset(part) && y in all;
          assert all[x] <= 1;
        }
      }
      if id in EntriesOf(all) && id !in Entries(part) {
        var x :| x in all && x.entryId == id;
        assert x !in part;
        assert x in rest;
      }
    }
  }

  lemma HeldWithoutBatch(s: State)
    ensures multiset(s.batch) <= Held(s)
    ensures Held(BatchDone(s)) == Held(s) - multiset(s.batch)
  {
  }

  lemma ConsumedKeepsOwnership(s: State)
    requires Ownership(s)
    ensures Ownership(BatchDone(s))
  {
    HeldWithoutBatch(s);
    EntriesWithout(Held(s), s.batch);
    hide Held, Single, EntriesOf, Entries;
    SubBag(Held(s) - multiset(s.batch), Held(s));
    forall w | w in Held(s) - multiset(s.batch) ensures w.index < s.nextIndex { assert w in Held(s); }
  }

  lemma ConsumedKeepsAccounting(s: State)
    requires Accounting(s)
    ensures Accounting(BatchDone(s))
  {
    var t := BatchDone(s);
    assert t.prepared == s.prepared && t.waiting == s.waiting && t.running == s.running && t.nextIndex == s.nextIndex;
    assert t.disposed + multiset(t.ready) + multiset(t.batch) == s.disposed + multiset(s.ready) + multiset(s.batch);
  }

  lemma ConsumedKeeps(workers: nat, s: State)
    requires Invariant(workers, s) && s.phase.Yielded?
    ensures Invariant(workers, BatchDone(s))
  {
    assert Control(workers, BatchDone(s)) by { hide Ownership, Accounting, Entries; }
    hide Ownership, Accounting, Control, BatchDone;
    ConsumedKeepsOwnership(s);
    ConsumedKeepsAccounting(s);
  }

  lemma GivingKeeps(s: State)
    requires Ownership(s) && Accounting(s)
    ensures Ownership(BatchGiven(s)) && Accounting(BatchGiven(s)) && BatchGiven(s).batch == []
  {
    hide Single;
    assert Held(BatchGiven(s)) == Held(s);
    hide Held;
    SameHeldKeeps(s, BatchGiven(s));
    hide Ownership;
  }

  lemma ReturnKeeps(workers: nat, s: State)
    requires Invariant(workers, s) && s.phase.Yielded?
    ensures Invariant(workers, Finalize(BatchGiven(s), Returned))
  {
    hide Ownership, Accounting, Finalize, BatchGiven;
    GivingKeeps(s);
    FinalizeKeeps(workers, BatchGiven(s), Returned);
  }

  lemma RelabelKeeps(workers: nat, s: State, t: State)
    requires Invariant(workers, s) && Control(workers, t)
    requires t == s.(phase := t.phase, woken := t.woken, timer := t.timer, flush := t.flush)
    ensures Invariant(workers, t)
  {
    hide Single;
    assert Held(t) == Held(s);
    SameHeldKeeps(s, t);
    hide Ownership, Held;
  }

  /** Every step keeps ownership, the account of values, and the control invariants. */
  lemma StepKeepsInvariant(workers: nat, s: State, e: Event)
    requires Invariant(workers, s) && Enabled(s, e)
    ensures Invariant(workers, Do(workers, s, e))
  {
    hide Ownership, Accounting, Held, Pump, Decide, TakeTurn, Loaded, Succeeded, Broken, Ended, BatchDone, BatchGiven, Finalize;
    match e
    case Turn(patience) => TurnKeepsInvariant(workers, s, patience);
    case LoadDone(items, patience) => LoadKeepsInvariant(workers, s, items, patience);
    case LoadFails => FinalizeKeeps(workers, s, Failed);
    case Prepared(k) => SettlingKeeps(workers, s, k, true);
    case PrepareFails(k) => SettlingKeeps(workers, s, k, false);
    case JobEnds(patience) => JobEndsKeeps(workers, s, patience);
    case TimerFires => RelabelKeeps(workers, s, Do(workers, s, e));
    case WakeUp => RelabelKeeps(workers, s, Do(workers, s, e));
    case Consumed => ConsumedKeeps(workers, s);
    case ConsumerReturns => ReturnKeeps(workers, s);
    case Close => RelabelKeeps(workers, s, Do(workers, s, e));
  }

  // ---------------------------------------------------------------- whole runs

  const START := State({}, [], [], 0, [], [], [], 0, false, false, false, false, false, Unset, Top, false,
    multiset{}, multiset{})

  datatype Trace = Begin | Then(earlier: Trace, event: Event)

  ghost predicate Reaches(workers: nat, trace: Trace, s: State) {
    match trace
    case Begin => s == START
    case Then(earlier, e) => exists before :: Reaches(workers, earlier, before) && Enabled(before, e) && s == Do(workers, before, e)
  }

  lemma StartIsGood(workers: nat)
    requires workers >= 1
    ensures Invariant(workers, START)
  {
    assert Held(START) == multiset{};
  }

  lemma {:induction false} RunKeepsInvariant(workers: nat, trace: Trace, s: State)
    requires workers >= 1 && Reaches(workers, trace, s)
    ensures Invariant(workers, s)
  {
    hide Invariant, Do, Enabled;
    match trace
    case Begin => StartIsGood(workers);
    case Then(earlier, e) =>
      var before :| Reaches(workers, earlier, before) && Enabled(before, e) && s == Do(workers, before, e);
      RunKeepsInvariant(workers, earlier, before);
      StepKeepsInvariant(workers, before, e);
  }

  /** At most 100 entries are owned, none twice, and each loaded entry stays owned until its batch is consumed. */
  lemma OwnershipIsExclusive(workers: nat, trace: Trace, s: State)
    requires workers >= 1 && Reaches(workers, trace, s)
    ensures s.owned == EntriesOf(Held(s)) && |s.owned| == |Held(s)| <= MAX_OWNED_ENTRIES && Single(Held(s))
  {
    RunKeepsInvariant(workers, trace, s);
    SingleCount(Held(s));
  }

  /** A batch is never empty and holds at most 100 works, strictly in load order. */
  lemma BatchesAreOrderedAndBounded(workers: nat, trace: Trace, s: State)
    requires workers >= 1 && Reaches(workers, trace, s) && s.phase.Yielded?
    ensures 0 < |s.batch| <= MAX_COMMIT_MUTATIONS
    ensures forall i, j | 0 <= i < j < |s.batch| :: s.batch[i].index < s.batch[j].index
  {
    RunKeepsInvariant(workers, trace, s);
    assert multiset(s.batch) <= Held(s) by { HeldWithoutBatch(s); }
    hide Held;
    forall i, j | 0 <= i < j < |s.batch| ensures s.batch[i].index < s.batch[j].index {
      var a, b := s.batch[i], s.batch[j];
      TwiceInBag(s.batch, i, j);
      assert a in multiset(s.batch) && b in multiset(s.batch);
      assert a in Held(s) && b in Held(s) && multiset(s.batch)[a] <= Held(s)[a] <= 1;
    }
  }

  lemma TwiceInBag(works: seq<Work>, i: nat, j: nat)
    requires i < j < |works|
    ensures works[i] == works[j] ==> multiset(works)[works[i]] >= 2
  {
    assert works == works[..i] + [works[i]] + works[i + 1..j] + [works[j]] + works[j + 1..];
  }

  /** When the generator has closed, normally, by a failure or by an early return, every prepared value has
      been disposed exactly once and no job runs. */
  lemma EveryValueIsDisposedOnce(workers: nat, trace: Trace, s: State)
    requires workers >= 1 && Reaches(workers, trace, s)
    ensures forall w :: s.disposed[w] <= s.prepared[w] <= 1
    ensures s.phase.Closed? ==> s.disposed == s.prepared && Jobs(s) == 0 && s.ready == []
  {
    RunKeepsInvariant(workers, trace, s);
  }

  /** A normal exit leaves nothing running, ready, in a batch or given up, and, unless it yields to a pull, nothing owned. */
  lemma NormalExitIsClean(workers: nat, trace: Trace, s: State)
    requires workers >= 1 && Reaches(workers, trace, s) && s.phase == Closed(Normal)
    ensures Jobs(s) == 0 && s.ready == [] && s.batch == [] && s.spent == []
    ensures s.yielding || s.owned == {}
  {
    RunKeepsInvariant(workers, trace, s);
    if !s.yielding {
      assert Held(s) == multiset{};
    }
  }

  /** No wake-up is lost: a sleeping generator has been woken already, or a job will wake it. */
  lemma SleeperWillWake(workers: nat, trace: Trace, s: State)
    requires workers >= 1 && Reaches(workers, trace, s) && s.phase.Sleeping?
    ensures s.woken || Jobs(s) > 0
    ensures s.ready != [] && !s.stopped ==> !s.timer.Unset?
  {
    RunKeepsInvariant(workers, trace, s);
  }
}

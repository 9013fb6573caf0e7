/** One lane of the transfer scheduler: jobs start in the order submitted, never beyond the policy's limit. */
module TransferScheduler {
  import opened AdaptivePolicy
  import opened Common

  type JobId = nat

  const OBSERVATION_EXPIRY_MS := 10000.0

  datatype Window = Window(busySince: Option<real>, elapsedMs: real, bytes: real, count: nat, duration: real)

  const NEW_WINDOW := Window(None, 0.0, 0.0, 0, 0.0)

  /** `running` are the jobs counted as active; `submitted`, `started` and `rejected` record the whole run. */
  datatype Lane = Lane(policy: Policy, queue: seq<JobId>, running: set<JobId>, pausedAt: Option<real>, window: Option<Window>,
    closed: bool, submitted: seq<JobId>, started: seq<JobId>, rejected: seq<JobId>)

  datatype Outcome = Succeeded(bytes: real, duration: real) | Failed(congestion: bool)

  // ---------------------------------------------------------------- the specification

  /** A long pause drops the window and ends a probe. */
  function Resumed(l: Lane, now: real): Lane {
    if l.pausedAt.Some? && now - l.pausedAt.value >= OBSERVATION_EXPIRY_MS
    then l.(window := None, policy := Idled(l.policy), pausedAt := None)
    else l
  }

  function Clocked(l: Lane, now: real): Lane {
    if l.window.Some? && l.window.value.busySince.Some? then
      var w := l.window.value;
      l.(window := Some(w.(elapsedMs := w.elapsedMs + (now - w.busySince.value), busySince := Some(now))))
    else l
  }

  function Judged(l: Lane, now: real): Lane {
    if l.window.Some? && l.window.value.elapsedMs >= 2000.0 && l.window.value.count >= 4 then
      var w := l.window.value;
      l.(policy := Observed(l.policy, Observation(w.bytes, w.elapsedMs, w.duration / (w.count as real)), now), window := None)
    else l
  }

  function OneStarted(l: Lane): Lane
    requires l.queue != []
  {
    l.(queue := l.queue[1..], running := l.running + {l.queue[0]}, started := l.started + [l.queue[0]])
  }

  /** Starts queued jobs while the limit allows. */
  function StartJobs(l: Lane): Lane
    decreases |l.queue|
  {
    if l.closed || |l.running| >= l.policy.current || l.queue == [] then l
    else StartJobs(OneStarted(l))
  }

  function Settled(l: Lane, now: real): Lane {
    if |l.queue| > 0 && |l.running| >= l.policy.current then
      var w := if l.window.Some? then l.window.value else NEW_WINDOW;
      l.(pausedAt := None, window := Some(w.(busySince := Some(now))))
    else
      l.(window := if l.window.Some? then Some(l.window.value.(busySince := None)) else None,
         pausedAt := if l.pausedAt.Some? then l.pausedAt else Some(now))
  }

  function Pumped(l: Lane, now: real): Lane {
    Settled(StartJobs(Judged(Clocked(Resumed(l, now), now), now)), now)
  }

  /** A closed scheduler rejects at once. */
  function Submitted(l: Lane, id: JobId, now: real): Lane {
    if l.closed then l.(rejected := l.rejected + [id])
    else Pumped(l.(queue := l.queue + [id], submitted := l.submitted + [id]), now)
  }

  /** A job's promise has an outcome; it stays active until it has ended. */
  function Finished(l: Lane, outcome: Outcome, now: real): Lane {
    match outcome
    case Succeeded(bytes, duration) =>
      if l.window.Some? && l.window.value.busySince.Some? then
        var w := l.window.value;
        l.(window := Some(w.(bytes := w.bytes + bytes, count := w.count + 1, duration := w.duration + duration)))
      else l
    case Failed(congestion) =>
      l.(policy := if congestion then Halved(l.policy, now) else Idled(l.policy), window := None)
  }

  function Ended(l: Lane, id: JobId, now: real): Lane { Pumped(l.(running := l.running - {id}), now) }

  /** Disposing empties the queue; each queued start then rejects its job. */
  function Disposed(l: Lane): Lane { l.(closed := true, rejected := l.rejected + l.queue, queue := []) }

  // ---------------------------------------------------------------- what every step keeps

  /** At a resting point the queue is not empty only when the limit is reached; never more than the maximum run;
      jobs have started in the order submitted, each once. */
  ghost predicate Orderly(l: Lane) {
    && Good(l.policy)
    && (l.queue != [] ==> !l.closed && |l.running| >= l.policy.current)
    && |l.running| <= l.policy.maximum
    && (if l.closed then l.started <= l.submitted else l.started + l.queue == l.submitted)
    && (forall i, j | 0 <= i < j < |l.submitted| :: l.submitted[i] != l.submitted[j])
    && (forall id | id in l.running :: id in l.started)
  }

  /** The step starts the next jobs of the queue, as many as fit below the limit and no more. */
  ghost predicate StartsInOrder(before: Lane, after: Lane) {
    && |after.queue| <= |before.queue|
    && after.started == before.started + before.queue[..|before.queue| - |after.queue|]
    && after.queue == before.queue[|before.queue| - |after.queue|..]
    && |after.running| == |before.running| + (|before.queue| - |after.queue|)
    && (|before.queue| - |after.queue| > 0 ==> |after.running| <= after.policy.current)
  }

  /** Everything but the clause about the queue, which a change of the limit or a submission may break. */
  ghost predicate Ready(l: Lane) {
    && Good(l.policy)
    && (l.closed ==> l.queue == [])
    && |l.running| <= l.policy.maximum
    && (if l.closed then l.started <= l.submitted else l.started + l.queue == l.submitted)
    && (forall i, j | 0 <= i < j < |l.submitted| :: l.submitted[i] != l.submitted[j])
    && (forall id | id in l.running :: id in l.started)
  }

  lemma OneStartKeepsReady(l: Lane)
    requires Ready(l) && !l.closed && l.queue != [] && |l.running| < l.policy.current
    ensures Ready(OneStarted(l)) && |OneStarted(l).running| == |l.running| + 1
  {
    var next := OneStarted(l);
    assert next.started + next.queue == l.started + l.queue;
    forall i | 0 <= i < |l.started| ensures l.started[i] != l.queue[0] {
      assert l.submitted[i] == l.started[i] && l.submitted[|l.started|] == l.queue[0];
    }
    assert l.queue[0] !in l.running;
  }

  lemma NothingLeftToStart(l: Lane)
    requires Ready(l) && (l.closed || |l.running| >= l.policy.current || l.queue == [])
    ensures Orderly(l)
  {
    hide Good;
  }

  lemma {:induction false} StartJobsKeeps(l: Lane) returns (n: nat)
    requires Ready(l)
    ensures var r := StartJobs(l);
      && Orderly(r) && r.policy == l.policy && r.window == l.window && r.pausedAt == l.pausedAt && r.closed == l.closed
      && r.submitted == l.submitted && r.rejected == l.rejected
    ensures n <= |l.queue| && StartJobs(l).queue == l.queue[n..] && StartJobs(l).started == l.started + l.queue[..n]
    ensures |StartJobs(l).running| == |l.running| + n
    ensures n > 0 ==> |StartJobs(l).running| <= l.policy.current
    decreases |l.queue|
  {
    hide Good, Ready, Orderly;
    if l.closed || |l.running| >= l.policy.current || l.queue == [] {
      n := 0;
      NothingLeftToStart(l);
      assert l.started + l.queue[..0] == l.started;
    } else {
      OneStartKeepsReady(l);
      var next := OneStarted(l);
      var m := StartJobsKeeps(next);
      n := m + 1;
      assert l.queue[..n] == [l.queue[0]] + next.queue[..m];
    }
  }

  lemma JudgedIsReady(l: Lane, now: real)
    requires Ready(l)
    ensures var r := Judged(Clocked(Resumed(l, now), now), now);
      && Ready(r) && r.queue == l.queue && r.running == l.running && r.started == l.started && r.submitted == l.submitted
      && r.rejected == l.rejected && r.closed == l.closed && r.policy.maximum == l.policy.maximum
  {
    StepIsGood(l.policy, Idle, now);
    var c := Clocked(Resumed(l, now), now);
    if c.window.Some? && c.window.value.count >= 4 {
      var w := c.window.value;
      StepIsGood(c.policy, Observe(Observation(w.bytes, w.elapsedMs, w.duration / (w.count as real))), now);
    }
    hide Good, Observed, Idled;
  }

  /** After every pump the jobs that fit have started, in order, and the queue is empty or the limit is reached. */
  lemma PumpedIsOrderly(l: Lane, now: real)
    requires Ready(l)
    ensures Orderly(Pumped(l, now)) && StartsInOrder(l, Pumped(l, now))
    ensures Pumped(l, now).submitted == l.submitted && Pumped(l, now).closed == l.closed
    ensures Pumped(l, now).rejected == l.rejected && Pumped(l, now).policy.maximum == l.policy.maximum
  {
    JudgedIsReady(l, now);
    var j := Judged(Clocked(Resumed(l, now), now), now);
    var n := StartJobsKeeps(j);
    hide StartJobs, Judged, Clocked, Resumed, Good;
    assert |l.queue| - |Pumped(l, now).queue| == n;
  }

  datatype Event =
    | Submit(id: JobId)
    | Finish(outcome: Outcome)
    | End(id: JobId)
    | Dispose

  ghost predicate Enabled(l: Lane, e: Event) {
    match e
    case Submit(id) => id !in l.submitted
    case Finish(_) => l.running != {}
    case End(id) => id in l.running
    case Dispose => true
  }

  function Do(l: Lane, e: Event, now: real): Lane {
    match e
    case Submit(id) => Submitted(l, id, now)
    case Finish(outcome) => Finished(l, outcome, now)
    case End(id) => Ended(l, id, now)
    case Dispose => Disposed(l)
  }

  lemma LimitFalls(l: Lane, congestion: bool, now: real)
    requires Good(l.policy)
    ensures var p := if congestion then Halved(l.policy, now) else Idled(l.policy);
      Good(p) && p.current <= l.policy.current && p.maximum == l.policy.maximum
  {
  }

  lemma SubmittingIsReady(l: Lane, id: JobId)
    requires Orderly(l) && !l.closed && id !in l.submitted
    ensures Ready(l.(queue := l.queue + [id], submitted := l.submitted + [id]))
  {
    assert l.started + (l.queue + [id]) == l.submitted + [id];
  }

  /** Every step keeps the lane orderly; a job starts only by moving from the front of the queue. */
  lemma StepKeepsOrder(l: Lane, e: Event, now: real)
    requires Orderly(l) && Enabled(l, e)
    ensures Orderly(Do(l, e, now)) && l.started <= Do(l, e, now).started && Do(l, e, now).policy.maximum == l.policy.maximum
  {
    match e
    case Submit(id) =>
      if !l.closed {
        var joined := l.(queue := l.queue + [id], submitted := l.submitted + [id]);
        SubmittingIsReady(l, id);
        PumpedIsOrderly(joined, now);
        hide Pumped;
      }
    case Finish(outcome) =>
      if outcome.Failed? { LimitFalls(l, outcome.congestion, now); }
      hide Good, Halved, Idled;
    case End(id) =>
      PumpedIsOrderly(l.(running := l.running - {id}), now);
      hide Pumped;
    case Dispose =>
      assert l.closed || l.started <= l.started + l.queue;
  }

  // ---------------------------------------------------------------- what is measured, and when it is judged

  /** The lane has started nothing for ten seconds or more. */
  predicate LongPaused(l: Lane, now: real) { l.pausedAt.Some? && now - l.pausedAt.value >= 10000.0 }

  /** What the lane has measured by now: the time its clock ran, and what jobs brought in meanwhile. */
  function Measured(l: Lane, now: real): (w: Window)
    ensures w.busySince.None?
  {
    if l.window.None? || LongPaused(l, now) then Window(None, 0.0, 0.0, 0, 0.0)
    else
      var w := l.window.value;
      var running := if w.busySince.Some? then now - w.busySince.value else 0.0;
      Window(None, w.elapsedMs + running, w.bytes, w.count, w.duration)
  }

  /** Two seconds and four jobs are enough to judge. */
  predicate IsEnough(w: Window) { w.elapsedMs >= 2000.0 && w.count >= 4 }

  /** A pump hands a full measurement to the policy, with the mean duration, and starts a new one; after a long pause it
      forgets the measurement and lets the policy idle; otherwise the policy stays as it is. */
  lemma PumpJudges(l: Lane, now: real)
    requires Ready(l)
    ensures var m, p := Measured(l, now), Pumped(l, now).policy;
      p == if IsEnough(m) then
             After(l.policy, Observe(Observation(m.bytes, m.elapsedMs, m.duration / (m.count as real))), now)
           else if LongPaused(l, now) then After(l.policy, Idle, now)
           else l.policy
  {
    JudgedIsReady(l, now);
    var n := StartJobsKeeps(Judged(Clocked(Resumed(l, now), now), now));
    hide Good, Observed, Idled, StartJobs;
  }

  /** The clock runs exactly while jobs are left waiting; otherwise the lane pauses from the first such moment on. What
      was measured is kept unless it was judged. */
  lemma PumpKeepsTime(l: Lane, now: real)
    requires Ready(l)
    ensures var m, r := Measured(l, now), Pumped(l, now);
      var kept := if IsEnough(m) then NEW_WINDOW else m;
      if r.queue != [] then r.pausedAt.None? && r.window == Some(kept.(busySince := Some(now)))
      else
        && r.pausedAt == (if l.pausedAt.Some? && !LongPaused(l, now) then l.pausedAt else Some(now))
        && r.window == (if l.window.None? || LongPaused(l, now) || IsEnough(m) then None else Some(kept))
  {
    JudgedIsReady(l, now);
    var n := StartJobsKeeps(Judged(Clocked(Resumed(l, now), now), now));
    hide Good, Observed, Idled, StartJobs;
  }

  /** A job that succeeds while others wait counts with its bytes and its duration, and otherwise leaves no trace; one
      that fails drops the measurement, and congestion halves the limit where any other failure lets the policy idle. */
  lemma FinishMeasures(l: Lane, outcome: Outcome, now: real)
    ensures var r := Do(l, Finish(outcome), now);
      && r.queue == l.queue && r.running == l.running && r.pausedAt == l.pausedAt && r.closed == l.closed
      && r.submitted == l.submitted && r.started == l.started && r.rejected == l.rejected
      && (outcome.Failed? ==>
            r.window.None? && r.policy == After(l.policy, if outcome.congestion then Congest else Idle, now))
      && (outcome.Succeeded? ==> r.policy == l.policy && (r.window.Some? <==> l.window.Some?))
      && (outcome.Succeeded? && l.window.Some? ==>
            var before, after := l.window.value, r.window.value;
            var counts := before.busySince.Some?;
            && after.busySince == before.busySince && after.elapsedMs == before.elapsedMs
            && after.count - before.count == (if counts then 1 else 0)
            && after.bytes - before.bytes == (if counts then outcome.bytes else 0.0)
            && after.duration - before.duration == (if counts then outcome.duration else 0.0))
  {
    hide Halved, Idled;
  }

  /** A job that ends frees its slot for the next in line. */
  lemma EndFreesASlot(l: Lane, id: JobId, now: real)
    requires Orderly(l) && id in l.running
    ensures var r := Do(l, End(id), now);
      && StartsInOrder(l.(running := l.running - {id}), r) && r.rejected == l.rejected && r.closed == l.closed
      && r.submitted == l.submitted
  {
    PumpedIsOrderly(l.(running := l.running - {id}), now);
    hide Pumped, Good, StartsInOrder;
  }

  /** A closed lane refuses a job; any other one queues it last, and starts whoever fits. */
  lemma SubmitJoinsTheLine(l: Lane, id: JobId, now: real)
    requires Orderly(l) && id !in l.submitted
    ensures var r := Do(l, Submit(id), now);
      if l.closed then r == l.(rejected := l.rejected + [id])
      else
        && StartsInOrder(l.(queue := l.queue + [id]), r) && r.rejected == l.rejected && !r.closed
        && r.submitted == l.submitted + [id]
  {
    if !l.closed {
      var joined := l.(queue := l.queue + [id], submitted := l.submitted + [id]);
      SubmittingIsReady(l, id);
      PumpedIsOrderly(joined, now);
      SameStarts(joined, l.(queue := l.queue + [id]), Pumped(joined, now));
    }
    hide Pumped, Good, StartsInOrder, Orderly;
  }

  lemma SameStarts(a: Lane, b: Lane, r: Lane)
    requires a.queue == b.queue && a.running == b.running && a.started == b.started && StartsInOrder(a, r)
    ensures StartsInOrder(b, r)
  {
  }

  /** Disposing closes the lane and rejects whoever waits; it stops nobody. */
  lemma DisposeRejects(l: Lane, now: real)
    ensures var r := Do(l, Dispose, now);
      && r.closed && r.queue == [] && r.rejected == l.rejected + l.queue
      && r.running == l.running && r.started == l.started && r.submitted == l.submitted && r.policy == l.policy
  {
  }

  /** The clock runs only while jobs wait, and the lane is paused exactly while it holds a measurement it adds nothing to. */
  ghost predicate Timed(l: Lane) {
    && (l.window.Some? && l.window.value.busySince.Some? ==> l.queue != [] || l.closed)
    && (l.window.Some? ==> (l.window.value.busySince.Some? <==> l.pausedAt.None?))
  }

  lemma StepKeepsTimed(l: Lane, e: Event, now: real)
    requires Orderly(l) && Enabled(l, e) && Timed(l)
    ensures Timed(Do(l, e, now))
  {
    match e
    case Submit(id) =>
      if !l.closed {
        SubmittingIsReady(l, id);
        PumpKeepsTime(l.(queue := l.queue + [id], submitted := l.submitted + [id]), now);
      }
      hide Pumped, Orderly;
    case Finish(outcome) => FinishMeasures(l, outcome, now); hide Do;
    case End(id) =>
      PumpKeepsTime(l.(running := l.running - {id}), now);
      hide Pumped, Orderly;
    case Dispose =>
  }

  datatype Trace = Begin | Then(earlier: Trace, event: Event, now: real)

  ghost predicate Reaches(maximum: nat, trace: Trace, l: Lane) {
    match trace
    case Begin => l == Lane(Fresh(maximum), [], {}, None, None, false, [], [], [])
    case Then(earlier, e, now) =>
      exists before :: Reaches(maximum, earlier, before) && Enabled(before, e) && l == Do(before, e, now)
  }

  /** Over every run: jobs start in the order submitted, none is lost before disposal, never more than the maximum
      run at once, and at rest the queue is not empty only when the current limit is reached. */
  lemma {:induction false} LaneIsFirstInFirstOut(maximum: nat, trace: Trace, l: Lane)
    requires maximum >= 1 && Reaches(maximum, trace, l)
    ensures Orderly(l) && l.policy.maximum == maximum
    ensures l.started <= l.submitted && |l.running| <= maximum && Timed(l)
    ensures !l.closed ==> l.started + l.queue == l.submitted
    ensures l.queue != [] ==> |l.running| >= l.policy.current
  {
    match trace
    case Begin =>
    case Then(earlier, e, now) =>
      var before :| Reaches(maximum, earlier, before) && Enabled(before, e) && l == Do(before, e, now);
      LaneIsFirstInFirstOut(maximum, earlier, before);
      StepKeepsOrder(before, e, now);
      StepKeepsTimed(before, e, now);
      hide Do, Good;
  }

  // ---------------------------------------------------------------- the class

  class TransferLane {
    const policy: AdaptiveConcurrencyPolicy
    var queue: seq<JobId>
    var active: nat
    var pausedAt: Option<real>
    var window: Option<Window>
    var closed: bool
    ghost var running: set<JobId>
    ghost var submitted: seq<JobId>
    ghost var started: seq<JobId>
    ghost var rejected: seq<JobId>

    ghost function Value(): Lane
      reads this, policy
    {
      Lane(policy.Value(), queue, running, pausedAt, window, closed, submitted, started, rejected)
    }

    ghost predicate Valid()
      reads this, policy
    {
      active == |running| && Orderly(Value())
    }

    constructor ()
      ensures Valid() && fresh(policy)
      ensures Value() == Lane(Fresh(12), [], {}, None, None, false, [], [], [])
    {
      policy := new AdaptiveConcurrencyPolicy(12);
      queue, active, pausedAt, window, closed := [], 0, None, None, false;
      running, submitted, started, rejected := {}, [], [], [];
    }

    /** Queues a job; returns whether it was rejected because the scheduler is closed. */
    method Run(id: JobId, now: real) returns (refused: bool)
      requires Valid() && id !in submitted
      modifies this, policy
      ensures Valid() && Value() == Submitted(old(Value()), id, now) && refused == old(closed)
    {
      StepKeepsOrder(Value(), Submit(id), now);
      refused := closed;
      if !closed {
        SubmittingIsReady(Value(), id);
      }
      hide Orderly, Ready, Pumped;
      if closed {
        rejected := rejected + [id];
      } else {
        queue := queue + [id];
        submitted := submitted + [id];
        Pump(now);
      }
    }

    method Finish(outcome: Outcome, now: real)
      requires Valid() && running != {}
      modifies this, policy
      ensures Valid() && Value() == Finished(old(Value()), outcome, now)
    {
      StepKeepsOrder(Value(), Event.Finish(outcome), now);
      match outcome
      case Succeeded(bytes, duration) =>
        if window.Some? && window.value.busySince.Some? {
          var w := window.value;
          window := Some(w.(bytes := w.bytes + bytes, count := w.count + 1, duration := w.duration + duration));
        }
      case Failed(congestion) =>
        if congestion {
          policy.Congested(now);
        } else {
          policy.Idle();
        }
        window := None;
    }

    method End(ghost id: JobId, now: real)
      requires Valid() && id in running
      modifies this, policy
      ensures Valid() && Value() == Ended(old(Value()), id, now)
    {
      StepKeepsOrder(Value(), Event.End(id), now);
      active := active - 1;
      running := running - {id};
      Pump(now);
    }

    method Dispose()
      requires Valid()
      modifies this
      ensures Valid() && Value() == Disposed(old(Value()))
    {
      StepKeepsOrder(Value(), Event.Dispose, 0.0);
      closed := true;
      while |queue| > 0
        invariant Value() == old(Value()).(closed := true, queue := queue, rejected := rejected)
        invariant rejected + queue == old(rejected) + old(queue) && active == old(active)
        decreases |queue|
      {
        rejected := rejected + [queue[0]];
        queue := queue[1..];
      }
      assert rejected == old(rejected) + old(queue);
    }

    /** Drops an expired observation, advances the busy clock, and hands a full window to the policy. */
    method Judge(now: real)
      requires Good(policy.Value())
      modifies this`window, this`pausedAt, policy
      ensures Value() == Judged(Clocked(Resumed(old(Value()), now), now), now)
    {
      hide Good, Observed, Idled;
      if pausedAt.Some? && now - pausedAt.value >= OBSERVATION_EXPIRY_MS {
        window := None;
        policy.Idle();
        pausedAt := None;
      }
      if window.Some? && window.value.busySince.Some? {
        var w := window.value;
        window := Some(w.(elapsedMs := w.elapsedMs + (now - w.busySince.value), busySince := Some(now)));
      }
      if window.Some? && window.value.elapsedMs >= 2000.0 && window.value.count >= 4 {
        var w := window.value;
        policy.Observe(Observation(w.bytes, w.elapsedMs, w.duration / (w.count as real)), now);
        window := None;
      }
    }

    method StartQueued()
      requires active == |running| && Ready(Value())
      modifies this`queue, this`active, this`running, this`started
      ensures active == |running| && Value() == StartJobs(old(Value()))
    {
      ghost var goal := StartJobs(Value());
      hide Good;
      while !closed && active < policy.current && |queue| > 0
        invariant active == |running| && Ready(Value()) && StartJobs(Value()) == goal
        decreases |queue|
      {
        OneStartKeepsReady(Value());
        running := running + {queue[0]};
        started := started + [queue[0]];
        queue := queue[1..];
        active := active + 1;
      }
    }

    /** Runs the busy clock while jobs wait for the limit, and pauses it otherwise. */
    method Settle(now: real)
      requires active == |running|
      modifies this`window, this`pausedAt
      ensures Value() == Settled(old(Value()), now)
    {
      if |queue| > 0 && active >= policy.current {
        pausedAt := None;
        var w := if window.Some? then window.value else NEW_WINDOW;
        window := Some(w.(busySince := Some(now)));
      } else {
        if window.Some? {
          window := Some(window.value.(busySince := None));
        }
        if pausedAt.None? {
          pausedAt := Some(now);
        }
      }
    }

    method Pump(now: real)
      requires active == |running| && Ready(Value())
      modifies this, policy
      ensures Value() == Pumped(old(Value()), now) && Valid()
    {
      PumpedIsOrderly(Value(), now);
      JudgedIsReady(Value(), now);
      assert Good(policy.Value());
      hide Good, Ready, Orderly, StartsInOrder, StartJobs, Judged, Clocked, Resumed, Settled;
      Judge(now);
      StartQueued();
      Settle(now);
    }
  }
}

/**
 The auto-sync loop: requests for pushes and pulls, one drain and one connection attempt at a time,
 and the timers that bring unfinished work back. Each event below is one turn of the event loop,
 run to completion. Work is never deferred (shouldDeferSyncWork answers false).
 */
module AutoSync {
  import opened Common

  // ---------------------------------------------------------------- pending work

  /** A pull is requested up to a cursor; 0 asks for whatever there is. */
  datatype Work = Work(push: bool, pull: Option<nat>)

  const NO_WORK := Work(false, None)

  predicate HasWork(w: Work) { w.push || w.pull.Some? }

  function WithPush(w: Work): Work { w.(push := true) }

  function WithPull(w: Work, target: Option<nat>): Work {
    var current := if w.pull.Some? then w.pull.value else 0;
    w.(pull := Some(if target.Some? then Max(current, target.value) else current))
  }

  /** The pull reaches at least this far. */
  predicate Reaches(w: Work, target: nat) { w.pull.Some? && w.pull.value >= target }

  class PendingSyncWorkQueue {
    var push: bool
    var pullTargetCursor: Option<nat>

    ghost function Value(): Work
      reads this
    {
      Work(push, pullTargetCursor)
    }

    constructor ()
      ensures Value() == NO_WORK
    {
      push, pullTargetCursor := false, None;
    }

    method RequestPush()
      modifies this
      ensures Value() == WithPush(old(Value()))
    {
      push := true;
    }

    /** Requests merge: nothing asked for earlier is asked for less afterwards. */
    method RequestPull(target: Option<nat>)
      modifies this
      ensures Value() == WithPull(old(Value()), target)
      ensures forall n: nat | Reaches(old(Value()), n) || (target.Some? && n <= target.value) :: Reaches(Value(), n)
    {
      if target.None? {
        if pullTargetCursor.None? {
          pullTargetCursor := Some(0);
        }
        return;
      }
      pullTargetCursor := Some(Max(if pullTargetCursor.Some? then pullTargetCursor.value else 0, target.value));
    }

    method HasPendingWork() returns (pending: bool)
      ensures pending == HasWork(Value())
    {
      pending := push || pullTargetCursor.Some?;
    }

    /** Hands everything over and starts empty again. */
    method TakePendingWork() returns (work: Work)
      modifies this
      ensures work == old(Value()) && Value() == NO_WORK
    {
      work := Work(push, pullTargetCursor);
      Clear();
    }

    method Clear()
      modifies this
      ensures Value() == NO_WORK
    {
      push, pullTargetCursor := false, None;
    }
  }

  // ---------------------------------------------------------------- states and events

  /** `Unblocking` holds the server's cursor when it is ahead of the local one. */
  datatype Connect = Idle | Opening | Unblocking(ahead: Option<nat>)

  datatype Drain = Resting | Connecting(work: Work) | Pulling(work: Work) | Pushing(work: Work) | PullingAfter(work: Work)
    | Quota(work: Work)

  datatype State = State(active: bool, session: bool, connect: Connect, drain: Drain, pushTimer: bool,
    reconnectTimer: bool, retryTimer: bool, pending: Work)

  datatype Failure = CursorAhead | VaultUnavailable | OtherError

  datatype Event =
    | Start
    | Stop
    | LocalChange
    | FlushPush
    | SyncNow
    | RequestPull(target: Option<nat>)
    | ReconnectNow
    | ResumeConnection
    | UseSession
    | PushTimerFires
    | ReconnectTimerFires
    | RetryTimerFires
    | SessionCloses(unavailable: bool)
    | PolicyUnblocked(count: nat)
    | OpenDone(ahead: Option<nat>, cursorAhead: bool)
    | OpenFails(failure: Failure)
    | UnblockDone(count: nat)
    | UnblockFails(failure: Failure)
    | PullDone
    | PullFails(failure: Failure)
    | PushDone(quota: bool, pullAfter: bool, hasMore: bool)
    | PushFails(failure: Failure)
    | QuotaDone

  const STOPPED := State(false, false, Idle, Resting, false, false, false, NO_WORK)

  // ---------------------------------------------------------------- the loop's parts

  function Halt(s: State): State {
    s.(active := false, session := false, pushTimer := false, reconnectTimer := false, retryTimer := false, pending := NO_WORK)
  }

  function EnsureSession(s: State): State {
    if !s.active || s.session || !s.connect.Idle? then s else s.(connect := Opening)
  }

  function ScheduleReconnect(s: State): State { if s.active then s.(reconnectTimer := true) else s }

  function ScheduleRetry(s: State): State { if s.active then s.(retryTimer := true) else s }

  predicate ShouldContinueDrain(s: State) {
    s.active && HasWork(s.pending) && !s.reconnectTimer && !s.retryTimer
  }

  function PutBack(s: State, push: bool, pull: bool, work: Work): State {
    var withPush := if push then WithPush(s.pending) else s.pending;
    s.(pending := if pull then WithPull(withPush, work.pull) else withPush)
  }

  /** With the work taken and the connection attempt over: pull first, then push; without a session the
      work goes back and a timer will bring it up again. */
  function Proceed(s: State, work: Work): State {
    if !s.session then
      var back := PutBack(s, work.push, work.pull.Some?, work);
      (if back.reconnectTimer then back else ScheduleRetry(back)).(drain := Resting)
    else if work.pull.Some? then s.(drain := Pulling(work))
    else s.(drain := Pushing(work))
  }

  /** The head of the drain loop. */
  function RunLoop(s: State): State {
    if !(s.active && HasWork(s.pending)) then s.(drain := Resting)
    else
      var work := s.pending;
      var ensured := EnsureSession(s.(pending := NO_WORK));
      if !ensured.connect.Idle? then ensured.(drain := Connecting(work)) else Proceed(ensured, work)
  }

  function StartDrain(s: State): State {
    if !s.active || !s.drain.Resting? || !HasWork(s.pending) then s else RunLoop(s)
  }

  /** The connection attempt is over; a drain that awaited it goes on in the same turn. */
  function FinishConnect(s: State): State {
    var done := s.(connect := Idle);
    if done.drain.Connecting? then Proceed(done, done.drain.work) else done
  }

  function ConnectFailed(s: State, failure: Failure): State {
    FinishConnect(if failure.OtherError? then ScheduleReconnect(s) else Halt(s))
  }

  /** One iteration is complete: the retry is reset and the loop looks for more. */
  function IterationDone(s: State): State { RunLoop(s.(retryTimer := false)) }

  function DrainFailed(s: State, failure: Failure, push: bool, pull: bool, work: Work): State {
    if failure.OtherError? then ScheduleRetry(PutBack(s, push, pull, work)).(drain := Resting)
    else Halt(s).(drain := Resting)
  }

  predicate Enabled(s: State, e: Event) {
    match e
    case PushTimerFires => s.pushTimer
    case ReconnectTimerFires => s.reconnectTimer
    case RetryTimerFires => s.retryTimer
    case OpenDone(_, _) => s.connect.Opening?
    case OpenFails(_) => s.connect.Opening?
    case UnblockDone(_) => s.connect.Unblocking?
    case UnblockFails(_) => s.connect.Unblocking?
    case PullDone => s.drain.Pulling? || s.drain.PullingAfter?
    case PullFails(_) => s.drain.Pulling? || s.drain.PullingAfter?
    case PushDone(_, _, _) => s.drain.Pushing?
    case PushFails(_) => s.drain.Pushing?
    case QuotaDone => s.drain.Quota?
    case _ => true
  }

  function Do(s: State, e: Event): State
    requires Enabled(s, e)
  {
    match e
    case Start => if s.active then s else EnsureSession(s.(active := true))
    case Stop => Halt(s)
    case LocalChange => if s.active then s.(pushTimer := true) else s
    case FlushPush =>
      if s.active && s.pushTimer then StartDrain(s.(pushTimer := false, pending := WithPush(s.pending))) else StartDrain(s)
    case SyncNow =>
      if s.active then StartDrain(s.(pushTimer := false, pending := WithPush(WithPull(s.pending, None)))) else s
    case RequestPull(target) => if s.active then StartDrain(s.(pending := WithPull(s.pending, target))) else s
    case ReconnectNow => if s.active then EnsureSession(s.(reconnectTimer := false, session := false)) else s
    case ResumeConnection => if s.active && !s.session then EnsureSession(s.(reconnectTimer := false)) else s
    case UseSession => EnsureSession(s.(active := true))
    case PushTimerFires => StartDrain(s.(pushTimer := false, pending := WithPush(s.pending)))
    case ReconnectTimerFires => EnsureSession(s.(reconnectTimer := false))
    case RetryTimerFires => StartDrain(s.(retryTimer := false))
    case SessionCloses(unavailable) =>
      if unavailable then Halt(s) else if s.active then ScheduleReconnect(s.(session := false)) else s
    case PolicyUnblocked(count) => if count > 0 then StartDrain(s.(pending := WithPush(s.pending))) else s
    case OpenDone(ahead, cursorAhead) =>
      if !s.active then FinishConnect(s)
      else if cursorAhead then ConnectFailed(s, CursorAhead)
      else s.(session := true, connect := Unblocking(ahead))
    case OpenFails(failure) => ConnectFailed(s, failure)
    case UnblockDone(count) =>
      var asked := if count > 0 then s.(pending := WithPush(s.pending)) else s;
      var told := if s.connect.ahead.Some? then asked.(pending := WithPull(asked.pending, s.connect.ahead)) else asked;
      FinishConnect(StartDrain(told.(active := true)))
    case UnblockFails(failure) => ConnectFailed(s.(session := false), failure)
    case PullDone =>
      if s.drain.Pulling? && s.drain.work.push then s.(drain := Pushing(s.drain.work)) else IterationDone(s)
    case PullFails(failure) =>
      DrainFailed(s, failure, s.drain.Pulling? && s.drain.work.push, true, s.drain.work)
    case PushDone(quota, pullAfter, hasMore) =>
      if quota then s.(drain := Quota(s.drain.work))
      else
        var more := if hasMore then s.(pending := WithPush(s.pending)) else s;
        if pullAfter then more.(drain := PullingAfter(s.drain.work)) else IterationDone(more)
    case PushFails(failure) => DrainFailed(s, failure, true, false, s.drain.work)
    case QuotaDone => Halt(s).(drain := Resting)
  }

  // ---------------------------------------------------------------- the invariant

  /** Pending work of an idle, active loop has a timer that will bring it up: the retry timer, or the
      reconnect timer while there is no session (with a session, reconnecting would do nothing). */
  predicate NothingStranded(s: State) {
    s.active && s.drain.Resting? && s.connect.Idle? && HasWork(s.pending) ==>
      s.retryTimer || (s.reconnectTimer && !s.session)
  }

  predicate Invariant(s: State) {
    && NothingStranded(s)
    && (!s.active ==> !s.session && !s.pushTimer && !s.reconnectTimer && !s.retryTimer)
    && (s.connect.Opening? ==> !s.session)
    && (s.drain.Connecting? ==> !s.connect.Idle? && HasWork(s.drain.work))
    && (s.drain.Pulling? ==> s.drain.work.pull.Some?)
    && (s.drain.Pushing? ==> s.drain.work.push)
  }

  /** Everything but the first clause; work may have just been requested. */
  predicate Consistent(s: State) { Invariant(s.(pending := NO_WORK)) }

  lemma StartDrainKeeps(s: State)
    requires Consistent(s) && (s.active || NothingStranded(s))
    ensures Invariant(StartDrain(s))
  {
  }

  lemma RunLoopKeeps(s: State)
    requires Consistent(s.(drain := Resting))
    ensures Invariant(RunLoop(s))
  {
  }

  lemma FinishConnectKeeps(s: State)
    requires Consistent(s)
    requires s.drain.Resting? && s.active && HasWork(s.pending) ==> s.retryTimer || (s.reconnectTimer && !s.session)
    ensures Invariant(FinishConnect(s))
  {
  }

  lemma ConnectFailedKeeps(s: State, failure: Failure)
    requires Invariant(s) && !s.connect.Idle? && !s.session
    ensures Invariant(ConnectFailed(s, failure))
  {
    FinishConnectKeeps(if failure.OtherError? then ScheduleReconnect(s) else Halt(s));
  }

  lemma UnblockDoneKeeps(s: State, count: nat)
    requires Invariant(s) && s.connect.Unblocking?
    ensures Invariant(Do(s, UnblockDone(count)))
  {
    var asked := if count > 0 then s.(pending := WithPush(s.pending)) else s;
    var told := if s.connect.ahead.Some? then asked.(pending := WithPull(asked.pending, s.connect.ahead)) else asked;
    var live := told.(active := true);
    StartDrainKeeps(live);
    assert StartDrain(live).drain.Resting? ==> !HasWork(StartDrain(live).pending);
    FinishConnectKeeps(StartDrain(live));
  }

  lemma PullDoneKeeps(s: State)
    requires Invariant(s) && (s.drain.Pulling? || s.drain.PullingAfter?)
    ensures Invariant(Do(s, PullDone))
  {
    RunLoopKeeps(s.(retryTimer := false));
  }

  lemma PushDoneKeeps(s: State, quota: bool, pullAfter: bool, hasMore: bool)
    requires Invariant(s) && s.drain.Pushing?
    ensures Invariant(Do(s, PushDone(quota, pullAfter, hasMore)))
  {
    var more := if hasMore then s.(pending := WithPush(s.pending)) else s;
    RunLoopKeeps(more.(retryTimer := false));
  }

  lemma DrainFailedKeeps(s: State, failure: Failure, push: bool, pull: bool, work: Work)
    requires Invariant(s) && !s.drain.Connecting? && !s.drain.Resting?
    ensures Invariant(DrainFailed(s, failure, push, pull, work))
  {
  }

  lemma RequestKeeps(s: State, e: Event)
    requires Invariant(s) && Enabled(s, e)
    requires e.FlushPush? || e.SyncNow? || e.RequestPull? || e.PushTimerFires? || e.RetryTimerFires? || e.PolicyUnblocked?
    ensures Invariant(Do(s, e))
  {
    match e
    case FlushPush =>
      StartDrainKeeps(s.(pushTimer := false, pending := WithPush(s.pending)));
      StartDrainKeeps(s);
    case SyncNow => StartDrainKeeps(s.(pushTimer := false, pending := WithPush(WithPull(s.pending, None))));
    case RequestPull(target) => StartDrainKeeps(s.(pending := WithPull(s.pending, target)));
    case PushTimerFires => StartDrainKeeps(s.(pushTimer := false, pending := WithPush(s.pending)));
    case RetryTimerFires => StartDrainKeeps(s.(retryTimer := false));
    case PolicyUnblocked(count) => StartDrainKeeps(s.(pending := WithPush(s.pending)));
  }

  /** Every turn keeps the invariant: no requested work is ever stranded. */
  lemma StepKeepsInvariant(s: State, e: Event)
    requires Invariant(s) && Enabled(s, e)
    ensures Invariant(Do(s, e))
  {
    hide StartDrain, RunLoop, FinishConnect, ConnectFailed, DrainFailed, IterationDone;
    match e
    case FlushPush => RequestKeeps(s, e);
    case SyncNow => RequestKeeps(s, e);
    case RequestPull(_) => RequestKeeps(s, e);
    case PushTimerFires => RequestKeeps(s, e);
    case RetryTimerFires => RequestKeeps(s, e);
    case PolicyUnblocked(_) => RequestKeeps(s, e);
    case OpenDone(_, cursorAhead) =>
      if !s.active {
        FinishConnectKeeps(s);
      } else if cursorAhead {
        ConnectFailedKeeps(s, CursorAhead);
      }
    case OpenFails(failure) => ConnectFailedKeeps(s, failure);
    case UnblockDone(count) => UnblockDoneKeeps(s, count);
    case UnblockFails(failure) => ConnectFailedKeeps(s.(session := false), failure);
    case PullDone => PullDoneKeeps(s);
    case PullFails(failure) => DrainFailedKeeps(s, failure, s.drain.Pulling? && s.drain.work.push, true, s.drain.work);
    case PushDone(quota, pullAfter, hasMore) => PushDoneKeeps(s, quota, pullAfter, hasMore);
    case PushFails(failure) => DrainFailedKeeps(s, failure, true, false, s.drain.work);
    case _ =>
  }

  lemma StartDrainLeavesWork(s: State)
    ensures StartDrain(s).drain.Resting? ==> s.drain.Resting?
  {
  }

  /** When a run of the drain loop ends, the two later looks for more work find none: without deferral the
      loop is never re-entered by them. */
  lemma LoopIsNotReentered(s: State, e: Event)
    requires Invariant(s) && Enabled(s, e) && !s.drain.Resting? && Do(s, e).drain.Resting?
    ensures !ShouldContinueDrain(Do(s, e))
  {
    if e.PullDone? || e.PullFails? || e.PushDone? || e.PushFails? || e.QuotaDone? {
      NoWorkAfterDrain(s, e);
      hide Do, Invariant, ShouldContinueDrain;
    } else {
      NoWorkAfterConnect(s, e);
      hide Do, Invariant, ShouldContinueDrain;
    }
  }

  lemma NoWorkAfterDrain(s: State, e: Event)
    requires Enabled(s, e) && Do(s, e).drain.Resting?
    requires e.PullDone? || e.PullFails? || e.PushDone? || e.PushFails? || e.QuotaDone?
    ensures !ShouldContinueDrain(Do(s, e))
  {
    hide StartDrain, WithPull, PutBack;
  }

  lemma NoWorkAfterConnect(s: State, e: Event)
    requires Invariant(s) && Enabled(s, e) && !s.drain.Resting? && Do(s, e).drain.Resting?
    requires !e.PullDone? && !e.PullFails? && !e.PushDone? && !e.PushFails? && !e.QuotaDone?
    ensures !ShouldContinueDrain(Do(s, e))
  {
    forall x: State ensures StartDrain(x).drain.Resting? ==> x.drain.Resting? { StartDrainLeavesWork(x); }
    hide StartDrain, RunLoop, NothingStranded, WithPull, PutBack;
  }

  // ---------------------------------------------------------------- what happens to a request

  /** The event ends in a call of stop. */
  predicate Halts(s: State, e: Event) {
    match e
    case Stop => true
    case SessionCloses(unavailable) => unavailable
    case OpenDone(_, cursorAhead) => s.active && cursorAhead
    case OpenFails(failure) => !failure.OtherError?
    case UnblockFails(failure) => !failure.OtherError?
    case PullFails(failure) => !failure.OtherError?
    case PushFails(failure) => !failure.OtherError?
    case QuotaDone => true
    case _ => false
  }

  /** A push is asked for: it is pending, or the drain has taken it and not completed it. A push that ends on the
      storage quota is not completed: the stop that follows discards it. */
  predicate PushOwed(s: State) {
    s.pending.push
    || ((s.drain.Connecting? || s.drain.Pulling? || s.drain.Pushing? || s.drain.Quota?) && s.drain.work.push)
  }

  /** How far the pull that a push has demanded is asked for again when it fails. */
  function DemandedTarget(work: Work): nat { if work.pull.Some? then work.pull.value else 0 }

  /** A pull up to `target` is asked for: it is pending, the drain has taken it and not completed it, or a push has demanded it. */
  predicate PullOwed(s: State, target: nat) {
    || Reaches(s.pending, target)
    || ((s.drain.Connecting? || s.drain.Pulling?) && Reaches(s.drain.work, target))
    || (s.drain.PullingAfter? && target <= DemandedTarget(s.drain.work))
  }

  /** The owed push was the one just completed, and no other is asked for. */
  predicate CompletesPush(s: State, e: Event) { e.PushDone? && !s.pending.push && !e.quota && !e.hasMore }

  /** The owed pull was the one just completed, and no other reaching as far is asked for. */
  predicate CompletesPull(s: State, e: Event, target: nat) {
    e.PullDone? && !Reaches(s.pending, target)
  }

  /** What is owed, in one predicate: a push, or a pull up to a target. */
  datatype Request = ForPush | ForPull(target: nat)

  predicate Asks(w: Work, r: Request) { if r.ForPush? then w.push else Reaches(w, r.target) }

  predicate Owed(s: State, r: Request) { if r.ForPush? then PushOwed(s) else PullOwed(s, r.target) }

  predicate Completes(s: State, e: Event, r: Request) {
    if r.ForPush? then CompletesPush(s, e) else CompletesPull(s, e, r.target)
  }

  lemma PutBackOwes(s: State, push: bool, pull: bool, work: Work, r: Request)
    requires Asks(s.pending, r) || (if r.ForPush? then push && work.push else pull && r.target <= DemandedTarget(work))
    ensures Asks(PutBack(s, push, pull, work).pending, r)
  {
  }

  lemma ProceedOwes(s: State, work: Work, r: Request)
    requires HasWork(work) && (Asks(s.pending, r) || Asks(work, r))
    ensures Owed(Proceed(s, work), r)
  {
    PutBackOwes(s, work.push, work.pull.Some?, work, r);
    hide PutBack;
  }

  lemma RunLoopOwes(s: State, r: Request)
    requires Asks(s.pending, r)
    ensures Owed(RunLoop(s), r)
  {
    if s.active {
      ProceedOwes(EnsureSession(s.(pending := NO_WORK)), s.pending, r);
    }
    hide Proceed;
  }

  lemma StartDrainOwes(s: State, r: Request)
    requires Owed(s, r)
    ensures Owed(StartDrain(s), r)
  {
    if s.drain.Resting? { RunLoopOwes(s, r); }
    hide RunLoop;
  }

  lemma FinishConnectOwes(s: State, r: Request)
    requires Owed(s, r) && (s.drain.Connecting? ==> HasWork(s.drain.work))
    ensures Owed(FinishConnect(s), r)
  {
    if s.drain.Connecting? { ProceedOwes(s.(connect := Idle), s.drain.work, r); }
    hide Proceed;
  }

  lemma ConnectFailedOwes(s: State, r: Request)
    requires Invariant(s) && Owed(s, r)
    ensures Owed(ConnectFailed(s, OtherError), r)
  {
    FinishConnectOwes(ScheduleReconnect(s), r);
    hide FinishConnect;
  }

  lemma UnblockDoneOwes(s: State, count: nat, r: Request)
    requires Invariant(s) && s.connect.Unblocking? && Owed(s, r)
    ensures Owed(Do(s, UnblockDone(count)), r)
  {
    var asked := if count > 0 then s.(pending := WithPush(s.pending)) else s;
    var told := if s.connect.ahead.Some? then asked.(pending := WithPull(asked.pending, s.connect.ahead)) else asked;
    var live := told.(active := true);
    assert Owed(live, r);
    StartDrainOwes(live, r);
    assert StartDrain(live).drain.Connecting? ==> HasWork(StartDrain(live).drain.work);
    hide StartDrain;
    FinishConnectOwes(StartDrain(live), r);
  }

  lemma DrainEventOwes(s: State, e: Event, r: Request)
    requires Invariant(s) && Enabled(s, e) && Owed(s, r) && !Halts(s, e) && !Completes(s, e, r)
    requires e.PullDone? || e.PullFails? || e.PushDone? || e.PushFails?
    ensures Owed(Do(s, e), r)
  {
    match e
    case PullDone =>
      if Asks(s.pending, r) { RunLoopOwes(s.(retryTimer := false), r); }
      hide RunLoop;
    case PullFails(failure) =>
      PutBackOwes(s, s.drain.Pulling? && s.drain.work.push, true, s.drain.work, r);
      hide PutBack;
    case PushDone(quota, pullAfter, hasMore) =>
      var more := if hasMore then s.(pending := WithPush(s.pending)) else s;
      if Asks(more.pending, r) { RunLoopOwes(more.(retryTimer := false), r); }
      hide RunLoop;
    case PushFails(failure) =>
      PutBackOwes(s, true, false, s.drain.work, r);
      hide PutBack;
  }

  lemma RequestOwes(s: State, e: Event, r: Request)
    requires Owed(s, r) && Enabled(s, e)
    requires e.FlushPush? || e.SyncNow? || e.RequestPull? || e.PushTimerFires? || e.RetryTimerFires? || e.PolicyUnblocked?
    ensures Owed(Do(s, e), r)
  {
    match e
    case FlushPush =>
      StartDrainOwes(s.(pushTimer := false, pending := WithPush(s.pending)), r);
      StartDrainOwes(s, r);
      hide StartDrain;
    case SyncNow =>
      StartDrainOwes(s.(pushTimer := false, pending := WithPush(WithPull(s.pending, None))), r);
      hide StartDrain;
    case RequestPull(target) =>
      StartDrainOwes(s.(pending := WithPull(s.pending, target)), r);
      hide StartDrain;
    case PushTimerFires =>
      StartDrainOwes(s.(pushTimer := false, pending := WithPush(s.pending)), r);
      hide StartDrain;
    case RetryTimerFires =>
      StartDrainOwes(s.(retryTimer := false), r);
      hide StartDrain;
    case PolicyUnblocked(count) =>
      StartDrainOwes(s.(pending := WithPush(s.pending)), r);
      hide StartDrain;
  }

  /** A request stays asked for, at least as far, until it is completed or the loop is stopped: whether it is
      pending, taken, or put back after a failure. */
  lemma RequestIsNeverDropped(s: State, e: Event, r: Request)
    requires Invariant(s) && Enabled(s, e) && Owed(s, r) && !Halts(s, e) && !Completes(s, e, r)
    ensures Owed(Do(s, e), r)
  {
    hide StartDrain, RunLoop, FinishConnect, ConnectFailed, DrainFailed, IterationDone;
    match e
    case FlushPush => RequestOwes(s, e, r);
    case SyncNow => RequestOwes(s, e, r);
    case RequestPull(_) => RequestOwes(s, e, r);
    case PushTimerFires => RequestOwes(s, e, r);
    case RetryTimerFires => RequestOwes(s, e, r);
    case PolicyUnblocked(_) => RequestOwes(s, e, r);
    case OpenDone(_, _) => FinishConnectOwes(s, r);
    case OpenFails(_) => ConnectFailedOwes(s, r);
    case UnblockDone(count) => UnblockDoneOwes(s, count, r);
    case UnblockFails(_) => ConnectFailedOwes(s.(session := false), r);
    case PullDone => DrainEventOwes(s, e, r);
    case PullFails(_) => DrainEventOwes(s, e, r);
    case PushDone(_, _, _) => DrainEventOwes(s, e, r);
    case PushFails(_) => DrainEventOwes(s, e, r);
    case _ =>
  }

  /** The pull a push demands is owed from the moment of the answer; it fails only to be asked for again. */
  lemma DemandedPullIsOwed(s: State, hasMore: bool, target: nat)
    requires s.drain.Pushing? && target <= DemandedTarget(s.drain.work)
    ensures Owed(Do(s, PushDone(false, true, hasMore)), ForPull(target))
    ensures forall t: State | t.drain == PullingAfter(s.drain.work) ::
      Asks(Do(t, PullFails(OtherError)).pending, ForPull(target))
  {
    forall t: State | t.drain == PullingAfter(s.drain.work)
      ensures Asks(Do(t, PullFails(OtherError)).pending, ForPull(target))
    {
      PutBackOwes(t, false, true, s.drain.work, ForPull(target));
      hide StartDrain, RunLoop, FinishConnect, EnsureSession, PutBack, WithPush;
    }
    hide StartDrain, RunLoop, FinishConnect, EnsureSession;
  }

  // ---------------------------------------------------------------- what makes a request

  /** The events that ask for a push are owed one when they are over, whatever the loop was doing. */
  lemma PushIsRequestedBy(s: State, e: Event)
    requires Invariant(s) && Enabled(s, e)
    ensures e.PushTimerFires? ==> Owed(Do(s, e), ForPush)
    ensures s.active && (e.SyncNow? || (e.FlushPush? && s.pushTimer)) ==> Owed(Do(s, e), ForPush)
    ensures (e.UnblockDone? || e.PolicyUnblocked?) && e.count > 0 ==> Owed(Do(s, e), ForPush)
    ensures e.PushDone? && e.hasMore && !e.quota ==> Owed(Do(s, e), ForPush)
  {
    var asked := s.(pending := WithPush(s.pending));
    hide StartDrain, RunLoop, FinishConnect, Proceed;
    match e
    case PushTimerFires => StartDrainOwes(asked.(pushTimer := false), ForPush);
    case SyncNow => StartDrainOwes(s.(pushTimer := false, pending := WithPush(WithPull(s.pending, None))), ForPush);
    case FlushPush => StartDrainOwes(asked.(pushTimer := false), ForPush);
    case PolicyUnblocked(count) => StartDrainOwes(asked, ForPush);
    case UnblockDone(count) => AnnouncedIsOwed(s, count, 0);
    case PushDone(_, _, _) => RunLoopOwes(asked.(retryTimer := false), ForPush);
    case _ =>
  }

  /** The end of a connection attempt asks for what it has unblocked and for what the server is ahead by. */
  lemma AnnouncedIsOwed(s: State, count: nat, target: nat)
    requires Invariant(s) && s.connect.Unblocking?
    ensures count > 0 ==> Owed(Do(s, UnblockDone(count)), ForPush)
    ensures s.connect.ahead.Some? && target <= s.connect.ahead.value ==> Owed(Do(s, UnblockDone(count)), ForPull(target))
  {
    var asked := if count > 0 then s.(pending := WithPush(s.pending)) else s;
    var told := if s.connect.ahead.Some? then asked.(pending := WithPull(asked.pending, s.connect.ahead)) else asked;
    var live := told.(active := true);
    assert StartDrain(live).drain.Connecting? ==> HasWork(StartDrain(live).drain.work);
    hide StartDrain, FinishConnect;
    if count > 0 {
      StartDrainOwes(live, ForPush);
      FinishConnectOwes(StartDrain(live), ForPush);
    }
    if s.connect.ahead.Some? && target <= s.connect.ahead.value {
      StartDrainOwes(live, ForPull(target));
      FinishConnectOwes(StartDrain(live), ForPull(target));
    }
  }

  /** Likewise for pulls, as far as they are asked for; a pull that a push has demanded is owed, too. */
  lemma PullIsRequestedBy(s: State, e: Event, target: nat)
    requires Invariant(s) && Enabled(s, e)
    ensures s.active && e.SyncNow? && target == 0 ==> Owed(Do(s, e), ForPull(target))
    ensures s.active && e.RequestPull? && target <= (if e.target.Some? then e.target.value else 0)
      ==> Owed(Do(s, e), ForPull(target))
    ensures e.UnblockDone? && s.connect.ahead.Some? && target <= s.connect.ahead.value ==> Owed(Do(s, e), ForPull(target))
    ensures e.PushDone? && e.pullAfter && !e.quota && target <= DemandedTarget(s.drain.work)
      ==> Owed(Do(s, e), ForPull(target))
  {
    hide StartDrain, FinishConnect;
    var r := ForPull(target);
    match e
    case SyncNow =>
      if target == 0 {
        StartDrainOwes(s.(pushTimer := false, pending := WithPush(WithPull(s.pending, None))), r);
      }
    case RequestPull(asked) =>
      if target <= if asked.Some? then asked.value else 0 { StartDrainOwes(s.(pending := WithPull(s.pending, asked)), r); }
    case UnblockDone(count) =>
      if s.connect.ahead.Some? && target <= s.connect.ahead.value { AnnouncedIsOwed(s, count, target); }
    case _ =>
  }

  /** A local change sets the push timer, and a push timer that is set ends only in a stop or in an owed push. */
  lemma LocalChangesArePushed(s: State, e: Event)
    requires Invariant(s) && Enabled(s, e)
    ensures e.LocalChange? && s.active ==> Do(s, e).pushTimer
    ensures s.pushTimer && !Do(s, e).pushTimer ==> Halts(s, e) || Owed(Do(s, e), ForPush)
  {
    PushIsRequestedBy(s, e);
    assert e.LocalChange? && s.active ==> Do(s, e).pushTimer;
    assert s.pushTimer ==> s.active;
    hide Do, Owed, Enabled;
    if s.pushTimer && !Halts(s, e) && !e.PushTimerFires? && !e.SyncNow? && !e.FlushPush? {
      PartsKeepPushTimer(s, e);
    }
  }

  lemma PartsKeepPushTimer(s: State, e: Event)
    requires Invariant(s) && Enabled(s, e) && s.pushTimer && !Halts(s, e)
    requires !e.PushTimerFires? && !e.SyncNow? && !e.FlushPush?
    ensures Do(s, e).pushTimer
  {
    forall x: State ensures StartDrain(x).pushTimer == x.pushTimer && FinishConnect(x).pushTimer == x.pushTimer
      && RunLoop(x).pushTimer == x.pushTimer
    {
      PartsLeavePushTimer(x);
    }
    hide StartDrain, FinishConnect, RunLoop;
  }

  lemma PartsLeavePushTimer(s: State)
    ensures StartDrain(s).pushTimer == s.pushTimer && FinishConnect(s).pushTimer == s.pushTimer
    ensures RunLoop(s).pushTimer == s.pushTimer
  {
  }

  /** The event asks for it: a push, or a pull at least as far. */
  predicate AskedBy(s: State, e: Event, r: Request) {
    match r
    case ForPush =>
      || e.PushTimerFires?
      || (s.active && (e.SyncNow? || (e.FlushPush? && s.pushTimer)))
      || ((e.UnblockDone? || e.PolicyUnblocked?) && e.count > 0)
      || (e.PushDone? && e.hasMore && !e.quota)
    case ForPull(target) =>
      || (s.active && e.SyncNow? && target == 0)
      || (s.active && e.RequestPull? && target <= if e.target.Some? then e.target.value else 0)
      || (e.UnblockDone? && s.connect.Unblocking? && s.connect.ahead.Some? && target <= s.connect.ahead.value)
      || (e.PushDone? && e.pullAfter && !e.quota && s.drain.Pushing? && target <= DemandedTarget(s.drain.work))
  }

  lemma ProceedOwesOnly(s: State, work: Work, r: Request)
    requires Owed(Proceed(s, work), r) && (s.drain.Connecting? || s.drain.Resting?)
    ensures Asks(s.pending, r) || Asks(work, r)
  {
  }

  lemma RunLoopOwesOnly(s: State, r: Request)
    requires Owed(RunLoop(s), r)
    ensures Asks(s.pending, r)
  {
    if s.active && HasWork(s.pending) {
      var ensured := EnsureSession(s.(pending := NO_WORK));
      if ensured.connect.Idle? {
        ProceedOwesOnly(ensured.(drain := Resting), s.pending, r);
        assert Proceed(ensured, s.pending) == Proceed(ensured.(drain := Resting), s.pending);
      }
    }
    hide Proceed;
  }

  lemma StartDrainOwesOnly(s: State, r: Request)
    requires Owed(StartDrain(s), r)
    ensures Owed(s, r)
  {
    if s.active && s.drain.Resting? && HasWork(s.pending) { RunLoopOwesOnly(s, r); }
    hide RunLoop;
  }

  lemma FinishConnectOwesOnly(s: State, r: Request)
    requires Owed(FinishConnect(s), r)
    ensures Owed(s, r)
  {
    if s.drain.Connecting? { ProceedOwesOnly(s.(connect := Idle), s.drain.work, r); }
    hide Proceed;
  }

  lemma DrainEventOwesOnly(s: State, e: Event, r: Request)
    requires Invariant(s) && Enabled(s, e) && Owed(Do(s, e), r) && !Halts(s, e)
    requires e.PullDone? || e.PullFails? || e.PushDone? || e.PushFails?
    ensures AskedBy(s, e, r) || (Owed(s, r) && !Completes(s, e, r))
  {
    match e
    case PullDone =>
      if Owed(RunLoop(s.(retryTimer := false)), r) { RunLoopOwesOnly(s.(retryTimer := false), r); }
      hide RunLoop;
    case PushDone(quota, pullAfter, hasMore) =>
      var more := if hasMore then s.(pending := WithPush(s.pending)) else s;
      if Owed(RunLoop(more.(retryTimer := false)), r) { RunLoopOwesOnly(more.(retryTimer := false), r); }
      hide RunLoop;
    case _ =>
  }

  lemma RequestOwesOnly(s: State, e: Event, r: Request)
    requires Invariant(s) && Enabled(s, e) && Owed(Do(s, e), r)
    requires e.FlushPush? || e.SyncNow? || e.RequestPull? || e.PushTimerFires? || e.RetryTimerFires? || e.PolicyUnblocked?
    ensures AskedBy(s, e, r) || Owed(s, r)
  {
    forall x: State ensures Owed(StartDrain(x), r) ==> Owed(x, r) {
      if Owed(StartDrain(x), r) { StartDrainOwesOnly(x, r); }
    }
    hide StartDrain;
  }

  lemma ConnectFailedOwesOnly(s: State, r: Request)
    requires Owed(ConnectFailed(s, OtherError), r)
    ensures Owed(s, r)
  {
    FinishConnectOwesOnly(ScheduleReconnect(s), r);
    hide FinishConnect;
  }

  lemma UnblockDoneOwesOnly(s: State, count: nat, r: Request)
    requires Invariant(s) && s.connect.Unblocking? && Owed(Do(s, UnblockDone(count)), r)
    ensures AskedBy(s, UnblockDone(count), r) || Owed(s, r)
  {
    var asked := if count > 0 then s.(pending := WithPush(s.pending)) else s;
    var told := if s.connect.ahead.Some? then asked.(pending := WithPull(asked.pending, s.connect.ahead)) else asked;
    var live := told.(active := true);
    hide StartDrain, FinishConnect;
    FinishConnectOwesOnly(StartDrain(live), r);
    StartDrainOwesOnly(live, r);
  }

  lemma ConnectOwesOnly(s: State, e: Event, r: Request)
    requires Invariant(s) && Enabled(s, e) && Owed(Do(s, e), r) && !Halts(s, e)
    requires e.OpenDone? || e.OpenFails? || e.UnblockDone? || e.UnblockFails?
    ensures AskedBy(s, e, r) || Owed(s, r)
  {
    hide StartDrain, FinishConnect, ConnectFailed;
    match e
    case OpenDone(_, _) => if !s.active { FinishConnectOwesOnly(s, r); }
    case OpenFails(_) => ConnectFailedOwesOnly(s, r);
    case UnblockDone(count) => UnblockDoneOwesOnly(s, count, r);
    case UnblockFails(_) => ConnectFailedOwesOnly(s.(session := false), r);
  }

  /** The exact account: after any step but a stop, a request is owed if and only if the step asks for it, or it was owed
      and the step does not complete it. */
  lemma OwedExactly(s: State, e: Event, r: Request)
    requires Invariant(s) && Enabled(s, e) && !Halts(s, e)
    ensures Owed(Do(s, e), r) <==> AskedBy(s, e, r) || (Owed(s, r) && !Completes(s, e, r))
  {
    if AskedBy(s, e, r) { AskedIsOwed(s, e, r); }
    if Owed(s, r) && !Completes(s, e, r) { RequestIsNeverDropped(s, e, r); }
    if Owed(Do(s, e), r) { OwedOnlyBy(s, e, r); }
    hide Do, Owed, AskedBy, Completes, Halts, Enabled, Invariant;
  }

  lemma OwedOnlyBy(s: State, e: Event, r: Request)
    requires Invariant(s) && Enabled(s, e) && !Halts(s, e) && Owed(Do(s, e), r)
    ensures AskedBy(s, e, r) || (Owed(s, r) && !Completes(s, e, r))
  {
    hide StartDrain, RunLoop, FinishConnect, ConnectFailed, DrainFailed, IterationDone;
    match e
    case FlushPush => RequestOwesOnly(s, e, r);
    case SyncNow => RequestOwesOnly(s, e, r);
    case RequestPull(_) => RequestOwesOnly(s, e, r);
    case PushTimerFires => RequestOwesOnly(s, e, r);
    case RetryTimerFires => RequestOwesOnly(s, e, r);
    case PolicyUnblocked(_) => RequestOwesOnly(s, e, r);
    case OpenDone(_, _) => ConnectOwesOnly(s, e, r);
    case OpenFails(_) => ConnectOwesOnly(s, e, r);
    case UnblockDone(_) => ConnectOwesOnly(s, e, r);
    case UnblockFails(_) => ConnectOwesOnly(s, e, r);
    case PullDone => DrainEventOwesOnly(s, e, r);
    case PullFails(_) => DrainEventOwesOnly(s, e, r);
    case PushDone(_, _, _) => DrainEventOwesOnly(s, e, r);
    case PushFails(_) => DrainEventOwesOnly(s, e, r);
    case _ =>
  }

  lemma AskedIsOwed(s: State, e: Event, r: Request)
    requires Invariant(s) && Enabled(s, e) && AskedBy(s, e, r)
    ensures Owed(Do(s, e), r)
  {
    match r
    case ForPush => PushIsRequestedBy(s, e);
    case ForPull(target) => PullIsRequestedBy(s, e, target);
  }

  // ---------------------------------------------------------------- whole runs

  /** A finite run from the stopped loop, latest event first. */
  datatype Trace = Begin | Then(earlier: Trace, event: Event)

  ghost predicate Leads(trace: Trace, s: State) {
    match trace
    case Begin => s == STOPPED
    case Then(earlier, e) => exists before :: Leads(earlier, before) && Enabled(before, e) && s == Do(before, e)
  }

  lemma StoppedIsGood()
    ensures Invariant(STOPPED)
  {
  }

  lemma {:induction false} RunKeepsInvariant(trace: Trace, s: State)
    requires Leads(trace, s)
    ensures Invariant(s)
  {
    hide Invariant, Do, Enabled;
    match trace
    case Begin => StoppedIsGood();
    case Then(earlier, e) =>
      var before :| Leads(earlier, before) && Enabled(before, e) && s == Do(before, e);
      RunKeepsInvariant(earlier, before);
      StepKeepsInvariant(before, e);
  }

  /** In every reachable state of an active loop, owed work is in flight, or a timer will bring it up. */
  lemma OwedWorkIsScheduled(trace: Trace, s: State, r: Request)
    requires Leads(trace, s) && s.active && Owed(s, r)
    ensures !s.drain.Resting? || !s.connect.Idle? || s.retryTimer || (s.reconnectTimer && !s.session)
  {
    RunKeepsInvariant(trace, s);
  }

  /** The events of `later` lead on from `s` to `t`, none of them stopping the loop or completing `r`. */
  ghost predicate RunsOn(s: State, later: Trace, t: State, r: Request) {
    match later
    case Begin => t == s
    case Then(earlier, e) =>
      exists before :: RunsOn(s, earlier, before, r) && Enabled(before, e) && t == Do(before, e)
        && !Halts(before, e) && !Completes(before, e, r)
  }

  /** Over any stretch of a run without a stop and without its completion, a request stays asked for. */
  lemma {:induction false} RequestsPersist(s: State, later: Trace, t: State, r: Request)
    requires Invariant(s) && Owed(s, r) && RunsOn(s, later, t, r)
    ensures Invariant(t) && Owed(t, r)
  {
    hide Invariant, Do, Enabled, Halts, Completes, Owed;
    match later
    case Begin =>
    case Then(earlier, e) =>
      var before :| RunsOn(s, earlier, before, r) && Enabled(before, e) && t == Do(before, e)
        && !Halts(before, e) && !Completes(before, e, r);
      RequestsPersist(s, earlier, before, r);
      StepKeepsInvariant(before, e);
      RequestIsNeverDropped(before, e, r);
  }

  // ---------------------------------------------------------------- the session

  /** An active loop has a session, is getting one, or will try again. */
  predicate Linked(s: State) { s.active ==> s.session || !s.connect.Idle? || s.reconnectTimer }

  lemma PartsKeepLinked(s: State)
    requires Linked(s)
    ensures Linked(RunLoop(s)) && Linked(StartDrain(s))
    ensures s.session || s.reconnectTimer || !s.active ==> Linked(FinishConnect(s))
  {
  }

  /** A loop that is linked stays so, but for one step: a connection attempt ends its unblocking although its session is
      lost meanwhile, and nobody has scheduled another attempt. */
  lemma StepKeepsLinked(s: State, e: Event)
    requires Invariant(s) && Linked(s) && Enabled(s, e)
    ensures Linked(Do(s, e)) <==> !(e.UnblockDone? && !s.session && !s.reconnectTimer)
  {
    forall x: State
      ensures Linked(x) ==> Linked(RunLoop(x)) && Linked(StartDrain(x))
      ensures Linked(x) && (x.session || x.reconnectTimer || !x.active) ==> Linked(FinishConnect(x))
    {
      if Linked(x) { PartsKeepLinked(x); }
    }
    if e.UnblockDone? {
      UnblockDoneLinks(s, e.count);
    }
    hide StartDrain, RunLoop, FinishConnect;
  }

  lemma UnblockDoneLinks(s: State, count: nat)
    requires Invariant(s) && s.connect.Unblocking?
    ensures Linked(Do(s, UnblockDone(count))) <==> s.session || s.reconnectTimer
  {
    var asked := if count > 0 then s.(pending := WithPush(s.pending)) else s;
    var told := if s.connect.ahead.Some? then asked.(pending := WithPull(asked.pending, s.connect.ahead)) else asked;
    KeepsLink(told.(active := true));
    hide StartDrain, FinishConnect;
    KeepsLink(StartDrain(told.(active := true)));
  }

  lemma KeepsLink(s: State)
    requires s.connect.Unblocking?
    ensures var t := StartDrain(s); t.session == s.session && t.reconnectTimer == s.reconnectTimer && t.connect == s.connect
    ensures var t := FinishConnect(s);
      t.session == s.session && t.reconnectTimer == s.reconnectTimer && t.connect.Idle? && t.active == s.active
    ensures StartDrain(s).active == s.active
  {
  }

  /** It happens: asked to reconnect while a fresh session unblocks mutations, the loop drops that session, makes no new
      attempt because one is running, and is left active without a session, an attempt or a timer. */
  lemma ReconnectIsLost()
    ensures exists trace, s ::
      && Leads(Then(Then(trace, ReconnectNow), UnblockDone(0)), s)
      && s == State(true, false, Idle, Resting, false, false, false, NO_WORK)
  {
    var trace, linked := ToUnblocking();
    var dropped := linked.(session := false);
    assert Do(linked, ReconnectNow) == dropped;
    LeadsOn(trace, linked, ReconnectNow);
    hide Leads;
    LeadsOn(Then(trace, ReconnectNow), dropped, UnblockDone(0));
  }

  lemma LeadsOn(trace: Trace, s: State, e: Event)
    requires Leads(trace, s) && Enabled(s, e)
    ensures Leads(Then(trace, e), Do(s, e))
  {
    hide Do;
  }

  lemma ToUnblocking() returns (trace: Trace, s: State)
    ensures Leads(trace, s) && s == State(true, true, Unblocking(None), Resting, false, false, false, NO_WORK)
  {
    var started := State(true, false, Opening, Resting, false, false, false, NO_WORK);
    assert Do(STOPPED, Start) == started;
    LeadsOn(Begin, STOPPED, Start);
    hide Leads;
    LeadsOn(Then(Begin, Start), started, OpenDone(None, false));
    trace, s := Then(Then(Begin, Start), OpenDone(None, false)), started.(session := true, connect := Unblocking(None));
  }

  // ---------------------------------------------------------------- stopping

  /** A stopped loop becomes active by being started or used, and also when a connection attempt that was
      unblocking mutations while stop was called comes to its end. */
  lemma StoppedLoopWakesOnlyBy(s: State, e: Event)
    requires Invariant(s) && Enabled(s, e) && !s.active
    ensures Do(s, e).active <==> e.Start? || e.UseSession? || e.UnblockDone?
  {
    forall x: State ensures StartDrain(x).active == x.active && FinishConnect(x).active == x.active && RunLoop(x).active == x.active {
      PartsKeepActivity(x);
    }
    hide RunLoop, StartDrain, FinishConnect;
  }

  lemma PartsKeepActivity(s: State)
    ensures RunLoop(s).active == s.active && StartDrain(s).active == s.active && FinishConnect(s).active == s.active
  {
  }

  /** A stop called at that moment is undone. */
  lemma StopIsUndone()
    ensures exists trace, s :: Leads(Then(Then(trace, Stop), UnblockDone(0)), s) && s.active
  {
    var trace, linked := ToUnblocking();
    LeadsOn(trace, linked, Stop);
    hide Leads;
    LeadsOn(Then(trace, Stop), Do(linked, Stop), UnblockDone(0));
  }
}

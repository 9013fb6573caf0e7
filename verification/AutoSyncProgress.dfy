/**
 Where the auto-sync loop gets to: what stops it, what a failure leaves, how it gets its session, and that work comes to
 an end when nothing fails and nothing new is asked for.
 */
module AutoSyncProgress {
  import opened AutoSync
  import opened Common

  // ---------------------------------------------------------------- what stops the loop

  /** An active loop stops exactly by being stopped, when the vault is unavailable, when the server is behind the local
      cursor, or after a push over the storage quota; it then has no session, no timer and nothing pending. */
  lemma StopsExactly(s: State, e: Event)
    requires Invariant(s) && Enabled(s, e) && s.active
    ensures var t := Do(s, e);
      && (!t.active <==>
            || e.Stop? || e.QuotaDone? || (e.SessionCloses? && e.unavailable) || (e.OpenDone? && e.cursorAhead)
            || ((e.OpenFails? || e.UnblockFails? || e.PullFails? || e.PushFails?)
                && (e.failure == CursorAhead || e.failure == VaultUnavailable)))
      && (!t.active <==> Halts(s, e))
      && (!t.active ==> !t.session && !t.pushTimer && !t.reconnectTimer)
  {
    forall x: State
      ensures StartDrain(x).active == x.active && FinishConnect(x).active == x.active && RunLoop(x).active == x.active
    {
      PartsKeepActivity(x);
    }
    StepKeepsInvariant(s, e);
    hide StartDrain, FinishConnect, RunLoop, NothingStranded;
  }

  /** A stop forgets what is pending and every timer at once; only work a drain has taken may still come back. */
  lemma StopForgets(s: State)
    ensures var t := Do(s, Stop);
      && !t.active && !t.session && !t.pushTimer && !t.reconnectTimer && !t.retryTimer && !HasWork(t.pending)
      && t.connect == s.connect && t.drain == s.drain
  {
  }

  // ---------------------------------------------------------------- failures

  /** How far a pull is asked for, 0 when none is. */
  function Furthest(w: Work): nat { if w.pull.Some? then w.pull.value else 0 }

  /** A drain that fails rests. Unless the failure stops the loop, its work is pending again, as far as it was not completed,
      and the retry timer is set. */
  lemma FailedDrainRests(s: State, e: Event)
    requires Invariant(s) && Enabled(s, e) && (e.PullFails? || e.PushFails?)
    ensures var t := Do(s, e);
      && t.drain.Resting? && t.connect == s.connect
      && (e.failure.OtherError? ==>
            && t.active == s.active && t.session == s.session && (s.active ==> t.retryTimer)
            && t.pushTimer == s.pushTimer && t.reconnectTimer == s.reconnectTimer
            && (t.pending.push <==> s.pending.push || e.PushFails? || (s.drain.Pulling? && s.drain.work.push))
            && (e.PushFails? ==> t.pending.pull == s.pending.pull)
            && (e.PullFails? ==> t.pending.pull == Some(Max(Furthest(s.pending), Furthest(s.drain.work)))))
  {
  }

  /** A drain that gets no session puts its work back, and a timer will bring it up again. */
  lemma NoSessionPutsBack(s: State, e: Event)
    requires Invariant(s) && Enabled(s, e) && s.drain.Connecting? && s.active
    requires (e.OpenFails? || e.UnblockFails?) && e.failure.OtherError?
    ensures var t := Do(s, e);
      && t.drain.Resting? && t.connect.Idle? && !t.session && t.reconnectTimer
      && (t.pending.push <==> s.pending.push || s.drain.work.push)
      && (t.pending.pull.Some? <==> s.pending.pull.Some? || s.drain.work.pull.Some?)
  {
  }

  // ---------------------------------------------------------------- sessions

  /** Whoever asks for a session gets one or an attempt; losing it sets the reconnect timer. */
  lemma SessionsAreSought(s: State, e: Event)
    requires Invariant(s) && Enabled(s, e)
    ensures var t := Do(s, e);
      && (e.UseSession? || e.Start? || e.ReconnectTimerFires? ==> t.active)
      && (e.UseSession? || (e.Start? && !s.active) || e.ReconnectTimerFires? || (s.active && e.ResumeConnection?) ==>
            t.session || !t.connect.Idle?)
      && (s.active && e.ReconnectNow? ==> t.active && !t.session && !t.connect.Idle? && !t.reconnectTimer)
      && (s.active && e.ResumeConnection? && !s.session ==> !t.reconnectTimer)
      && (s.active && e.SessionCloses? && !e.unavailable ==> !t.session && t.reconnectTimer)
      && (s.active && (e.OpenFails? || e.UnblockFails?) && e.failure.OtherError? ==> !t.session && t.reconnectTimer)
      && (s.active && e.OpenDone? && !e.cursorAhead ==> t.session && t.connect == Unblocking(e.ahead) && t.drain == s.drain)
      && (!s.active && e.OpenDone? ==> !t.session && t.connect.Idle?)
  {
    hide StartDrain, RunLoop;
  }

  /** A session that is there and an attempt that runs are left alone by whoever only asks for one. */
  lemma OneAttemptAtATime(s: State, e: Event)
    requires Invariant(s) && Enabled(s, e) && (e.Start? || e.UseSession? || e.ResumeConnection? || e.ReconnectTimerFires?)
    ensures !s.connect.Idle? ==> Do(s, e).connect == s.connect
    ensures s.session ==> Do(s, e).session && Do(s, e).connect == s.connect
    ensures Do(s, e).drain == s.drain && Do(s, e).pending == s.pending
  {
  }

  // ---------------------------------------------------------------- the order of the work

  /** A drain takes all that is pending at once, whatever starts it; with a session it pulls before it pushes. */
  lemma DrainTakesAll(s: State, e: Event)
    requires Invariant(s) && Enabled(s, e) && s.drain.Resting? && !Do(s, e).drain.Resting?
    ensures var t := Do(s, e);
      && !HasWork(t.pending) && HasWork(t.drain.work)
      && (t.drain.Connecting? || t.drain.Pulling? || t.drain.Pushing?)
      && (t.drain.Pulling? ==> t.session) && (t.drain.Pushing? ==> t.session && t.drain.work.pull.None?)
  {
    match e
    case UnblockDone(count) =>
      var asked := if count > 0 then s.(pending := WithPush(s.pending)) else s;
      var told := if s.connect.ahead.Some? then asked.(pending := WithPull(asked.pending, s.connect.ahead)) else asked;
      DrainStarts(told.(active := true));
      ConnectedTakesAll(StartDrain(told.(active := true)));
      hide StartDrain, FinishConnect;
    case FlushPush =>
      DrainStarts(s.(pushTimer := false, pending := WithPush(s.pending)));
      DrainStarts(s);
      hide StartDrain;
    case SyncNow => DrainStarts(s.(pushTimer := false, pending := WithPush(WithPull(s.pending, None)))); hide StartDrain;
    case RequestPull(target) => DrainStarts(s.(pending := WithPull(s.pending, target))); hide StartDrain;
    case PushTimerFires => DrainStarts(s.(pushTimer := false, pending := WithPush(s.pending))); hide StartDrain;
    case RetryTimerFires => DrainStarts(s.(retryTimer := false)); hide StartDrain;
    case PolicyUnblocked(_) => DrainStarts(s.(pending := WithPush(s.pending))); hide StartDrain;
    case _ => hide StartDrain, RunLoop;
  }

  ghost predicate HasTaken(t: State) {
    !t.drain.Resting? ==>
      && !HasWork(t.pending) && HasWork(t.drain.work)
      && (t.drain.Connecting? || t.drain.Pulling? || t.drain.Pushing?)
      && (t.drain.Pulling? ==> t.session) && (t.drain.Pushing? ==> t.session && t.drain.work.pull.None?)
  }

  lemma DrainStarts(s: State)
    requires s.drain.Resting?
    ensures HasTaken(StartDrain(s))
  {
  }

  lemma ConnectedTakesAll(s: State)
    requires HasTaken(s)
    ensures HasTaken(FinishConnect(s))
  {
  }

  /** An iteration goes from its pull to its push, from a push that asks for it to another pull, and ends otherwise; the next
      one takes what has come in meanwhile, and the loop rests if nothing has. */
  lemma IterationGoesOn(s: State, e: Event)
    requires Invariant(s) && Enabled(s, e) && s.active && (e.PullDone? || (e.PushDone? && !e.quota))
    ensures var t, w := Do(s, e), s.drain.work;
      && (e.PullDone? && s.drain.Pulling? && w.push ==> t == s.(drain := Pushing(w)))
      && (e.PushDone? && e.pullAfter ==> t == s.(drain := PullingAfter(w), pending := t.pending))
      && ((e.PullDone? && !(s.drain.Pulling? && w.push)) || (e.PushDone? && !e.pullAfter) ==>
            && HasTaken(t)
            && (t.drain.Resting? <==> !HasWork(s.pending) && !(e.PushDone? && e.hasMore)))
  {
    LoopTakes(s.(retryTimer := false));
    LoopTakes(s.(retryTimer := false, pending := WithPush(s.pending)));
    hide RunLoop;
  }

  lemma LoopTakes(s: State)
    ensures HasTaken(RunLoop(s))
    ensures s.active && HasWork(s.pending) ==> !RunLoop(s).drain.Resting?
    ensures !HasWork(s.pending) ==> RunLoop(s).drain.Resting?
  {
  }

  // ---------------------------------------------------------------- work comes to an end

  /** A step the loop takes by itself when nothing fails and nothing new comes in. */
  predicate GoesWell(s: State, e: Event) {
    || e.PushTimerFires? || e.ReconnectTimerFires? || e.RetryTimerFires? || e.PullDone? || e.QuotaDone?
    || (e.OpenDone? && !e.cursorAhead)
    || (e.UnblockDone? && s.session && e.count == 0 && s.connect.Unblocking? && s.connect.ahead.None?)
    || (e.PushDone? && !e.hasMore)
  }

  function DrainSteps(drain: Drain): nat {
    match drain
    case Resting => 0
    case Connecting(_) => 16
    case Pulling(_) => 14
    case Pushing(_) => 10
    case PullingAfter(_) => 6
    case Quota(_) => 2
  }

  function ConnectSteps(connect: Connect): nat {
    match connect
    case Idle => 0
    case Opening => 8
    case Unblocking(_) => 4
  }

  function If(condition: bool, n: nat): nat { if condition then n else 0 }

  /** The steps left, at most, when nothing fails and nothing new comes in. */
  function StepsLeft(s: State): nat {
    If(s.pushTimer, 40) + If(s.retryTimer, 6) + If(s.reconnectTimer, 12)
    + If(s.pending.push, 30) + If(s.pending.pull.Some?, 30) + DrainSteps(s.drain) + ConnectSteps(s.connect)
  }

  lemma DrainLowers(s: State)
    ensures StepsLeft(StartDrain(s)) <= StepsLeft(s)
  {
  }

  lemma LoopLowers(s: State)
    ensures StepsLeft(RunLoop(s.(drain := Resting))) <= StepsLeft(s.(drain := Resting))
    ensures RunLoop(s.(drain := Resting)) == RunLoop(s)
  {
  }

  /** A step of its own that goes well brings an active loop closer to its rest. */
  lemma WellStepsCountDown(s: State, e: Event)
    requires Invariant(s) && Enabled(s, e) && s.active && GoesWell(s, e)
    ensures StepsLeft(Do(s, e)) < StepsLeft(s)
  {
    hide StartDrain, RunLoop, FinishConnect, Proceed, NothingStranded;
    if e.ReconnectTimerFires? || e.OpenDone? || e.QuotaDone? {
      ConnectingLowers(s, e);
      hide Do, StepsLeft;
    } else {
      DrainingLowers(s, e);
      hide Do, StepsLeft;
    }
  }

  lemma ConnectingLowers(s: State, e: Event)
    requires Enabled(s, e) && s.active && GoesWell(s, e) && (e.ReconnectTimerFires? || e.OpenDone? || e.QuotaDone?)
    ensures StepsLeft(Do(s, e)) < StepsLeft(s)
  {
    hide StartDrain, RunLoop, FinishConnect, Proceed;
  }

  lemma DrainingLowers(s: State, e: Event)
    requires Invariant(s) && Enabled(s, e) && s.active && GoesWell(s, e)
    requires !e.ReconnectTimerFires? && !e.OpenDone? && !e.QuotaDone?
    ensures StepsLeft(Do(s, e)) < StepsLeft(s)
  {
    hide StartDrain, RunLoop, FinishConnect, Proceed, NothingStranded;
    match e
    case PushTimerFires => DrainLowers(s.(pushTimer := false, pending := WithPush(s.pending)));
    case RetryTimerFires => DrainLowers(s.(retryTimer := false));
    case PullDone => LoopLowers(s.(retryTimer := false));
    case PushDone(_, _, _) => LoopLowers(s.(retryTimer := false));
    case UnblockDone(_) =>
      DrainLowers(s.(active := true));
      UnblockStarts(s.(active := true));
      UnblockedLowers(StartDrain(s.(active := true)));
    case _ =>
  }

  lemma UnblockStarts(s: State)
    requires s.session && s.connect.Unblocking? && (s.drain.Connecting? ==> HasWork(s.drain.work))
    ensures var t := StartDrain(s);
      t.session && t.connect.Unblocking? && (t.drain.Connecting? ==> HasWork(t.drain.work))
  {
  }

  lemma UnblockedLowers(s: State)
    requires s.session && s.connect.Unblocking? && (s.drain.Connecting? ==> HasWork(s.drain.work))
    ensures StepsLeft(FinishConnect(s)) < StepsLeft(s)
  {
  }

  /** In every reachable state of an active loop that owes work, or has local changes to push, a step of its own can be
      taken. */
  lemma OwedWorkMovesOn(trace: Trace, s: State, r: Request) returns (e: Event)
    requires Leads(trace, s) && s.active && (Owed(s, r) || s.pushTimer)
    ensures Enabled(s, e) && (GoesWell(s, e) || e.UnblockDone? || (e.PushDone? && e.hasMore))
  {
    RunKeepsInvariant(trace, s);
    if !s.pushTimer { OwedWorkIsScheduled(trace, s, r); }
    e :=
      if s.pushTimer then PushTimerFires
      else if s.drain.Pulling? || s.drain.PullingAfter? then PullDone
      else if s.drain.Pushing? then PushDone(false, false, false)
      else if s.drain.Quota? then QuotaDone
      else if s.connect.Opening? then OpenDone(None, false)
      else if s.connect.Unblocking? then UnblockDone(0)
      else if s.retryTimer then RetryTimerFires
      else ReconnectTimerFires;
  }
}

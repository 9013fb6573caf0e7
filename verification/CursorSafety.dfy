/**
 Runs of the cursor protocol that are safe: tasks that come one after the other never move the cursor back, and runs in
 which nothing disturbs what is known about an entry never set it back, however many answers get lost and are replayed.
 */
module CursorSafety {
  import opened Common
  import opened CursorProtocol

  // ---------------------------------------------------------------- one task at a time

  /** A pull or push starts while another one is running, as restoring a version may do. */
  predicate Overlaps(s: State, e: Event) { (e.PullStart? || e.PushStart?) && (s.pulls != map[] || s.push.Some?) }

  predicate KnowsCursor(p: Pull, cursor: nat) {
    p.cursor == cursor && (p.job.Closing? && p.job.looked.Some? ==> p.job.looked.value == cursor)
  }

  /** At most one task runs, and its own idea of the cursor is right. */
  ghost predicate Solo(s: State) {
    && (forall p, q | p in s.pulls && q in s.pulls :: p == q)
    && (forall p | p in s.pulls :: KnowsCursor(s.pulls[p], s.cursor))
    && (s.push.Some? ==> s.pulls == map[] && s.push.value.start == s.cursor)
  }

  lemma PullsAfterStep(s: State, e: Event, windowSize: nat)
    requires Enabled(s, e)
    ensures Next(s, e, windowSize).pulls == PullsAfter(s, e, windowSize)
  {
    hide PullAfter, Applied, Checkpointed, Raise, LeftPending, CursorAfter, Append, Committed;
  }

  /** A push that runs after a step ran before with the same start, or starts now. */
  lemma PushAfterStep(s: State, e: Event, windowSize: nat)
    requires Enabled(s, e)
    ensures var s' := Next(s, e, windowSize);
      && (s'.push.Some? ==> e.PushStart? || (s.push.Some? && s'.push.value.start == s.push.value.start))
      && (e.PushStart? ==> s'.push.Some? && s'.push.value.start == s.cursor)
      && (e.PushFinish? ==> s'.push.None?)
  {
    hide PullAfter, Applied, Checkpointed, Raise, LeftPending, CursorAfter, Append, Committed;
  }

  ghost function PullsAfter(s: State, e: Event, windowSize: nat): map<nat, Pull>
    requires Enabled(s, e)
  {
    if ChangesOnePull(e) then s.pulls[e.pull := PullAfter(s, e, windowSize)]
    else match e
      case ItemApplied(pull, item, _) => s.pulls[pull := Applied(s.pulls[pull], item)]
      case WindowDone(pull) => s.pulls[pull := Checkpointed(s.pulls[pull])]
      case PullEnd(pull) => s.pulls - {pull}
      case PullFail(pull) => s.pulls - {pull}
      case _ => s.pulls
  }

  /** With one task at a time nobody writes a cursor below the stored one. */
  lemma SoloNeverRewinds(s: State, e: Event)
    requires Invariant(s) && Solo(s) && Enabled(s, e)
    ensures s.cursor <= CursorAfter(s, e)
    ensures e.PullEnd? ==> CursorAfter(s, e) == s.cursor
    ensures e.WindowDone? ==> CursorAfter(s, e) == CheckpointOf(s.pulls[e.pull])
    ensures CursorAfter(s, e) != s.cursor ==> e.WindowDone? || e.PushFinish?
  {
    if e.WindowDone? {
      assert KnowsCursor(s.pulls[e.pull], s.cursor) && PullInvariant(s.log, s.taken, s.pulls[e.pull]);
      CheckpointIsReached(s.log, s.taken, s.pulls[e.pull]);
    }
    if e.PullEnd? {
      assert KnowsCursor(s.pulls[e.pull], s.cursor) && PullInvariant(s.log, s.taken, s.pulls[e.pull]);
      hide Reached, Gathered, PageFits, AllNumbered, Held;
    }
    hide Invariant, PullInvariant, CheckpointOf;
  }

  lemma StepKeepsSolo(s: State, e: Event, windowSize: nat)
    requires Invariant(s) && Solo(s) && Enabled(s, e) && !Overlaps(s, e)
    ensures Solo(Next(s, e, windowSize)) && s.cursor <= Next(s, e, windowSize).cursor
  {
    hide Invariant, Next, CursorAfter, CheckpointOf;
    var s' := Next(s, e, windowSize);
    StepKinds(s, e, windowSize);
    PullsAfterStep(s, e, windowSize);
    PushAfterStep(s, e, windowSize);
    SoloNeverRewinds(s, e);
    PullsKnowCursor(s, e, windowSize);
  }

  lemma PullsKnowCursor(s: State, e: Event, windowSize: nat)
    requires Invariant(s) && Solo(s) && Enabled(s, e) && !Overlaps(s, e)
    ensures forall p | p in PullsAfter(s, e, windowSize) :: KnowsCursor(PullsAfter(s, e, windowSize)[p], CursorAfter(s, e))
    ensures forall p, q | p in PullsAfter(s, e, windowSize) && q in PullsAfter(s, e, windowSize) :: p == q
  {
    hide Invariant, CursorAfter, CheckpointOf, Committed, InHand, KnowsCursor;
    forall p | p in PullsAfter(s, e, windowSize) ensures KnowsCursor(PullsAfter(s, e, windowSize)[p], CursorAfter(s, e)) {
      PullKnowsCursor(s, e, windowSize, p);
    }
  }

  lemma PullKnowsCursor(s: State, e: Event, windowSize: nat, p: nat)
    requires Invariant(s) && Solo(s) && Enabled(s, e) && !Overlaps(s, e) && p in PullsAfter(s, e, windowSize)
    ensures KnowsCursor(PullsAfter(s, e, windowSize)[p], CursorAfter(s, e))
  {
    SoloNeverRewinds(s, e);
    assert p in s.pulls ==> KnowsCursor(s.pulls[p], s.cursor);
    hide Invariant, CursorAfter, CheckpointOf, Committed, InHand, Solo, NewItems;
    assert s.push.Some? ==> p !in s.pulls || !e.PushFinish?;
  }

  ghost predicate NeverOverlaps(states: seq<State>, events: seq<Event>, n: nat)
    requires n <= |events| < |states|
  {
    forall k | 0 <= k < n :: !Overlaps(states[k], events[k])
  }

  lemma {:induction false} RunStaysSolo(states: seq<State>, events: seq<Event>, windowSize: nat, n: nat)
    requires Run(states, events, windowSize) && n < |states| == |events| + 1
    requires Solo(states[0]) && NeverOverlaps(states, events, n)
    ensures Solo(states[n])
  {
    hide Run, Invariant, Solo, Overlaps;
    if n > 0 {
      RunStaysSolo(states, events, windowSize, n - 1);
      RunStep(states, events, windowSize, n - 1);
      RunKeepsInvariant(states, events, windowSize, n - 1);
      StepKeepsSolo(states[n - 1], events[n - 1], windowSize);
    }
  }

  /** While tasks come one after the other the stored cursor never moves back, whatever is replayed. */
  lemma {:induction false} CursorNeverMovesBack(states: seq<State>, events: seq<Event>, windowSize: nat, i: nat, j: nat)
    requires Run(states, events, windowSize) && i <= j < |states| == |events| + 1
    requires Solo(states[0]) && NeverOverlaps(states, events, j)
    ensures states[i].cursor <= states[j].cursor
    decreases j
  {
    hide Run, Invariant, Solo, Overlaps;
    if i < j {
      CursorNeverMovesBack(states, events, windowSize, i, j - 1);
      RunStaysSolo(states, events, windowSize, j - 1);
      RunStep(states, events, windowSize, j - 1);
      RunKeepsInvariant(states, events, windowSize, j - 1);
      StepKeepsSolo(states[j - 1], events[j - 1], windowSize);
    }
  }

  // ---------------------------------------------------------------- when answers are never below

  ghost predicate Unsent(log: Log, pending: map<Entry, Pending>, entry: Entry) {
    entry in pending ==> !Committed(log, entry, pending[entry].id)
  }

  /** If the server has committed the mutation already, its answer is not below what has been taken over. */
  ghost predicate AnswerIsNew(log: Log, taken: map<Entry, nat>, entry: Entry, id: nat) {
    forall k | 0 <= k < |log| && log[k].entry == entry && log[k].author == Some(id) ::
      Stored(taken, entry) <= log[k].revision
  }

  ghost predicate AnswersAreNew(log: Log, taken: map<Entry, nat>, pending: map<Entry, Pending>) {
    forall entry | entry in pending :: AnswerIsNew(log, taken, entry, pending[entry].id)
  }

  /** What replaced a listed mutation meanwhile is new to the server. */
  ghost predicate ListedFirst(log: Log, pending: map<Entry, Pending>, listed: map<Entry, Pending>) {
    forall entry | entry in listed && entry in pending ::
      pending[entry].id == listed[entry].id || Unsent(log, pending, entry)
  }

  ghost predicate BatchIsNew(taken: map<Entry, nat>, batch: seq<Accepted>) {
    forall i | 0 <= i < |batch| :: Stored(taken, batch[i].entry) <= batch[i].revision
  }

  ghost predicate PushIsClean(log: Log, taken: map<Entry, nat>, pending: map<Entry, Pending>, p: Push) {
    AnswersAreNew(log, taken, p.listed) && ListedFirst(log, pending, p.listed) && BatchIsNew(taken, p.batch)
  }

  ghost predicate AllLevel(s: State) { forall entry: Entry {:trigger Level(s, entry)} :: Level(s, entry) }

  /** Nothing is set back, and every mutation that waits, is being pushed or has been answered gives an answer
      that may be written. */
  ghost predicate Clean(s: State) {
    && AllLevel(s) && AnswersAreNew(s.log, s.taken, s.pending)
    && (s.push.Some? ==> PushIsClean(s.log, s.taken, s.pending, s.push.value))
  }

  /** A pulled state is stored for an entry that has a pending mutation, and the mutation stays: a skipped item. */
  predicate SkipsOverPending(s: State, e: Event) {
    && e.ItemApplied? && e.handling.Keeps?
    && e.item.entry in s.pending && Stored(s.stored, e.item.entry) < e.item.revision
  }

  /** A pulled state is stored for an entry a push running at the same time has in hand. */
  predicate OvertakesPush(s: State, e: Event) {
    && e.ItemApplied? && s.push.Some?
    && e.item.entry in s.push.value.listed && Stored(s.stored, e.item.entry) < e.item.revision
  }

  /** A planned item is stored although something newer came in since the planner looked. */
  predicate OvertakenItem(s: State, e: Event) { e.ItemApplied? && e.item.revision < Stored(s.stored, e.item.entry) }

  /** A row read earlier is written back although a newer revision is stored, or dropped although it has one by now. */
  predicate StaleRow(s: State, e: Event) {
    || (e.RowWritten? && e.row.revision < Stored(s.stored, e.row.entry))
    || (e.RowDropped? && 0 < Stored(s.stored, e.row.entry))
  }

  /** Undoing a failed group puts a pending mutation back that is no longer there. */
  predicate PutsBackOther(s: State, e: Event) {
    && e.RowWritten? && e.left.PutBack? && e.row.pending.Some?
    && !(e.row.entry in s.pending && s.pending[e.row.entry] == e.row.pending.value)
  }

  /** Each of these the client can see at the moment of the write. */
  predicate Disturbs(s: State, e: Event) {
    SkipsOverPending(s, e) || OvertakesPush(s, e) || OvertakenItem(s, e) || StaleRow(s, e) || PutsBackOther(s, e)
  }

  lemma CleanNeverLowers(s: State, e: Event, entry: Entry)
    requires Invariant(s) && Clean(s) && Enabled(s, e) && !Disturbs(s, e)
    ensures !Lowers(s, e, entry)
  {
    assert Level(s, entry);
    hide Invariant, Enabled, AnswersAreNew, ListedFirst;
  }

  lemma StepKeepsLevel(s: State, e: Event, windowSize: nat)
    requires Invariant(s) && Clean(s) && Enabled(s, e) && !Disturbs(s, e)
    ensures AllLevel(Next(s, e, windowSize))
  {
    forall entry: Entry ensures Level(Next(s, e, windowSize), entry) {
      CleanNeverLowers(s, e, entry);
      StepIsMonotone(s, e, windowSize, entry);
      assert Level(s, entry);
      hide Invariant, Next, Enabled, Lowers, Level, Disturbs;
    }
  }

  lemma AppendKeepsNew(log: Log, entry: Entry, author: Option<nat>, taken: map<Entry, nat>, pending: map<Entry, Pending>)
    requires ValidLog(log) && TakenIsGenuine(log, taken) && AnswersAreNew(log, taken, pending)
    ensures AnswersAreNew(Append(log, entry, author), taken, pending)
  {
    var log' := Append(log, entry, author);
    forall other, k |
        other in pending && 0 <= k < |log'| && log'[k].entry == other && log'[k].author == Some(pending[other].id)
      ensures Stored(taken, other) <= log'[k].revision
    {
      assert AnswerIsNew(log, taken, other, pending[other].id);
      assert Stored(taken, other) <= Revision(log, other);
    }
  }

  /** Only the commit's own mutation becomes committed. */
  lemma CommittedAfterAppend(log: Log, entry: Entry, author: Option<nat>, other: Entry, id: nat)
    ensures Committed(Append(log, entry, author), other, id) <==>
      Committed(log, other, id) || (other == entry && author == Some(id))
  {
    var log' := Append(log, entry, author);
    assert log'[|log|].entry == entry && log'[|log|].author == author;
    if Committed(log, other, id) {
      var k :| 0 <= k < |log| && log[k].entry == other && log[k].author == Some(id);
      assert log'[k] == log[k];
    }
  }

  lemma AppendKeepsFirst(log: Log, entry: Entry, author: Option<nat>, pending: map<Entry, Pending>,
      listed: map<Entry, Pending>)
    requires ListedFirst(log, pending, listed)
    requires author.Some? ==> entry in listed && listed[entry].id == author.value
    ensures ListedFirst(Append(log, entry, author), pending, listed)
  {
    forall other: Entry, id: nat
      ensures Committed(Append(log, entry, author), other, id)
        == (Committed(log, other, id) || (other == entry && author == Some(id)))
    {
      CommittedAfterAppend(log, entry, author, other, id);
    }
    hide Committed;
  }

  lemma CommitKeepsClean(s: State, e: Event, windowSize: nat)
    requires Invariant(s) && Clean(s) && Enabled(s, e) && (e.OtherCommit? || e.PushCommit?)
    requires AllLevel(Next(s, e, windowSize))
    ensures Clean(Next(s, e, windowSize))
  {
    var author := if e.OtherCommit? then None else Some(s.push.value.listed[e.entry].id);
    AppendKeepsNew(s.log, e.entry, author, s.taken, s.pending);
    if s.push.Some? {
      AppendKeepsNew(s.log, e.entry, author, s.taken, s.push.value.listed);
      AppendKeepsFirst(s.log, e.entry, author, s.pending, s.push.value.listed);
      assert Stored(s.taken, e.entry) <= Revision(s.log, e.entry);
    }
    hide Invariant, AnswersAreNew, ListedFirst, AllLevel, Append;
  }

  /** Mutations that stay, of entries whose revision stays, still give new answers; so do new ones. */
  lemma NewStays(log: Log, taken: map<Entry, nat>, taken': map<Entry, nat>, pending: map<Entry, Pending>,
      pending': map<Entry, Pending>)
    requires AnswersAreNew(log, taken, pending)
    requires forall entry | entry in pending' ::
      || (entry in pending && pending'[entry].id == pending[entry].id && Stored(taken', entry) == Stored(taken, entry))
      || AnswerIsNew(log, taken', entry, pending'[entry].id)
    ensures AnswersAreNew(log, taken', pending')
  {
    forall entry | entry in pending' ensures AnswerIsNew(log, taken', entry, pending'[entry].id) {
      assert entry in pending ==> AnswerIsNew(log, taken, entry, pending[entry].id);
    }
  }

  lemma ItemKeepsPending(s: State, pull: nat, item: Item, handling: Handling, windowSize: nat)
    requires Invariant(s) && Clean(s) && Enabled(s, ItemApplied(pull, item, handling))
    requires !SkipsOverPending(s, ItemApplied(pull, item, handling)) && !OvertakenItem(s, ItemApplied(pull, item, handling))
    ensures var s' := Next(s, ItemApplied(pull, item, handling), windowSize);
      && s'.taken == Raise(s.taken, item.entry, item.revision) && s'.log == s.log && s'.push == s.push
      && AnswersAreNew(s'.log, s'.taken, s'.pending)
      && (forall entry | entry in s'.pending ::
            (entry in s.pending && s'.pending[entry] == s.pending[entry]) || Unsent(s.log, s'.pending, entry))
  {
    assert Level(s, item.entry) && IdsInUse(s);
    NewIdIsUnsent(s.log, item.entry, s.nextId);
    var s' := Next(s, ItemApplied(pull, item, handling), windowSize);
    hide Invariant, AllLevel, AnswersAreNew, AnswerIsNew, Committed;
    NewStays(s.log, s.taken, s'.taken, s.pending, s'.pending);
  }

  lemma ItemKeepsPush(s: State, item: Item, p: Push)
    requires Invariant(s) && Clean(s) && s.push == Some(p)
    requires item.entry in p.listed ==> item.revision <= Stored(s.stored, item.entry)
    ensures var taken := Raise(s.taken, item.entry, item.revision);
      AnswersAreNew(s.log, taken, p.listed) && BatchIsNew(taken, p.batch)
  {
    assert Level(s, item.entry);
    var taken := Raise(s.taken, item.entry, item.revision);
    NewStays(s.log, s.taken, taken, p.listed, p.listed);
    forall i | 0 <= i < |p.batch| ensures Stored(taken, p.batch[i].entry) <= p.batch[i].revision {
      assert AnswerFits(s.log, p.listed, p.batch[i]);
    }
    hide Invariant;
  }

  lemma ItemKeepsClean(s: State, pull: nat, item: Item, handling: Handling, windowSize: nat)
    requires Invariant(s) && Clean(s) && Enabled(s, ItemApplied(pull, item, handling))
    requires !Disturbs(s, ItemApplied(pull, item, handling))
    requires AllLevel(Next(s, ItemApplied(pull, item, handling), windowSize))
    ensures Clean(Next(s, ItemApplied(pull, item, handling), windowSize))
  {
    ItemKeepsPending(s, pull, item, handling, windowSize);
    if s.push.Some? {
      ItemKeepsPush(s, item, s.push.value);
    }
    hide Invariant, AllLevel, AnswersAreNew, BatchIsNew, Enabled, Next, Raise, Committed;
  }

  lemma NewIdIsUnsent(log: Log, entry: Entry, id: nat)
    requires AuthorsBelow(log, id)
    ensures !Committed(log, entry, id)
    ensures forall taken :: AnswerIsNew(log, taken, entry, id)
  {
  }

  // ---------------------------------------------------------------- the other steps

  /** What an entry has queued after its answer was written has never been sent. */
  lemma AfterBatchUnsent(s: State, i: nat)
    requires Invariant(s) && Clean(s) && s.push.Some? && i < |s.push.value.batch|
    ensures Unsent(s.log, AllAnswered(s.pending, s.push.value.batch), s.push.value.batch[i].entry)
  {
    var p := s.push.value;
    assert AnswersFit(s.log, p.listed, p.batch) && AnswerFits(s.log, p.listed, p.batch[i]);
    AllAnsweredSets(s.pending, p.batch, p.batch[i].entry);
    hide Invariant, AllLevel, AnswersAreNew, BatchIsNew, Committed;
  }

  /** Writing a batch raises every answered entry to its answer; what the entry has queued since is new to the server. So no
      push sets an entry back it has written an answer for. */
  lemma BatchSettles(s: State, i: nat)
    requires Invariant(s) && Clean(s) && s.push.Some? && i < |s.push.value.batch|
    ensures var a, s' := s.push.value.batch[i], BatchWritten(s);
      && Stored(s'.stored, a.entry) == Stored(s'.taken, a.entry) == a.revision >= Stored(s.stored, a.entry)
      && Unsent(s'.log, s'.pending, a.entry)
      && (a.entry in s'.pending ==> AnswerIsNew(s'.log, s'.taken, a.entry, s'.pending[a.entry].id))
  {
    var a := s.push.value.batch[i];
    assert AnswersFit(s.log, s.push.value.listed, s.push.value.batch) && Level(s, a.entry);
    AfterBatchUnsent(s, i);
    ApplyBatchSets(s.stored, s.push.value.batch, a.entry);
    RaiseAllSets(s.taken, s.push.value.batch, a.entry);
    hide Invariant, AllLevel, AnswersAreNew, ListedFirst;
  }

  ghost predicate SameOrUnsent(s: State, pending: map<Entry, Pending>, entry: Entry)
    requires entry in pending
  {
    (entry in s.pending && s.pending[entry].id == pending[entry].id) || Unsent(s.log, pending, entry)
  }

  lemma BatchKeepsClean(s: State)
    requires Invariant(s) && Clean(s) && s.push.Some? && AllLevel(BatchWritten(s))
    ensures Clean(BatchWritten(s))
  {
    var p, s' := s.push.value, BatchWritten(s);
    forall entry: Entry
      ensures entry in s'.pending ==> AnswerIsNew(s.log, s'.taken, entry, s'.pending[entry].id)
      ensures entry in s'.pending ==> SameOrUnsent(s, s'.pending, entry)
      ensures entry in s'.push.value.listed ==> AnswerIsNew(s.log, s'.taken, entry, s'.push.value.listed[entry].id)
    {
      BatchKeepsEntry(s, entry);
    }
    hide Invariant, AllLevel, AnswerIsNew, Unsent, RaiseAll, AllAnswered, ApplyBatch;
    assert AnswersAreNew(s.log, s'.taken, s'.pending) && AnswersAreNew(s.log, s'.taken, s'.push.value.listed);
    hide AnswersAreNew;
    assert forall entry | entry in s'.push.value.listed :: s'.push.value.listed[entry] == p.listed[entry];
  }

  lemma BatchAppliedKeepsClean(s: State, windowSize: nat)
    requires Invariant(s) && Clean(s) && Enabled(s, BatchApplied) && AllLevel(Next(s, BatchApplied, windowSize))
    ensures Clean(Next(s, BatchApplied, windowSize))
  {
    hide Invariant, Clean, AllLevel, BatchWritten;
    BatchKeepsClean(s);
  }

  lemma BatchKeepsEntry(s: State, entry: Entry)
    requires Invariant(s) && Clean(s) && s.push.Some?
    ensures var s' := BatchWritten(s);
      && (entry in s'.pending ==> AnswerIsNew(s.log, s'.taken, entry, s'.pending[entry].id))
      && (entry in s'.pending ==> SameOrUnsent(s, s'.pending, entry))
      && (entry in s'.push.value.listed ==> AnswerIsNew(s.log, s'.taken, entry, s'.push.value.listed[entry].id))
  {
    var p := s.push.value;
    assert AnswersFit(s.log, p.listed, p.batch);
    assert entry in s.pending ==> AnswerIsNew(s.log, s.taken, entry, s.pending[entry].id);
    assert entry in p.listed ==> AnswerIsNew(s.log, s.taken, entry, p.listed[entry].id);
    AllAnsweredSets(s.pending, p.batch, entry);
    RaiseAllSets(s.taken, p.batch, entry);
    hide Invariant, AllLevel, AnswersAreNew, ListedFirst, Committed, RaiseAll, AllAnswered, ApplyBatch;
    if InBatch(p.batch, entry) {
      var i := AnswerOf(p.batch, entry);
      BatchSettles(s, i);
      assert entry in BatchEntries(p.batch);
    }
  }

  /** Steps that leave log and taken revisions alone. */
  predicate Quiet(e: Event) { !e.OtherCommit? && !e.PushCommit? && !e.ItemApplied? && !e.BatchApplied? }

  ghost function PendingAfter(s: State, e: Event): map<Entry, Pending>
    requires Enabled(s, e) && Quiet(e)
  {
    match e
    case LocalEdit(entry, base) => s.pending[entry := Pending(s.nextId, base)]
    case LocalForget(entry) => s.pending - {entry}
    case RowWritten(row, left) => LeftPending(s.pending, row, left)
    case RowDropped(row) => s.pending - {row.entry}
    case PushBlock(entry) => s.pending[entry := s.push.value.listed[entry]]
    case _ => s.pending
  }

  lemma QuietStep(s: State, e: Event, windowSize: nat)
    requires Enabled(s, e) && Quiet(e)
    ensures var s' := Next(s, e, windowSize); s'.log == s.log && s'.taken == s.taken && s'.pending == PendingAfter(s, e)
  {
    hide PullAfter, Checkpointed, LeftPending, CursorAfter, Committed;
  }

  lemma QuietKeepsPending(s: State, e: Event)
    requires Invariant(s) && Clean(s) && Enabled(s, e) && Quiet(e) && !PutsBackOther(s, e)
    ensures AnswersAreNew(s.log, s.taken, PendingAfter(s, e))
    ensures forall entry | entry in PendingAfter(s, e) :: Follows(s, PendingAfter(s, e), entry)
  {
    QuietFollows(s, e);
    NewIdAnswersNew(s, if e.LocalEdit? then e.entry else "");
    forall entry | entry in PendingAfter(s, e) ensures AnswerIsNew(s.log, s.taken, entry, PendingAfter(s, e)[entry].id) {
      assert entry in s.pending ==> AnswerIsNew(s.log, s.taken, entry, s.pending[entry].id);
      assert Follows(s, PendingAfter(s, e), entry);
    }
    hide Invariant, AllLevel, BatchIsNew, ListedFirst, AnswerIsNew, Enabled, PendingAfter;
  }

  lemma NewIdAnswersNew(s: State, entry: Entry)
    requires Invariant(s)
    ensures !Committed(s.log, entry, s.nextId) && AnswerIsNew(s.log, s.taken, entry, s.nextId)
  {
    assert IdsInUse(s);
    NewIdIsUnsent(s.log, entry, s.nextId);
    hide Invariant;
  }

  lemma QuietFollows(s: State, e: Event)
    requires Invariant(s) && Enabled(s, e) && Quiet(e) && !PutsBackOther(s, e)
    ensures forall entry | entry in PendingAfter(s, e) :: Follows(s, PendingAfter(s, e), entry)
  {
    NewIdAnswersNew(s, if e.LocalEdit? then e.entry else "");
    hide Invariant, AnswerIsNew, Committed;
  }

  /** The mutation of an entry is as before, or new, or the one a push had listed. */
  ghost predicate Follows(s: State, pending: map<Entry, Pending>, entry: Entry)
    requires entry in pending
  {
    || SameOrUnsent(s, pending, entry)
    || (s.push.Some? && entry in s.push.value.listed && pending[entry].id == s.push.value.listed[entry].id)
  }

  ghost function PushAfter(s: State, e: Event): Option<Push>
    requires Enabled(s, e) && Quiet(e)
  {
    match e
    case PushStart => Some(Push(s.cursor, map[], [], {}))
    case PushList(entry) => Some(Listing(s.push.value, entry, s.pending[entry]))
    case PushDrop(entry) => Some(GivenUp(s.push.value, entry))
    case PushBlock(entry) => Some(GivenUp(s.push.value, entry))
    case PushReplay(entry, number) => Some(WithAnswer(s.push.value, ReplayOf(s.log, s.push.value, entry, number)))
    case PushFinish => None
    case PushFail => None
    case _ => s.push
  }

  lemma QuietPushStep(s: State, e: Event, windowSize: nat)
    requires Enabled(s, e) && Quiet(e)
    ensures Next(s, e, windowSize).push == PushAfter(s, e)
  {
    hide PullAfter, Checkpointed, LeftPending, CursorAfter, Committed, Listing, GivenUp, WithAnswer, ReplayOf;
  }

  /** Listed mutations come from the pending ones, and a replayed answer is that of a listed mutation. */
  lemma QuietKeepsPush(s: State, e: Event)
    requires Invariant(s) && Clean(s) && Enabled(s, e) && Quiet(e)
    ensures PushAfter(s, e).Some? ==>
      && AnswersAreNew(s.log, s.taken, PushAfter(s, e).value.listed) && BatchIsNew(s.taken, PushAfter(s, e).value.batch)
      && (forall entry | entry in PushAfter(s, e).value.listed :: ListedFrom(s, PushAfter(s, e).value.listed, entry))
  {
    assert e.PushReplay? ==> AnswerIsNew(s.log, s.taken, e.entry, s.push.value.listed[e.entry].id);
    hide Invariant, AllLevel, ListedFirst, AnswerIsNew, Committed;
  }

  ghost predicate ListedFrom(s: State, listed: map<Entry, Pending>, entry: Entry)
    requires entry in listed
  {
    || (s.push.Some? && entry in s.push.value.listed && listed[entry] == s.push.value.listed[entry])
    || (entry in s.pending && listed[entry] == s.pending[entry])
  }

  lemma QuietKeepsFirst(s: State, e: Event)
    requires Invariant(s) && Clean(s) && Enabled(s, e) && Quiet(e) && !PutsBackOther(s, e)
    ensures PushAfter(s, e).Some? ==> ListedFirst(s.log, PendingAfter(s, e), PushAfter(s, e).value.listed)
  {
    QuietKeepsPending(s, e);
    QuietKeepsPush(s, e);
    hide Invariant, AllLevel, AnswersAreNew, BatchIsNew, Committed;
  }

  lemma QuietKeepsClean(s: State, e: Event, windowSize: nat)
    requires Invariant(s) && Clean(s) && Enabled(s, e) && Quiet(e) && !Disturbs(s, e)
    requires AllLevel(Next(s, e, windowSize))
    ensures Clean(Next(s, e, windowSize))
  {
    hide Invariant, Enabled, Next, AllLevel, AnswersAreNew, BatchIsNew, ListedFirst;
    assert !PutsBackOther(s, e);
    QuietStep(s, e, windowSize);
    QuietPushStep(s, e, windowSize);
    QuietKeepsPending(s, e);
    QuietKeepsPush(s, e);
    QuietKeepsFirst(s, e);
  }

  /** No step but a disturbing one makes an answer old or sets an entry back; so the guard is an invariant of all other runs. */
  lemma StepKeepsClean(s: State, e: Event, windowSize: nat)
    requires Invariant(s) && Clean(s) && Enabled(s, e) && !Disturbs(s, e)
    ensures Clean(Next(s, e, windowSize))
  {
    hide Invariant, Clean, AllLevel, Disturbs, Enabled, Next;
    StepKeepsLevel(s, e, windowSize);
    match e
    case OtherCommit(_) => CommitKeepsClean(s, e, windowSize);
    case PushCommit(_) => CommitKeepsClean(s, e, windowSize);
    case ItemApplied(pull, item, handling) => ItemKeepsClean(s, pull, item, handling, windowSize);
    case BatchApplied => BatchAppliedKeepsClean(s, windowSize);
    case _ => QuietKeepsClean(s, e, windowSize);
  }

  // ---------------------------------------------------------------- safe runs

  ghost predicate NeverDisturbs(states: seq<State>, events: seq<Event>, n: nat)
    requires n <= |events| < |states|
  {
    forall k | 0 <= k < n :: !Disturbs(states[k], events[k])
  }

  lemma FreshClientIsClean(s: State)
    requires FreshClient(s)
    ensures Clean(s) && Solo(s) && AllAbove(s)
  {
  }

  lemma {:induction false} RunStaysClean(states: seq<State>, events: seq<Event>, windowSize: nat, n: nat)
    requires Run(states, events, windowSize) && n < |states| == |events| + 1
    requires Clean(states[0]) && NeverDisturbs(states, events, n)
    ensures Clean(states[n])
    ensures forall entry :: NeverLowers(states, events, n, entry)
  {
    hide Run, Invariant, Enabled, Next, Clean, Disturbs, Lowers;
    if n > 0 {
      RunStaysClean(states, events, windowSize, n - 1);
      RunStep(states, events, windowSize, n - 1);
      RunKeepsInvariant(states, events, windowSize, n - 1);
      StepKeepsClean(states[n - 1], events[n - 1], windowSize);
      forall entry ensures NeverLowers(states, events, n, entry) {
        assert NeverLowers(states, events, n - 1, entry);
        CleanNeverLowers(states[n - 1], events[n - 1], entry);
      }
    }
  }

  /** As long as nothing disturbs, no remote change is ever skipped and no stored revision falls, however tasks overlap
      and however many answers get lost and are replayed. */
  lemma UndisturbedRunsAreSafe(states: seq<State>, events: seq<Event>, windowSize: nat, n: nat, entry: Entry)
    requires Run(states, events, windowSize) && n < |states| == |events| + 1 && FreshClient(states[0])
    requires NeverDisturbs(states, events, n)
    ensures NeverFalls(states, n, entry) && PromiseKept(states, n, entry)
    ensures 0 < Latest(states[n].log, entry) <= states[n].cursor ==>
      Stored(states[n].stored, entry) == Revision(states[n].log, entry)
  {
    FreshClientIsClean(states[0]);
    RunStaysClean(states, events, windowSize, n);
    assert Level(states[0], entry) && NeverLowers(states, events, n, entry);
    hide Run, Clean, Disturbs, Lowers, Level, NeverDisturbs, FreshClient;
    NoRemoteChangeIsSkipped(states, events, windowSize, n, entry);
    assert forall k | 0 <= k <= n :: Promise(states[k], entry);
  }

  // ---------------------------------------------------------------- safe runs, one task at a time

  /** No item the planner let pass is below what is stored. */
  ghost predicate Above(taken: map<Entry, nat>, p: Pull) {
    && (p.job.Planning? ==> forall item | item in p.job.kept :: Stored(taken, item.entry) <= item.revision)
    && (p.job.Applying? ==> forall item | item in p.job.todo :: Stored(taken, item.entry) <= item.revision)
  }

  ghost predicate AllAbove(s: State) { forall pull | pull in s.pulls :: Above(s.taken, s.pulls[pull]) }

  /** With one task at a time nothing newer comes in between the look of the planner and the write. */
  lemma StepKeepsAbove(s: State, e: Event, windowSize: nat)
    requires Invariant(s) && Solo(s) && AllLevel(s) && AllAbove(s) && Enabled(s, e)
    ensures AllAbove(Next(s, e, windowSize))
  {
    hide Invariant, AllLevel, Next, Above, Raise, RaiseAll, Committed, InHand;
    var s' := Next(s, e, windowSize);
    PullsAfterStep(s, e, windowSize);
    TakenAfter(s, e, windowSize);
    forall pull | pull in s'.pulls ensures Above(s'.taken, s'.pulls[pull]) {
      if e.ItemApplied? {
        AppliedStaysAbove(s, e.pull, e.item);
      } else if ChangesOnePull(e) && pull == e.pull {
        ChangedStaysAbove(s, e, windowSize);
      } else if e.WindowDone? && pull == e.pull {
        assert Above(s.taken, Checkpointed(s.pulls[pull])) by {
          EndedIsAbove(s.taken, s.pulls[pull]);
        }
      }
    }
  }

  lemma EndedIsAbove(taken: map<Entry, nat>, p: Pull)
    requires p.job.Applying?
    ensures Above(taken, Checkpointed(p))
  {
  }

  lemma ChangedStaysAbove(s: State, e: Event, windowSize: nat)
    requires Enabled(s, e) && ChangesOnePull(e) && AllLevel(s) && AllAbove(s)
    ensures Above(s.taken, PullAfter(s, e, windowSize))
  {
    assert e.pull in s.pulls ==> Above(s.taken, s.pulls[e.pull]);
    assert e.ItemLooked? ==> Level(s, e.item.entry);
    hide NewItems;
  }

  lemma TakenAfter(s: State, e: Event, windowSize: nat)
    requires Enabled(s, e)
    ensures Next(s, e, windowSize).taken == match e
      case ItemApplied(_, item, _) => Raise(s.taken, item.entry, item.revision)
      case BatchApplied => RaiseAll(s.taken, s.push.value.batch)
      case _ => s.taken
  {
    hide PullAfter, Applied, Checkpointed, Raise, RaiseAll, LeftPending, CursorAfter, Committed, Append, HandlePending;
  }

  lemma AppliedStaysAbove(s: State, pull: nat, item: Item)
    requires Invariant(s) && pull in s.pulls && s.pulls[pull].job.Applying? && item in s.pulls[pull].job.todo
    requires Above(s.taken, s.pulls[pull])
    ensures Above(Raise(s.taken, item.entry, item.revision), Applied(s.pulls[pull], item))
  {
    hide Invariant;
    forall other | other in s.pulls[pull].job.todo && other != item ensures other.entry != item.entry {
      if other.entry == item.entry {
        EachEntryOnce(s, pull, item, other);
      }
    }
  }

  /** What must not happen while tasks come one after the other: only the skipped item is a matter of pulls and pushes,
      the other two are writes of stale rows. */
  predicate DisturbsSolo(s: State, e: Event) { SkipsOverPending(s, e) || StaleRow(s, e) || PutsBackOther(s, e) }

  lemma SoloIsUndisturbed(s: State, e: Event)
    requires Solo(s) && AllLevel(s) && AllAbove(s) && Enabled(s, e) && !DisturbsSolo(s, e)
    ensures !Disturbs(s, e)
  {
    if e.ItemApplied? {
      assert Above(s.taken, s.pulls[e.pull]) && Level(s, e.item.entry);
    }
  }

  ghost predicate NeverDisturbsSolo(states: seq<State>, events: seq<Event>, n: nat)
    requires n <= |events| < |states|
  {
    forall k | 0 <= k < n :: !DisturbsSolo(states[k], events[k])
  }

  lemma {:induction false} SoloRunIsUndisturbed(states: seq<State>, events: seq<Event>, windowSize: nat, n: nat)
    requires Run(states, events, windowSize) && n < |states| == |events| + 1 && FreshClient(states[0])
    requires NeverOverlaps(states, events, n) && NeverDisturbsSolo(states, events, n)
    ensures NeverDisturbs(states, events, n) && Clean(states[n]) && Solo(states[n]) && AllAbove(states[n])
  {
    hide Run, Invariant, Enabled, Next, Disturbs, DisturbsSolo, Solo, AllAbove, Overlaps, AnswersAreNew, PushIsClean;
    if n == 0 {
      FreshClientIsClean(states[0]);
    } else {
      SoloRunIsUndisturbed(states, events, windowSize, n - 1);
      RunStep(states, events, windowSize, n - 1);
      RunKeepsInvariant(states, events, windowSize, n - 1);
      SoloIsUndisturbed(states[n - 1], events[n - 1]);
      StepKeepsClean(states[n - 1], events[n - 1], windowSize);
      StepKeepsSolo(states[n - 1], events[n - 1], windowSize);
      StepKeepsAbove(states[n - 1], events[n - 1], windowSize);
    }
  }

  /** While tasks come one after the other, no skipped item has a pending mutation and no stale row is written: no remote
      change is ever skipped, and neither a stored revision nor the cursor falls, however many answers are replayed. */
  lemma RunsWithoutSkipsAreSafe(states: seq<State>, events: seq<Event>, windowSize: nat, n: nat, entry: Entry)
    requires Run(states, events, windowSize) && n < |states| == |events| + 1 && FreshClient(states[0])
    requires NeverOverlaps(states, events, n) && NeverDisturbsSolo(states, events, n)
    ensures NeverFalls(states, n, entry) && PromiseKept(states, n, entry)
    ensures forall k | 0 <= k <= n :: states[k].cursor <= states[n].cursor
    ensures 0 < Latest(states[n].log, entry) <= states[n].cursor ==>
      Stored(states[n].stored, entry) == Revision(states[n].log, entry)
  {
    SoloRunIsUndisturbed(states, events, windowSize, n);
    UndisturbedRunsAreSafe(states, events, windowSize, n, entry);
    FreshClientIsClean(states[0]);
    hide Run, Clean, Disturbs, FreshClient, Solo, AllAbove;
    forall k | 0 <= k <= n ensures states[k].cursor <= states[n].cursor {
      CursorNeverMovesBack(states, events, windowSize, k, n);
    }
  }
}

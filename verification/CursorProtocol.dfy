/**
 The cursor protocol: one client pulls and pushes against a server that other clients commit to.

 The server numbers commits 1, 2, 3, ... and gives each commit of an entry a higher revision than the
 one before. The client stores a cursor and, per entry, a revision and the local mutation that waits to be pushed.
 A mutation the server has committed already is answered again as it was the first time.

 The protocol is a transition system; every `await` of the source is a place where other steps may happen. Any number
 of pulls run beside one push, since restoring a version starts a pull of its own, and work on local changes runs beside
 all of them. Whoever has read a row may write it back, or drop it, at any later time.
 */
module CursorProtocol {
  import opened Common

  type Entry = string

  // ---------------------------------------------------------------- server

  /** `author` is the mutation of this client the commit was made for, None for commits of other clients. */
  datatype Commit = Commit(entry: Entry, revision: nat, author: Option<nat>)

  /** Commit number k is log[k - 1]. */
  type Log = seq<Commit>

  ghost predicate ValidLog(log: Log) {
    && (forall i | 0 <= i < |log| :: log[i].revision > 0)
    && (forall i, j | 0 <= i < j < |log| && log[i].entry == log[j].entry :: log[i].revision < log[j].revision)
  }

  /** The number of the latest commit of an entry, 0 when there is none. */
  function Latest(log: Log, entry: Entry): (k: nat)
    ensures k <= |log|
    ensures k > 0 ==> log[k - 1].entry == entry
    ensures forall j | k <= j < |log| :: log[j].entry != entry
  {
    if log == [] then 0
    else if log[|log| - 1].entry == entry then |log|
    else Latest(log[..|log| - 1], entry)
  }

  function Revision(log: Log, entry: Entry): nat {
    if Latest(log, entry) == 0 then 0 else log[Latest(log, entry) - 1].revision
  }

  /** A listed entry state: the state after commit number `number`. */
  datatype Item = Item(entry: Entry, revision: nat, number: nat)

  predicate Genuine(log: Log, item: Item) {
    0 < item.number <= |log| && log[item.number - 1].entry == item.entry && log[item.number - 1].revision == item.revision
  }

  datatype Page = Page(items: seq<Item>, hasMore: bool, target: nat)

  function NextAfter(page: Page, after: nat): nat {
    if page.items == [] then after else page.items[|page.items| - 1].number
  }

  /** One page of the listing of latest entry states in (since, target], from `after` on. */
  ghost predicate ValidPage(log: Log, since: nat, after: nat, page: Page) {
    && page.target <= |log|
    && (page.hasMore ==> page.items != [])
    && (forall i | 0 <= i < |page.items| ::
          && Genuine(log, page.items[i]) && page.items[i].number == Latest(log, page.items[i].entry)
          && since < page.items[i].number <= page.target && after < page.items[i].number)
    && (forall i, j | 0 <= i < j < |page.items| :: page.items[i].number < page.items[j].number)
    && Complete(log, since, after, page)
  }

  /** No latest state in the listed range is missing, up to the last listed one while more pages follow. */
  ghost predicate Complete(log: Log, since: nat, after: nat, page: Page) {
    forall entry: Entry {:trigger Latest(log, entry)} |
      && since < Latest(log, entry) <= page.target && after < Latest(log, entry)
      && (page.hasMore ==> Latest(log, entry) <= NextAfter(page, after)) ::
      Item(entry, Revision(log, entry), Latest(log, entry)) in page.items
  }

  // ---------------------------------------------------------------- client decisions

  function SmallestNumber(items: seq<Item>): (n: nat)
    requires items != []
    ensures exists i :: 0 <= i < |items| && items[i].number == n
    ensures forall i | 0 <= i < |items| :: n <= items[i].number
  {
    if |items| == 1 then items[0].number
    else Min(SmallestNumber(items[..|items| - 1]), items[|items| - 1].number)
  }

  function LargestNumber(items: seq<Item>, least: nat): (n: nat)
    ensures least <= n
    ensures n == least || exists i :: 0 <= i < |items| && items[i].number == n
    ensures forall i | 0 <= i < |items| :: items[i].number <= n
  {
    if items == [] then least else Max(LargestNumber(items[..|items| - 1], least), items[|items| - 1].number)
  }

  /** How far the cursor may move after a window: below the first deferred item, or to the target when
      the window was the last one, or to the last item of the window. */
  function SafeCheckpointCursor(current: nat, window: seq<Item>, deferred: seq<Item>, finalTarget: Option<nat>): nat {
    if deferred != [] then Max(current, SmallestNumber(deferred) - 1)
    else if finalTarget.Some? then Max(current, finalTarget.value)
    else LargestNumber(window, current)
  }

  /** The end of the run of accepted commit numbers that starts right after `current`. */
  function ContiguousCursor(current: nat, accepted: set<nat>): (cursor: nat)
    ensures current <= cursor && cursor + 1 !in accepted
    ensures forall k | current < k <= cursor :: k in accepted
    decreases |accepted|
  {
    if current + 1 in accepted then
      var rest := accepted - {current + 1};
      var cursor := ContiguousCursor(current + 1, rest);
      assert forall k | current < k <= cursor :: k in accepted by {
        forall k: nat | current < k <= cursor ensures k in accepted {
          if k != current + 1 { assert k in rest; }
        }
      }
      cursor
    else current
  }

  function Numbers(cursors: seq<nat>): set<nat> { set k | k in cursors }

  method GetContiguousAcceptedCursor(currentCursor: nat, acceptedCursors: seq<nat>) returns (cursor: nat)
    ensures currentCursor <= cursor && cursor + 1 !in acceptedCursors
    ensures forall k | currentCursor < k <= cursor :: k in acceptedCursors
    ensures cursor == ContiguousCursor(currentCursor, Numbers(acceptedCursors))
  {
    ghost var all := Numbers(acceptedCursors);
    if |acceptedCursors| == 0 {
      ContiguousIsUnique(currentCursor, currentCursor, all);
      return currentCursor;
    }
    var remaining := Numbers(acceptedCursors);
    cursor := currentCursor;
    while cursor + 1 in remaining
      invariant currentCursor <= cursor
      invariant forall k :: k in remaining <==> k in all && !(currentCursor < k <= cursor)
      invariant forall k | currentCursor < k <= cursor :: k in acceptedCursors
      decreases |remaining|
    {
      remaining := remaining - {cursor + 1};
      cursor := cursor + 1;
    }
    ContiguousIsUnique(currentCursor, cursor, all);
  }

  lemma ContiguousIsUnique(current: nat, cursor: nat, accepted: set<nat>)
    requires current <= cursor && cursor + 1 !in accepted
    requires forall k | current < k <= cursor :: k in accepted
    ensures cursor == ContiguousCursor(current, accepted)
  {
    var other := ContiguousCursor(current, accepted);
    assert other < cursor ==> other + 1 in accepted;
    assert cursor < other ==> cursor + 1 in accepted;
  }

  // ---------------------------------------------------------------- client state

  /** A local mutation of an entry: its id, unique for the entry, and the revision it was made on. */
  datatype Pending = Pending(id: nat, base: nat)

  /** An answer of the server to a mutation sent in this push, not yet written to the store. */
  datatype Accepted = Accepted(number: nat, entry: Entry, revision: nat, id: nat)

  /** A row as somebody has read it; the store may have changed since. */
  datatype Row = Row(entry: Entry, revision: nat, pending: Option<Pending>)

  /** The planner looks at the items of a window one after the other; `unseen` are not looked at yet, `kept` not refused. */
  datatype Job =
    | Collecting
    | Planning(unseen: set<Item>, kept: set<Item>)
    | Applying(todo: set<Item>, deferred: seq<Item>)
    | Closing(looked: Option<nat>)

  /** A pull asks for what came after `since`; `cursor` is its own idea of the stored cursor. */
  datatype Pull = Pull(since: nat, cursor: nat, target: Option<nat>, after: nat, hasMore: bool, page: Option<Page>,
    received: set<(Entry, nat)>, window: seq<Item>, job: Job)

  /** `listed` holds the mutations a push has read from the store and not finished with. */
  datatype Push = Push(start: nat, listed: map<Entry, Pending>, batch: seq<Accepted>, accepted: set<nat>)

  /** `taken` is the highest revision of each entry that was ever stored, `rows` is what has been read, `nextId` the next
      new mutation id. The client has only the stored part. */
  datatype State = State(log: Log, cursor: nat, stored: map<Entry, nat>, taken: map<Entry, nat>,
    pending: map<Entry, Pending>, nextId: nat, rows: set<Row>, pulls: map<nat, Pull>, push: Option<Push>)

  function Stored(stored: map<Entry, nat>, entry: Entry): nat {
    if entry in stored then stored[entry] else 0
  }

  /** What taking over a pulled state does to the pending mutation of its entry: a planned or superseded item drops it,
      a planned one may queue a text merge instead, and an item whose path is not applied here keeps it. */
  datatype Handling = Drops | Merges | Keeps

  /** What writing a row back does to the pending mutation: writing a whole entry clears it, writing the remote part
      keeps it, and undoing a failed group puts the one that was read back. */
  datatype Left = Cleared | Kept | PutBack

  datatype Event =
    | OtherCommit(entry: Entry)
    | LocalEdit(entry: Entry, base: nat)
    | LocalForget(entry: Entry)
    | RowRead(entry: Entry)
    | RowWritten(row: Row, left: Left)
    | RowDropped(row: Row)
    | PullStart(pull: nat)
    | PageArrives(pull: nat, fetched: Page)
    | PageConsumed(pull: nat)
    | ItemLooked(pull: nat, item: Item)
    | WindowPlanned(pull: nat, later: seq<Item>)
    | ItemApplied(pull: nat, item: Item, handling: Handling)
    | WindowDone(pull: nat)
    | PullLooked(pull: nat)
    | PullEnd(pull: nat)
    | PullFail(pull: nat)
    | PushStart
    | PushList(entry: Entry)
    | PushDrop(entry: Entry)
    | PushBlock(entry: Entry)
    | PushCommit(entry: Entry)
    | PushReplay(entry: Entry, number: nat)
    | BatchApplied
    | PushFinish
    | PushFail

  function Append(log: Log, entry: Entry, author: Option<nat>): Log {
    log + [Commit(entry, Revision(log, entry) + 1, author)]
  }

  /** The server has committed this mutation. */
  ghost predicate Committed(log: Log, entry: Entry, id: nat) {
    exists k :: 0 <= k < |log| && log[k].entry == entry && log[k].author == Some(id)
  }

  /** The items of a page whose entry and revision this pull has not seen yet. */
  function NewItems(items: seq<Item>, received: set<(Entry, nat)>): seq<Item> {
    if items == [] then []
    else
      var key := (items[0].entry, items[0].revision);
      var rest := NewItems(items[1..], received + {key});
      if key in received then rest else [items[0]] + rest
  }

  function Raise(taken: map<Entry, nat>, entry: Entry, revision: nat): map<Entry, nat> {
    if revision < Stored(taken, entry) then taken else taken[entry := revision]
  }

  function RaiseAll(taken: map<Entry, nat>, batch: seq<Accepted>): map<Entry, nat> {
    if batch == [] then taken
    else Raise(RaiseAll(taken, batch[..|batch| - 1]), batch[|batch| - 1].entry, batch[|batch| - 1].revision)
  }

  function ApplyBatch(stored: map<Entry, nat>, batch: seq<Accepted>): map<Entry, nat> {
    if batch == [] then stored
    else
      var last := batch[|batch| - 1];
      ApplyBatch(stored, batch[..|batch| - 1])[last.entry := last.revision]
  }

  /** The answered mutation is done; a newer one of the same entry is based on the answer. */
  function Answered(pending: map<Entry, Pending>, a: Accepted): map<Entry, Pending> {
    if a.entry !in pending then pending
    else if pending[a.entry].id == a.id then pending - {a.entry}
    else pending[a.entry := pending[a.entry].(base := a.revision)]
  }

  function AllAnswered(pending: map<Entry, Pending>, batch: seq<Accepted>): map<Entry, Pending> {
    if batch == [] then pending else Answered(AllAnswered(pending, batch[..|batch| - 1]), batch[|batch| - 1])
  }

  function BatchEntries(batch: seq<Accepted>): set<Entry> { set i | 0 <= i < |batch| :: batch[i].entry }

  function BatchNumbers(batch: seq<Accepted>): set<nat> { set i | 0 <= i < |batch| :: batch[i].number }

  ghost predicate InBatch(batch: seq<Accepted>, entry: Entry) {
    exists i :: 0 <= i < |batch| && batch[i].entry == entry
  }

  ghost predicate HasRead(rows: set<Row>, entry: Entry, revision: nat) {
    exists row :: row in rows && row.entry == entry && row.revision == revision
  }

  function RowOf(s: State, entry: Entry): Row {
    Row(entry, Stored(s.stored, entry), if entry in s.pending then Some(s.pending[entry]) else None)
  }

  predicate PullsIn(s: State, pull: nat, job: Job) { pull in s.pulls && s.pulls[pull].job == job }

  ghost predicate Enabled(s: State, e: Event) {
    match e
    case OtherCommit(_) => true
    case LocalEdit(entry, base) => base == Stored(s.stored, entry) || HasRead(s.rows, entry, base)
    case LocalForget(_) => true
    case RowRead(_) => true
    case RowWritten(row, _) => row in s.rows
    case RowDropped(row) => row in s.rows && row.revision == 0
    case PullStart(pull) => pull !in s.pulls
    case PageArrives(pull, page) => pull in s.pulls && MayArrive(s.log, s.pulls[pull], page)
    case PageConsumed(pull) => PullsIn(s, pull, Collecting) && s.pulls[pull].page.Some?
    case ItemLooked(pull, item) => pull in s.pulls && s.pulls[pull].job.Planning? && item in s.pulls[pull].job.unseen
    case WindowPlanned(pull, later) => pull in s.pulls && MayPlan(s.pulls[pull], later)
    case ItemApplied(pull, item, _) => pull in s.pulls && s.pulls[pull].job.Applying? && item in s.pulls[pull].job.todo
    case WindowDone(pull) => pull in s.pulls && s.pulls[pull].job.Applying? && s.pulls[pull].job.todo == {}
    case PullLooked(pull) => PullsIn(s, pull, Closing(None))
    case PullEnd(pull) => pull in s.pulls && s.pulls[pull].job.Closing? && s.pulls[pull].job.looked.Some?
    case PullFail(pull) => pull in s.pulls
    case PushStart => s.push.None?
    case PushList(entry) => s.push.Some? && entry in s.pending && entry !in s.push.value.listed
    case PushDrop(entry) => s.push.Some? && InHand(s.push.value, entry)
    case PushBlock(entry) => s.push.Some? && InHand(s.push.value, entry)
    case PushCommit(entry) =>
      && s.push.Some? && InHand(s.push.value, entry)
      && !Committed(s.log, entry, s.push.value.listed[entry].id) && s.push.value.listed[entry].base == Revision(s.log, entry)
    case PushReplay(entry, number) =>
      && s.push.Some? && InHand(s.push.value, entry) && 0 < number <= |s.log|
      && s.log[number - 1].entry == entry && s.log[number - 1].author == Some(s.push.value.listed[entry].id)
    case BatchApplied => s.push.Some?
    case PushFinish => s.push.Some? && s.push.value.batch == []
    case PushFail => s.push.Some?
  }

  ghost predicate MayArrive(log: Log, p: Pull, page: Page) {
    && p.hasMore && p.page.None? && ValidPage(log, p.since, p.after, page)
    && page.target == if p.target.Some? then p.target.value else |log|
  }

  /** The deferred items are among those not refused; the last window defers nothing. */
  predicate MayPlan(p: Pull, later: seq<Item>) {
    && p.job.Planning? && p.job.unseen == {}
    && (forall i | 0 <= i < |later| :: later[i] in p.job.kept)
    && (!p.hasMore ==> later == [])
  }

  /** Listed and not answered. */
  ghost predicate InHand(p: Push, entry: Entry) { entry in p.listed && !InBatch(p.batch, entry) }

  // ---------------------------------------------------------------- steps

  function Consumed(p: Pull, windowSize: nat): Pull
    requires p.page.Some?
  {
    var page := p.page.value;
    var window := p.window + NewItems(page.items, p.received);
    Pull(p.since, p.cursor, Some(page.target), NextAfter(page, p.after), page.hasMore, None,
      p.received + (set item | item in page.items :: (item.entry, item.revision)), window,
      if |window| >= windowSize || !page.hasMore then Planning(set item | item in window, {}) else Collecting)
  }

  /** An item below the stored revision is refused: reported and not applied. */
  function Looked(p: Pull, item: Item, revision: nat): Pull
    requires p.job.Planning?
  {
    p.(job := Planning(p.job.unseen - {item}, if item.revision < revision then p.job.kept else p.job.kept + {item}))
  }

  function Planned(p: Pull, later: seq<Item>): Pull
    requires p.job.Planning?
  {
    p.(job := Applying((set item | item in p.job.kept && item !in later), later))
  }

  function Applied(p: Pull, item: Item): Pull
    requires p.job.Applying?
  {
    p.(job := p.job.(todo := p.job.todo - {item}))
  }

  function CheckpointOf(p: Pull): nat
    requires p.job.Applying?
  {
    SafeCheckpointCursor(p.cursor, p.window, p.job.deferred, if p.hasMore then None else p.target)
  }

  function Checkpointed(p: Pull): Pull
    requires p.job.Applying?
  {
    p.(cursor := CheckpointOf(p), window := p.job.deferred, job := if p.hasMore then Collecting else Closing(None))
  }

  function TargetOf(p: Pull): nat { if p.target.Some? then p.target.value else p.cursor }

  function Listing(p: Push, entry: Entry, mutation: Pending): Push { p.(listed := p.listed[entry := mutation]) }

  function GivenUp(p: Push, entry: Entry): Push { p.(listed := p.listed - {entry}) }

  function Committing(log: Log, p: Push, entry: Entry): (r: (Log, Push))
    requires entry in p.listed
  {
    var log' := Append(log, entry, Some(p.listed[entry].id));
    (log', WithAnswer(p, Accepted(|log'|, entry, Revision(log, entry) + 1, p.listed[entry].id)))
  }

  function ReplayOf(log: Log, p: Push, entry: Entry, number: nat): Accepted
    requires entry in p.listed && 0 < number <= |log|
  {
    Accepted(number, entry, log[number - 1].revision, p.listed[entry].id)
  }

  function WithAnswer(p: Push, answer: Accepted): Push { p.(batch := p.batch + [answer]) }

  function Written(p: Push): Push {
    Push(p.start, p.listed - BatchEntries(p.batch), [], p.accepted + BatchNumbers(p.batch))
  }

  /** All answers of the batch are written in one transaction. */
  function BatchWritten(s: State): State
    requires s.push.Some?
  {
    var batch := s.push.value.batch;
    s.(stored := ApplyBatch(s.stored, batch), taken := RaiseAll(s.taken, batch), pending := AllAnswered(s.pending, batch),
       push := Some(Written(s.push.value)))
  }

  function HandlePending(s: State, item: Item, handling: Handling): (s': State)
    ensures s' == s.(pending := s'.pending, nextId := s'.nextId)
  {
    match handling
    case Keeps => s
    case Drops => s.(pending := s.pending - {item.entry})
    case Merges => s.(pending := s.pending[item.entry := Pending(s.nextId, item.revision)], nextId := s.nextId + 1)
  }

  function LeftPending(pending: map<Entry, Pending>, row: Row, left: Left): map<Entry, Pending> {
    match left
    case Cleared => pending - {row.entry}
    case Kept => pending
    case PutBack => if row.pending.Some? then pending[row.entry := row.pending.value] else pending - {row.entry}
  }

  /** What a step leaves in the store as the cursor. A window and a push compare with what they have read before. */
  function CursorAfter(s: State, e: Event): nat {
    match e
    case WindowDone(pull) =>
      if pull in s.pulls && s.pulls[pull].job.Applying? && CheckpointOf(s.pulls[pull]) > s.pulls[pull].cursor
      then CheckpointOf(s.pulls[pull]) else s.cursor
    case PullEnd(pull) =>
      if pull in s.pulls && s.pulls[pull].job.Closing? && s.pulls[pull].job.looked.Some?
         && TargetOf(s.pulls[pull]) > s.pulls[pull].job.looked.value
      then TargetOf(s.pulls[pull]) else s.cursor
    case PushFinish =>
      if s.push.Some? && ContiguousCursor(s.push.value.start, s.push.value.accepted) > s.push.value.start
      then ContiguousCursor(s.push.value.start, s.push.value.accepted) else s.cursor
    case _ => s.cursor
  }

  predicate ChangesOnePull(e: Event) {
    e.PullStart? || e.PageArrives? || e.PageConsumed? || e.ItemLooked? || e.WindowPlanned? || e.PullLooked?
  }

  ghost function PullAfter(s: State, e: Event, windowSize: nat): Pull
    requires Enabled(s, e) && ChangesOnePull(e)
  {
    match e
    case PullStart(_) => Pull(s.cursor, s.cursor, None, 0, true, None, {}, [], Collecting)
    case PageArrives(pull, page) => s.pulls[pull].(page := Some(page))
    case PageConsumed(pull) => Consumed(s.pulls[pull], windowSize)
    case ItemLooked(pull, item) => Looked(s.pulls[pull], item, Stored(s.stored, item.entry))
    case WindowPlanned(pull, later) => Planned(s.pulls[pull], later)
    case PullLooked(pull) => s.pulls[pull].(job := Closing(Some(s.cursor)))
  }

  ghost function Next(s: State, e: Event, windowSize: nat): State
    requires Enabled(s, e)
  {
    match e
    case OtherCommit(entry) => s.(log := Append(s.log, entry, None))
    case LocalEdit(entry, base) => s.(pending := s.pending[entry := Pending(s.nextId, base)], nextId := s.nextId + 1)
    case LocalForget(entry) => s.(pending := s.pending - {entry})
    case RowRead(entry) => s.(rows := s.rows + {RowOf(s, entry)})
    case RowWritten(row, left) =>
      s.(stored := s.stored[row.entry := row.revision], pending := LeftPending(s.pending, row, left))
    case RowDropped(row) => s.(stored := s.stored - {row.entry}, pending := s.pending - {row.entry})
    case PullStart(pull) => s.(pulls := s.pulls[pull := PullAfter(s, e, windowSize)])
    case PageArrives(pull, _) => s.(pulls := s.pulls[pull := PullAfter(s, e, windowSize)])
    case PageConsumed(pull) => s.(pulls := s.pulls[pull := PullAfter(s, e, windowSize)])
    case ItemLooked(pull, _) => s.(pulls := s.pulls[pull := PullAfter(s, e, windowSize)])
    case WindowPlanned(pull, _) => s.(pulls := s.pulls[pull := PullAfter(s, e, windowSize)])
    case ItemApplied(pull, item, handling) =>
      HandlePending(s.(stored := s.stored[item.entry := item.revision], taken := Raise(s.taken, item.entry, item.revision),
        pulls := s.pulls[pull := Applied(s.pulls[pull], item)]), item, handling)
    case WindowDone(pull) => s.(cursor := CursorAfter(s, e), pulls := s.pulls[pull := Checkpointed(s.pulls[pull])])
    case PullLooked(pull) => s.(pulls := s.pulls[pull := PullAfter(s, e, windowSize)])
    case PullEnd(pull) => s.(cursor := CursorAfter(s, e), pulls := s.pulls - {pull})
    case PullFail(pull) => s.(pulls := s.pulls - {pull})
    case PushStart => s.(push := Some(Push(s.cursor, map[], [], {})))
    case PushList(entry) => s.(push := Some(Listing(s.push.value, entry, s.pending[entry])))
    case PushDrop(entry) => s.(push := Some(GivenUp(s.push.value, entry)))
    case PushBlock(entry) =>
      s.(pending := s.pending[entry := s.push.value.listed[entry]], push := Some(GivenUp(s.push.value, entry)))
    case PushCommit(entry) =>
      var (log, push) := Committing(s.log, s.push.value, entry);
      s.(log := log, push := Some(push))
    case PushReplay(entry, number) =>
      s.(push := Some(WithAnswer(s.push.value, ReplayOf(s.log, s.push.value, entry, number))))
    case BatchApplied => BatchWritten(s)
    case PushFinish => s.(cursor := CursorAfter(s, e), push := None)
    case PushFail => s.(push := None)
  }

  // ---------------------------------------------------------------- what steps may spoil

  /** The step writes a revision below the stored one, or drops a row that has one; the client can tell beforehand. */
  ghost predicate Lowers(s: State, e: Event, entry: Entry) {
    match e
    case RowWritten(row, _) => row.entry == entry && row.revision < Stored(s.stored, entry)
    case RowDropped(row) => row.entry == entry && 0 < Stored(s.stored, entry)
    case ItemApplied(_, item, _) => item.entry == entry && item.revision < Stored(s.stored, entry)
    case BatchApplied => s.push.Some? && LowersInBatch(s.push.value.batch, entry, Stored(s.stored, entry))
    case _ => false
  }

  ghost predicate LowersInBatch(batch: seq<Accepted>, entry: Entry, revision: nat) {
    exists i :: 0 <= i < |batch| && batch[i].entry == entry && batch[i].revision < revision
  }

  /** It does so to an entry whose latest commit the cursor has passed, or moves the cursor past the latest commit
      of an entry that has been set back. */
  ghost predicate Breaks(s: State, e: Event, entry: Entry) {
    || (Lowers(s, e, entry) && Latest(s.log, entry) <= s.cursor)
    || (Stored(s.stored, entry) < Stored(s.taken, entry) && s.cursor < Latest(s.log, entry) <= CursorAfter(s, e))
  }

  /** The step writes a cursor below the stored one. */
  predicate Rewinds(s: State, e: Event) { CursorAfter(s, e) < s.cursor }

  // ---------------------------------------------------------------- the invariant

  /** The promise for one entry: once the cursor has passed its latest commit, that commit is stored. */
  ghost predicate Promise(s: State, entry: Entry) {
    0 < Latest(s.log, entry) <= s.cursor ==> Stored(s.stored, entry) >= Revision(s.log, entry)
  }

  /** Every latest commit up to `cursor` has been taken over. */
  ghost predicate Reached(log: Log, taken: map<Entry, nat>, cursor: nat) {
    && cursor <= |log|
    && forall entry: Entry {:trigger Latest(log, entry)} ::
         0 < Latest(log, entry) <= cursor ==> Stored(taken, entry) >= Revision(log, entry)
  }

  ghost predicate TakenIsGenuine(log: Log, taken: map<Entry, nat>) {
    forall entry: Entry {:trigger Stored(taken, entry)} :: Stored(taken, entry) <= Revision(log, entry)
  }

  ghost predicate Within(stored: map<Entry, nat>, taken: map<Entry, nat>) {
    forall entry: Entry {:trigger Stored(stored, entry)} :: Stored(stored, entry) <= Stored(taken, entry)
  }

  ghost predicate RowsWithin(rows: set<Row>, taken: map<Entry, nat>, nextId: nat) {
    forall row | row in rows ::
      row.revision <= Stored(taken, row.entry) && (row.pending.Some? ==> row.pending.value.id < nextId)
  }

  /** Every latest state in (since, upTo] has been taken over or is still held by this pull. */
  ghost predicate Gathered(log: Log, taken: map<Entry, nat>, since: nat, upTo: nat, held: set<Item>) {
    forall entry: Entry {:trigger Latest(log, entry)} ::
      since < Latest(log, entry) <= upTo ==>
        Stored(taken, entry) >= Revision(log, entry)
        || Item(entry, Revision(log, entry), Latest(log, entry)) in held
  }

  function Held(p: Pull): set<Item> {
    match p.job
    case Collecting => set item | item in p.window
    case Planning(unseen, kept) => unseen + kept
    case Applying(todo, deferred) => todo + (set item | item in deferred)
    case Closing(_) => {}
  }

  /** Up to which commit number the pull has received everything. */
  function Horizon(p: Pull): nat { if p.hasMore || p.target.None? then p.after else p.target.value }

  /** No commit of the entry follows this state up to the target. */
  ghost predicate LastUpTo(log: Log, item: Item, target: nat) {
    target <= |log| && forall k | item.number <= k < target :: log[k].entry != item.entry
  }

  ghost predicate PullItem(log: Log, p: Pull, item: Item) {
    && Genuine(log, item) && p.target.Some? && item.number <= p.after <= p.target.value
    && LastUpTo(log, item, p.target.value)
  }

  ghost predicate PullShape(log: Log, p: Pull) {
    && (p.target.Some? ==> p.after <= p.target.value <= |log|)
    && (p.target.None? ==> p.after == 0 && p.hasMore && p.job == Collecting)
    && (forall i | 0 <= i < |p.window| :: PullItem(log, p, p.window[i]))
    && (forall item | item in Held(p) :: item in p.window)
    && (!p.hasMore ==> p.job != Collecting)
    && (p.job.Applying? && !p.hasMore ==> p.job.deferred == [])
    && (p.job.Closing? ==> !p.hasMore && p.target.Some? && p.target.value <= p.cursor)
  }

  /** What stays true of a fetched page while the log grows. */
  ghost predicate ListedPage(log: Log, since: nat, after: nat, page: Page) {
    && page.target <= |log|
    && (forall i | 0 <= i < |page.items| ::
          && Genuine(log, page.items[i]) && after < page.items[i].number <= page.target
          && LastUpTo(log, page.items[i], page.target))
    && (forall i, j | 0 <= i < j < |page.items| :: page.items[i].number < page.items[j].number)
    && Complete(log, since, after, page)
  }

  ghost predicate PageFits(log: Log, p: Pull) {
    p.page.Some? ==>
      && p.hasMore
      && ListedPage(log, p.since, p.after, p.page.value)
      && (p.target.Some? ==> p.page.value.target == p.target.value)
  }

  ghost predicate Numbered(log: Log, key: (Entry, nat), upTo: nat) {
    exists k: nat :: k <= upTo && Genuine(log, Item(key.0, key.1, k))
  }

  ghost predicate AllNumbered(log: Log, received: set<(Entry, nat)>, upTo: nat) {
    forall key | key in received :: Numbered(log, key, upTo)
  }

  ghost predicate PullInvariant(log: Log, taken: map<Entry, nat>, p: Pull) {
    && p.since <= p.cursor && Reached(log, taken, p.cursor)
    && PullShape(log, p) && PageFits(log, p) && AllNumbered(log, p.received, p.after)
    && Gathered(log, taken, p.since, Horizon(p), Held(p))
  }

  ghost predicate AllPulls(log: Log, taken: map<Entry, nat>, pulls: map<nat, Pull>) {
    forall pull | pull in pulls :: PullInvariant(log, taken, pulls[pull])
  }

  /** An answer is for the listed mutation of its entry and names its commit. */
  ghost predicate AnswerFits(log: Log, listed: map<Entry, Pending>, a: Accepted) {
    && Genuine(log, Item(a.entry, a.revision, a.number))
    && a.entry in listed && listed[a.entry].id == a.id && log[a.number - 1].author == Some(a.id)
  }

  ghost predicate AnswersFit(log: Log, listed: map<Entry, Pending>, batch: seq<Accepted>) {
    && (forall i | 0 <= i < |batch| :: AnswerFits(log, listed, batch[i]))
    && (forall i, j | 0 <= i < j < |batch| :: batch[i].entry != batch[j].entry)
  }

  ghost predicate AllAccepted(log: Log, taken: map<Entry, nat>, accepted: set<nat>) {
    forall k | k in accepted :: 0 < k <= |log| && Stored(taken, log[k - 1].entry) >= log[k - 1].revision
  }

  ghost predicate IdsBelow(pending: map<Entry, Pending>, nextId: nat) {
    forall entry | entry in pending :: pending[entry].id < nextId
  }

  ghost predicate PushInvariant(log: Log, taken: map<Entry, nat>, nextId: nat, p: Push) {
    && Reached(log, taken, p.start)
    && AnswersFit(log, p.listed, p.batch) && IdsBelow(p.listed, nextId) && AllAccepted(log, taken, p.accepted)
  }

  ghost predicate AuthorsBelow(log: Log, nextId: nat) {
    forall k | 0 <= k < |log| && log[k].author.Some? :: log[k].author.value < nextId
  }

  /** New ids are new. */
  ghost predicate IdsInUse(s: State) { AuthorsBelow(s.log, s.nextId) && IdsBelow(s.pending, s.nextId) }

  ghost predicate Invariant(s: State) {
    && ValidLog(s.log) && IdsInUse(s)
    && Reached(s.log, s.taken, s.cursor) && TakenIsGenuine(s.log, s.taken)
    && Within(s.stored, s.taken) && RowsWithin(s.rows, s.taken, s.nextId)
    && AllPulls(s.log, s.taken, s.pulls)
    && (s.push.Some? ==> PushInvariant(s.log, s.taken, s.nextId, s.push.value))
  }

  // ---------------------------------------------------------------- the log grows

  lemma LatestIsMember(log: Log, k: nat)
    requires ValidLog(log) && 0 < k <= |log|
    ensures k <= Latest(log, log[k - 1].entry)
    ensures log[k - 1].revision <= Revision(log, log[k - 1].entry)
  {
  }

  lemma LatestAfterAppend(log: Log, entry: Entry, author: Option<nat>, other: Entry)
    requires ValidLog(log)
    ensures other == entry ==> Latest(Append(log, entry, author), other) == |log| + 1
    ensures other == entry ==> Revision(Append(log, entry, author), other) == Revision(log, other) + 1
    ensures other != entry ==> Latest(Append(log, entry, author), other) == Latest(log, other)
    ensures other != entry ==> Revision(Append(log, entry, author), other) == Revision(log, other)
  {
    var log' := Append(log, entry, author);
    assert log'[..|log|] == log;
  }

  lemma AppendKeepsLog(log: Log, entry: Entry, author: Option<nat>)
    requires ValidLog(log)
    ensures ValidLog(Append(log, entry, author))
  {
    forall i | 0 <= i < |log| && log[i].entry == entry ensures log[i].revision <= Revision(log, entry) {
      LatestIsMember(log, i + 1);
    }
  }

  lemma AppendKeepsReached(log: Log, entry: Entry, author: Option<nat>, taken: map<Entry, nat>, cursor: nat)
    requires ValidLog(log) && Reached(log, taken, cursor)
    ensures Reached(Append(log, entry, author), taken, cursor)
  {
    var log' := Append(log, entry, author);
    forall other: Entry | 0 < Latest(log', other) <= cursor ensures Stored(taken, other) >= Revision(log', other) {
      LatestAfterAppend(log, entry, author, other);
    }
  }

  lemma AppendKeepsTaken(log: Log, entry: Entry, author: Option<nat>, taken: map<Entry, nat>)
    requires ValidLog(log) && TakenIsGenuine(log, taken)
    ensures TakenIsGenuine(Append(log, entry, author), taken)
  {
    forall other: Entry ensures Stored(taken, other) <= Revision(Append(log, entry, author), other) {
      LatestAfterAppend(log, entry, author, other);
      assert Stored(taken, other) <= Revision(log, other);
    }
  }

  lemma AppendKeepsGathered(log: Log, entry: Entry, author: Option<nat>, taken: map<Entry, nat>, since: nat, upTo: nat,
      held: set<Item>)
    requires ValidLog(log) && upTo <= |log| && Gathered(log, taken, since, upTo, held)
    ensures Gathered(Append(log, entry, author), taken, since, upTo, held)
  {
    var log' := Append(log, entry, author);
    forall other: Entry | since < Latest(log', other) <= upTo
      ensures Stored(taken, other) >= Revision(log', other)
        || Item(other, Revision(log', other), Latest(log', other)) in held
    {
      LatestAfterAppend(log, entry, author, other);
    }
  }

  lemma AppendKeepsNumbered(log: Log, entry: Entry, author: Option<nat>, received: set<(Entry, nat)>, after: nat)
    requires AllNumbered(log, received, after)
    ensures AllNumbered(Append(log, entry, author), received, after)
  {
    forall key | key in received ensures Numbered(Append(log, entry, author), key, after) {
      assert Numbered(log, key, after);
      var k: nat :| k <= after && Genuine(log, Item(key.0, key.1, k));
      assert Genuine(Append(log, entry, author), Item(key.0, key.1, k));
    }
  }

  lemma AppendKeepsPage(log: Log, entry: Entry, author: Option<nat>, since: nat, after: nat, page: Page)
    requires ValidLog(log) && ListedPage(log, since, after, page)
    ensures ListedPage(Append(log, entry, author), since, after, page)
  {
    var log' := Append(log, entry, author);
    forall other: Entry |
        since < Latest(log', other) <= page.target && after < Latest(log', other)
        && (page.hasMore ==> Latest(log', other) <= NextAfter(page, after))
      ensures Item(other, Revision(log', other), Latest(log', other)) in page.items
    {
      LatestAfterAppend(log, entry, author, other);
    }
  }

  lemma AppendKeepsPull(log: Log, entry: Entry, author: Option<nat>, taken: map<Entry, nat>, p: Pull)
    requires ValidLog(log) && PullInvariant(log, taken, p)
    ensures PullInvariant(Append(log, entry, author), taken, p)
  {
    AppendKeepsReached(log, entry, author, taken, p.cursor);
    AppendKeepsGathered(log, entry, author, taken, p.since, Horizon(p), Held(p));
    AppendKeepsNumbered(log, entry, author, p.received, p.after);
    if p.page.Some? {
      AppendKeepsPage(log, entry, author, p.since, p.after, p.page.value);
    }
    hide Reached, Gathered, AllNumbered, ListedPage, Held;
    forall i | 0 <= i < |p.window| ensures PullItem(Append(log, entry, author), p, p.window[i]) {
      assert PullItem(log, p, p.window[i]);
    }
  }

  lemma AppendKeepsPush(log: Log, entry: Entry, author: Option<nat>, taken: map<Entry, nat>, nextId: nat, p: Push)
    requires ValidLog(log) && PushInvariant(log, taken, nextId, p)
    ensures PushInvariant(Append(log, entry, author), taken, nextId, p)
  {
    AppendKeepsReached(log, entry, author, taken, p.start);
    hide Reached;
    forall i | 0 <= i < |p.batch| ensures AnswerFits(Append(log, entry, author), p.listed, p.batch[i]) {
      assert AnswerFits(log, p.listed, p.batch[i]);
    }
  }

  /** Nothing at or below the old end of the log changes when a commit is added. */
  lemma LogGrows(s: State, entry: Entry, author: Option<nat>)
    requires Invariant(s) && (author.Some? ==> author.value < s.nextId)
    ensures Invariant(s.(log := Append(s.log, entry, author)))
  {
    AppendKeepsLog(s.log, entry, author);
    AppendKeepsReached(s.log, entry, author, s.taken, s.cursor);
    AppendKeepsTaken(s.log, entry, author, s.taken);
    forall pull | pull in s.pulls ensures PullInvariant(Append(s.log, entry, author), s.taken, s.pulls[pull]) {
      AppendKeepsPull(s.log, entry, author, s.taken, s.pulls[pull]);
    }
    if s.push.Some? {
      AppendKeepsPush(s.log, entry, author, s.taken, s.nextId, s.push.value);
    }
    hide Reached, TakenIsGenuine, ValidLog, PullInvariant, PushInvariant;
  }

  // ---------------------------------------------------------------- what was taken over grows

  /** Taken revisions that only grow, and stay revisions of the log, keep what they covered. */
  ghost predicate Grows(log: Log, taken: map<Entry, nat>, taken': map<Entry, nat>) {
    forall entry: Entry {:trigger Stored(taken', entry)} {:trigger Stored(taken, entry)} ::
      Stored(taken, entry) <= Stored(taken', entry) <= Revision(log, entry)
  }

  lemma GrowsKeepsReached(log: Log, taken: map<Entry, nat>, taken': map<Entry, nat>, cursor: nat)
    requires Grows(log, taken, taken') && Reached(log, taken, cursor)
    ensures Reached(log, taken', cursor)
  {
  }

  lemma GrowsKeepsGathered(log: Log, taken: map<Entry, nat>, taken': map<Entry, nat>, since: nat, upTo: nat,
      held: set<Item>)
    requires Grows(log, taken, taken') && Gathered(log, taken, since, upTo, held)
    ensures Gathered(log, taken', since, upTo, held)
  {
  }

  lemma GrowsKeepsPull(log: Log, taken: map<Entry, nat>, taken': map<Entry, nat>, p: Pull)
    requires Grows(log, taken, taken') && PullInvariant(log, taken, p)
    ensures PullInvariant(log, taken', p)
  {
    GrowsKeepsReached(log, taken, taken', p.cursor);
    GrowsKeepsGathered(log, taken, taken', p.since, Horizon(p), Held(p));
    hide Reached, Gathered, AllNumbered, PageFits, PullShape;
  }

  lemma GrowsKeepsPush(log: Log, taken: map<Entry, nat>, taken': map<Entry, nat>, nextId: nat, p: Push)
    requires Grows(log, taken, taken') && PushInvariant(log, taken, nextId, p)
    ensures PushInvariant(log, taken', nextId, p)
  {
    GrowsKeepsReached(log, taken, taken', p.start);
    forall k | k in p.accepted ensures 0 < k <= |log| && Stored(taken', log[k - 1].entry) >= log[k - 1].revision {
      assert Stored(taken, log[k - 1].entry) <= Stored(taken', log[k - 1].entry);
    }
    hide Reached, AnswersFit;
  }

  lemma TakenGrows(s: State, taken': map<Entry, nat>)
    requires Invariant(s) && Grows(s.log, s.taken, taken')
    ensures Invariant(s.(taken := taken'))
  {
    GrowsKeepsReached(s.log, s.taken, taken', s.cursor);
    forall pull | pull in s.pulls ensures PullInvariant(s.log, taken', s.pulls[pull]) {
      GrowsKeepsPull(s.log, s.taken, taken', s.pulls[pull]);
    }
    if s.push.Some? {
      GrowsKeepsPush(s.log, s.taken, taken', s.nextId, s.push.value);
    }
    forall row | row in s.rows ensures row.revision <= Stored(taken', row.entry) {
      assert Stored(s.taken, row.entry) <= Stored(taken', row.entry);
    }
    forall entry: Entry ensures Stored(s.stored, entry) <= Stored(taken', entry) <= Revision(s.log, entry) {
      assert Stored(s.taken, entry) <= Stored(taken', entry);
    }
    hide Reached, ValidLog, PullInvariant, PushInvariant, Grows, AuthorsBelow, IdsBelow;
  }

  lemma RaiseGrows(log: Log, taken: map<Entry, nat>, entry: Entry, revision: nat)
    requires TakenIsGenuine(log, taken) && revision <= Revision(log, entry)
    ensures Grows(log, taken, Raise(taken, entry, revision))
    ensures Stored(Raise(taken, entry, revision), entry) == Max(Stored(taken, entry), revision)
  {
  }

  /** After a batch every answered revision has been taken over. */
  lemma {:induction false} RaiseAllGrows(log: Log, taken: map<Entry, nat>, batch: seq<Accepted>)
    requires TakenIsGenuine(log, taken)
    requires forall i | 0 <= i < |batch| :: batch[i].revision <= Revision(log, batch[i].entry)
    ensures Grows(log, taken, RaiseAll(taken, batch))
    ensures forall i | 0 <= i < |batch| :: batch[i].revision <= Stored(RaiseAll(taken, batch), batch[i].entry)
  {
    if batch == [] {
      assert forall entry: Entry :: Stored(taken, entry) <= Revision(log, entry);
    } else {
      var init, last := batch[..|batch| - 1], batch[|batch| - 1];
      RaiseAllGrows(log, taken, init);
      var taken' := RaiseAll(taken, init);
      assert TakenIsGenuine(log, taken');
      RaiseGrows(log, taken', last.entry, last.revision);
      forall i | 0 <= i < |batch| ensures batch[i].revision <= Stored(RaiseAll(taken, batch), batch[i].entry) {
        if i < |init| {
          assert init[i] == batch[i];
          assert Stored(taken', batch[i].entry) <= Stored(RaiseAll(taken, batch), batch[i].entry);
        }
      }
    }
  }

  lemma {:induction false} BatchStaysWithin(stored: map<Entry, nat>, taken: map<Entry, nat>, batch: seq<Accepted>)
    requires Within(stored, taken)
    ensures Within(ApplyBatch(stored, batch), RaiseAll(taken, batch))
  {
    if batch != [] {
      var init := batch[..|batch| - 1];
      BatchStaysWithin(stored, taken, init);
      forall entry: Entry ensures Stored(ApplyBatch(stored, batch), entry) <= Stored(RaiseAll(taken, batch), entry) {
        assert Stored(ApplyBatch(stored, init), entry) <= Stored(RaiseAll(taken, init), entry);
      }
    }
  }

  // ---------------------------------------------------------------- one part changes

  lemma SetPull(s: State, pull: nat, p: Pull)
    requires Invariant(s) && PullInvariant(s.log, s.taken, p)
    ensures Invariant(s.(pulls := s.pulls[pull := p]))
  {
    hide PullInvariant, PushInvariant, Reached, TakenIsGenuine, Within, RowsWithin, ValidLog, AuthorsBelow, IdsBelow;
  }

  lemma EndPull(s: State, pull: nat)
    requires Invariant(s)
    ensures Invariant(s.(pulls := s.pulls - {pull}))
  {
    hide PullInvariant, PushInvariant, Reached, TakenIsGenuine, Within, RowsWithin, ValidLog, AuthorsBelow, IdsBelow;
  }

  lemma SetPush(s: State, push: Option<Push>)
    requires Invariant(s) && (push.Some? ==> PushInvariant(s.log, s.taken, s.nextId, push.value))
    ensures Invariant(s.(push := push))
  {
    hide PullInvariant, PushInvariant, Reached, TakenIsGenuine, Within, RowsWithin, ValidLog;
    hide AuthorsBelow, IdsBelow, AllPulls;
  }

  lemma SetCursor(s: State, cursor: nat)
    requires Invariant(s) && Reached(s.log, s.taken, cursor)
    ensures Invariant(s.(cursor := cursor))
  {
    hide PullInvariant, PushInvariant, Reached, TakenIsGenuine, Within, RowsWithin, ValidLog;
    hide AuthorsBelow, IdsBelow, AllPulls;
  }

  lemma SetStore(s: State, stored: map<Entry, nat>, pending: map<Entry, Pending>, nextId: nat)
    requires Invariant(s) && Within(stored, s.taken) && s.nextId <= nextId && IdsBelow(pending, nextId)
    ensures Invariant(s.(stored := stored, pending := pending, nextId := nextId))
  {
    hide PullInvariant, Reached, TakenIsGenuine, Within, ValidLog, AllPulls, AnswersFit, AllAccepted;
  }

  lemma AddRow(s: State, row: Row)
    requires Invariant(s) && row.revision <= Stored(s.taken, row.entry)
    requires row.pending.Some? ==> row.pending.value.id < s.nextId
    ensures Invariant(s.(rows := s.rows + {row}))
  {
    hide PullInvariant, PushInvariant, Reached, TakenIsGenuine, Within, ValidLog, AuthorsBelow, IdsBelow, AllPulls;
  }

  // ---------------------------------------------------------------- pull steps

  lemma LaterItemIsNew(log: Log, item: Item, after: nat)
    requires ValidLog(log) && Genuine(log, item) && after < item.number
    ensures !Numbered(log, (item.entry, item.revision), after)
  {
    forall k: nat | k <= after ensures !Genuine(log, Item(item.entry, item.revision, k)) {
      if 0 < k <= |log| {
        assert log[k - 1].entry == log[item.number - 1].entry ==> log[k - 1].revision < log[item.number - 1].revision;
      }
    }
  }

  /** The received-set never drops an item: a page starts after everything received so far. */
  lemma NothingIsDropped(log: Log, items: seq<Item>, received: set<(Entry, nat)>, after: nat)
    requires ValidLog(log)
    requires forall i | 0 <= i < |items| :: Genuine(log, items[i]) && after < items[i].number
    requires forall i, j | 0 <= i < j < |items| :: items[i].number < items[j].number
    requires forall key | key in received :: Numbered(log, key, after)
    ensures NewItems(items, received) == items
  {
    if items != [] {
      var key := (items[0].entry, items[0].revision);
      LaterItemIsNew(log, items[0], after);
      assert key !in received;
      assert Genuine(log, items[0]);
      forall other | other in received + {key} ensures Numbered(log, other, items[0].number) {
        if other != key {
          assert Numbered(log, other, after);
          var k: nat :| k <= after && Genuine(log, Item(other.0, other.1, k));
        }
      }
      NothingIsDropped(log, items[1..], received + {key}, items[0].number);
    }
  }

  lemma ReceivedStaysNumbered(log: Log, items: seq<Item>, received: set<(Entry, nat)>, after: nat, after': nat)
    requires after <= after' && AllNumbered(log, received, after)
    requires forall i | 0 <= i < |items| :: Genuine(log, items[i]) && items[i].number <= after'
    ensures AllNumbered(log, received + (set item | item in items :: (item.entry, item.revision)), after')
  {
    forall key | key in received + (set item | item in items :: (item.entry, item.revision))
      ensures Numbered(log, key, after')
    {
      if key in received {
        assert Numbered(log, key, after);
        var k: nat :| k <= after && Genuine(log, Item(key.0, key.1, k));
        assert k <= after';
      } else {
        var item :| item in items && key == (item.entry, item.revision);
        assert Genuine(log, Item(key.0, key.1, item.number));
      }
    }
  }

  /** A page gathers everything up to its last item, or up to the target when it is the last page. */
  lemma PageGathers(log: Log, taken: map<Entry, nat>, since: nat, after: nat, page: Page, window: seq<Item>)
    requires Gathered(log, taken, since, after, set item | item in window)
    requires Complete(log, since, after, page) && NextAfter(page, after) <= page.target
    ensures Gathered(log, taken, since, if page.hasMore then NextAfter(page, after) else page.target,
              set item | item in window + page.items)
  {
    var held := set item | item in window + page.items;
    forall entry: Entry | since < Latest(log, entry) <= if page.hasMore then NextAfter(page, after) else page.target
      ensures Stored(taken, entry) >= Revision(log, entry)
        || Item(entry, Revision(log, entry), Latest(log, entry)) in held
    {
      var item := Item(entry, Revision(log, entry), Latest(log, entry));
      if Latest(log, entry) > after {
        assert item in page.items;
      }
    }
  }

  lemma PageIsListed(log: Log, since: nat, after: nat, page: Page)
    requires ValidPage(log, since, after, page)
    ensures ListedPage(log, since, after, page)
  {
    hide Complete;
    forall i | 0 <= i < |page.items| ensures LastUpTo(log, page.items[i], page.target) {
      assert page.items[i].number == Latest(log, page.items[i].entry);
    }
  }

  lemma ConsumedFits(log: Log, taken: map<Entry, nat>, p: Pull, windowSize: nat)
    requires ValidLog(log) && PullInvariant(log, taken, p) && p.job == Collecting && p.page.Some?
    ensures PullInvariant(log, taken, Consumed(p, windowSize))
  {
    hide Gathered, Reached, Complete, Numbered, ValidLog, NewItems;
    var page, p' := p.page.value, Consumed(p, windowSize);
    assert p.hasMore && ListedPage(log, p.since, p.after, page);
    NothingIsDropped(log, page.items, p.received, p.after);
    assert p'.window == p.window + page.items;
    assert forall i | 0 <= i < |page.items| :: page.items[i].number <= p'.after;
    ReceivedStaysNumbered(log, page.items, p.received, p.after, p'.after);
    assert Horizon(p) == p.after && Held(p) == set item | item in p.window;
    PageGathers(log, taken, p.since, p.after, page, p.window);
    assert Held(p') == set item | item in p'.window;
    forall i | 0 <= i < |p'.window| ensures PullItem(log, p', p'.window[i]) {
      if i < |p.window| {
        assert p'.window[i] == p.window[i] && PullItem(log, p, p.window[i]);
      } else {
        assert p'.window[i] == page.items[i - |p.window|];
      }
    }
  }

  /** A refused item is not the latest state of its entry, so nothing is lost by it. */
  lemma LookedFits(log: Log, taken: map<Entry, nat>, p: Pull, item: Item, revision: nat)
    requires ValidLog(log) && TakenIsGenuine(log, taken) && PullInvariant(log, taken, p)
    requires p.job.Planning? && item in p.job.unseen && revision <= Stored(taken, item.entry)
    ensures PullInvariant(log, taken, Looked(p, item, revision))
  {
    var p' := Looked(p, item, revision);
    assert Stored(taken, item.entry) <= Revision(log, item.entry);
    forall entry: Entry | p.since < Latest(log, entry) <= Horizon(p)
      ensures Stored(taken, entry) >= Revision(log, entry)
        || Item(entry, Revision(log, entry), Latest(log, entry)) in Held(p')
    {
      assert Item(entry, Revision(log, entry), Latest(log, entry)) == item ==> item.revision >= revision;
    }
    hide Reached, PageFits, AllNumbered, Numbered;
    assert forall other | other in Held(p') :: other in Held(p);
    assert forall i | 0 <= i < |p.window| :: PullItem(log, p, p.window[i]) == PullItem(log, p', p.window[i]);
  }

  lemma PlannedFits(log: Log, taken: map<Entry, nat>, p: Pull, later: seq<Item>)
    requires PullInvariant(log, taken, p) && MayPlan(p, later)
    ensures PullInvariant(log, taken, Planned(p, later))
  {
    var p' := Planned(p, later);
    assert Held(p') == Held(p);
    hide Reached, Gathered, PageFits, AllNumbered;
    assert forall i | 0 <= i < |p.window| :: PullItem(log, p, p.window[i]) == PullItem(log, p', p.window[i]);
  }

  lemma AppliedFits(log: Log, taken: map<Entry, nat>, p: Pull, item: Item)
    requires PullInvariant(log, taken, p) && p.job.Applying? && item.revision <= Stored(taken, item.entry)
    ensures PullInvariant(log, taken, Applied(p, item))
  {
    var p' := Applied(p, item);
    forall entry: Entry | p.since < Latest(log, entry) <= Horizon(p)
      ensures Stored(taken, entry) >= Revision(log, entry)
        || Item(entry, Revision(log, entry), Latest(log, entry)) in Held(p')
    {
    }
    hide Reached, Gathered, PageFits, AllNumbered;
    assert forall i | 0 <= i < |p.window| :: PullItem(log, p, p.window[i]) == PullItem(log, p', p.window[i]);
  }

  /** The checkpoint after a window passes only what has been taken over. */
  lemma CheckpointIsReached(log: Log, taken: map<Entry, nat>, p: Pull)
    requires PullInvariant(log, taken, p) && p.job.Applying? && p.job.todo == {}
    ensures p.cursor <= CheckpointOf(p) && Reached(log, taken, CheckpointOf(p))
    ensures !p.hasMore ==> p.target.Some? && p.target.value <= CheckpointOf(p)
  {
    var deferred, cursor := p.job.deferred, CheckpointOf(p);
    hide PageFits, AllNumbered;
    if deferred != [] {
      var i :| 0 <= i < |deferred| && deferred[i].number == SmallestNumber(deferred);
      assert deferred[i] in Held(p);
    }
    forall entry: Entry | 0 < Latest(log, entry) <= cursor ensures Stored(taken, entry) >= Revision(log, entry) {
      if Latest(log, entry) > p.cursor {
        assert Latest(log, entry) <= Horizon(p);
        var item := Item(entry, Revision(log, entry), Latest(log, entry));
        assert item in Held(p) ==> item in deferred;
      }
    }
  }

  lemma CheckpointedFits(log: Log, taken: map<Entry, nat>, p: Pull)
    requires PullInvariant(log, taken, p) && p.job.Applying? && p.job.todo == {}
    ensures PullInvariant(log, taken, Checkpointed(p))
  {
    CheckpointIsReached(log, taken, p);
    var p' := Checkpointed(p);
    assert Held(p') == Held(p);
    hide Reached, Gathered, AllNumbered, ListedPage;
    forall i | 0 <= i < |p'.window| ensures PullItem(log, p', p'.window[i]) {
      assert p'.window[i] in Held(p);
    }
  }

  lemma LastIsLast(log: Log, item: Item, other: Item, target: nat)
    requires Genuine(log, item) && Genuine(log, other) && item.entry == other.entry
    requires LastUpTo(log, item, target) && other.number <= target
    ensures other.number <= item.number
  {
  }

  lemma HeldIsPulled(s: State, pull: nat, item: Item)
    requires Invariant(s) && pull in s.pulls && item in Held(s.pulls[pull])
    ensures PullItem(s.log, s.pulls[pull], item)
  {
    hide Reached, Gathered, PageFits, AllNumbered, TakenIsGenuine, Within, RowsWithin, PullItem;
    assert PullInvariant(s.log, s.taken, s.pulls[pull]);
    var i :| 0 <= i < |s.pulls[pull].window| && s.pulls[pull].window[i] == item;
    assert PullItem(s.log, s.pulls[pull], s.pulls[pull].window[i]);
  }

  /** A pull never holds two states of one entry: a state that comes later is beyond its target. */
  lemma EachEntryOnce(s: State, pull: nat, item: Item, other: Item)
    requires Invariant(s) && pull in s.pulls && item in Held(s.pulls[pull]) && other in Held(s.pulls[pull])
    requires item.entry == other.entry
    ensures item == other
  {
    HeldIsPulled(s, pull, item);
    HeldIsPulled(s, pull, other);
    hide Invariant, Held;
    LastIsLast(s.log, item, other, s.pulls[pull].target.value);
    LastIsLast(s.log, other, item, s.pulls[pull].target.value);
  }

  lemma ChangedPullFits(s: State, e: Event, windowSize: nat)
    requires Invariant(s) && Enabled(s, e) && ChangesOnePull(e)
    ensures PullInvariant(s.log, s.taken, PullAfter(s, e, windowSize))
  {
    assert e.pull in s.pulls ==> PullInvariant(s.log, s.taken, s.pulls[e.pull]);
    assert e.ItemLooked? ==> Stored(s.stored, e.item.entry) <= Stored(s.taken, e.item.entry);
    hide Invariant;
    match e {
      case PullStart(_) => StartedFits(s);
      case PageArrives(pull, page) =>
        PageIsListed(s.log, s.pulls[pull].since, s.pulls[pull].after, page);
        ArrivedFits(s.log, s.taken, s.pulls[pull], page);
      case PageConsumed(pull) => ConsumedFits(s.log, s.taken, s.pulls[pull], windowSize);
      case ItemLooked(pull, item) => LookedFits(s.log, s.taken, s.pulls[pull], item, Stored(s.stored, item.entry));
      case WindowPlanned(pull, later) => PlannedFits(s.log, s.taken, s.pulls[pull], later);
      case PullLooked(pull) => ClosingFits(s.log, s.taken, s.pulls[pull], s.cursor);
    }
  }

  lemma PullStepKeepsInvariant(s: State, e: Event, windowSize: nat)
    requires Invariant(s) && Enabled(s, e) && ChangesOnePull(e)
    ensures Invariant(Next(s, e, windowSize))
  {
    ChangedPullFits(s, e, windowSize);
    hide Invariant, PullInvariant, PullAfter;
    SetPull(s, e.pull, PullAfter(s, e, windowSize));
  }

  lemma StartedFits(s: State)
    requires Invariant(s)
    ensures PullInvariant(s.log, s.taken, Pull(s.cursor, s.cursor, None, 0, true, None, {}, [], Collecting))
  {
    hide Reached, AllPulls, PushInvariant;
  }

  lemma ClosingFits(log: Log, taken: map<Entry, nat>, p: Pull, looked: nat)
    requires PullInvariant(log, taken, p) && p.job == Closing(None)
    ensures PullInvariant(log, taken, p.(job := Closing(Some(looked))))
  {
    hide Reached, Gathered, AllNumbered, ListedPage;
    var p' := p.(job := Closing(Some(looked)));
    assert Held(p') == Held(p);
    assert forall i | 0 <= i < |p.window| :: PullItem(log, p, p.window[i]) == PullItem(log, p', p.window[i]);
  }

  lemma ArrivedFits(log: Log, taken: map<Entry, nat>, p: Pull, page: Page)
    requires PullInvariant(log, taken, p) && p.hasMore && ListedPage(log, p.since, p.after, page)
    requires p.target.Some? ==> page.target == p.target.value
    ensures PullInvariant(log, taken, p.(page := Some(page)))
  {
    hide Reached, Gathered, AllNumbered, ListedPage;
    var p' := p.(page := Some(page));
    assert forall i | 0 <= i < |p.window| :: PullItem(log, p, p.window[i]) == PullItem(log, p', p.window[i]);
  }

  lemma ItemAppliedKeepsInvariant(s: State, pull: nat, item: Item, handling: Handling, windowSize: nat)
    requires Invariant(s) && Enabled(s, ItemApplied(pull, item, handling))
    ensures Invariant(Next(s, ItemApplied(pull, item, handling), windowSize))
  {
    ItemIsGenuine(s, pull, item);
    RaiseGrows(s.log, s.taken, item.entry, item.revision);
    var s1 := s.(taken := Raise(s.taken, item.entry, item.revision));
    TakenGrows(s, s1.taken);
    AppliedFits(s.log, s1.taken, s.pulls[pull], item);
    var s2 := s1.(pulls := s.pulls[pull := Applied(s.pulls[pull], item)]);
    SetPull(s1, pull, Applied(s.pulls[pull], item));
    var s3 := Next(s, ItemApplied(pull, item, handling), windowSize);
    TakenItemStaysWithin(s.stored, s.taken, item.entry, item.revision);
    assert IdsBelow(s3.pending, s3.nextId);
    SetStore(s2, s3.stored, s3.pending, s3.nextId);
    hide Invariant;
  }

  lemma TakenItemStaysWithin(stored: map<Entry, nat>, taken: map<Entry, nat>, entry: Entry, revision: nat)
    requires Within(stored, taken)
    ensures Within(stored[entry := revision], Raise(taken, entry, revision))
  {
    forall other: Entry ensures Stored(stored[entry := revision], other) <= Stored(Raise(taken, entry, revision), other) {
      assert Stored(stored, other) <= Stored(taken, other);
    }
  }

  lemma ItemIsGenuine(s: State, pull: nat, item: Item)
    requires Invariant(s) && pull in s.pulls && item in Held(s.pulls[pull])
    ensures Genuine(s.log, item) && item.revision <= Revision(s.log, item.entry)
  {
    HeldIsPulled(s, pull, item);
    LatestIsMember(s.log, item.number);
  }

  /** The checkpoint of a window passes nothing that has not been taken over. */
  lemma WindowDoneKeepsInvariant(s: State, pull: nat, windowSize: nat)
    requires Invariant(s) && Enabled(s, WindowDone(pull))
    ensures Invariant(Next(s, WindowDone(pull), windowSize))
    ensures Reached(s.log, s.taken, CheckpointOf(s.pulls[pull]))
  {
    var p := s.pulls[pull];
    assert PullInvariant(s.log, s.taken, p);
    CheckpointIsReached(s.log, s.taken, p);
    CheckpointedFits(s.log, s.taken, p);
    var cursor := CursorAfter(s, WindowDone(pull));
    assert Reached(s.log, s.taken, cursor);
    SetCursor(s, cursor);
    SetPull(s.(cursor := cursor), pull, Checkpointed(p));
    hide Invariant;
  }

  /** The checkpoint of a window is as far as it may go: up to just before the first deferred item; without deferred items
      up to the last item of the window, and after the last window up to the target. It never falls, and it is stored
      whenever it moves. */
  lemma CheckpointIsLargest(s: State, pull: nat, windowSize: nat)
    requires Invariant(s) && Enabled(s, WindowDone(pull))
    ensures var p, s' := s.pulls[pull], Next(s, WindowDone(pull), windowSize);
      var cursor, deferred := s'.pulls[pull].cursor, p.job.deferred;
      && p.cursor <= cursor && s'.cursor == (if cursor > p.cursor then cursor else s.cursor)
      && (deferred != [] ==>
            && (exists i :: 0 <= i < |deferred| && deferred[i].number <= cursor + 1)
            && (cursor > p.cursor ==> forall i | 0 <= i < |deferred| :: cursor < deferred[i].number))
      && (deferred == [] && p.hasMore ==>
            && (forall i | 0 <= i < |p.window| :: p.window[i].number <= cursor)
            && (cursor > p.cursor ==> exists i :: 0 <= i < |p.window| && p.window[i].number == cursor))
      && (!p.hasMore ==> p.target.Some? && cursor == Max(p.cursor, p.target.value))
  {
    var p := s.pulls[pull];
    assert PullInvariant(s.log, s.taken, p);
    hide Invariant, PullInvariant, Reached, Gathered, AllNumbered, PageFits;
    if !p.hasMore {
      ShapeOfLastWindow(s, pull);
    }
    if p.job.deferred != [] {
      var i :| 0 <= i < |p.job.deferred| && p.job.deferred[i].number == SmallestNumber(p.job.deferred);
      assert p.job.deferred[i].number <= CheckpointOf(p) + 1;
    }
  }

  lemma ShapeOfLastWindow(s: State, pull: nat)
    requires Invariant(s) && Enabled(s, WindowDone(pull)) && !s.pulls[pull].hasMore
    ensures s.pulls[pull].job.deferred == [] && s.pulls[pull].target.Some?
  {
    assert PullInvariant(s.log, s.taken, s.pulls[pull]);
    hide Reached, Gathered, AllNumbered, PageFits;
  }

  /** A push that ends moves the cursor over every commit of its own that directly follows the cursor it started from,
      and no further; it leaves the cursor alone when there is none. */
  lemma PushCheckpointIsLargest(s: State, windowSize: nat)
    requires Enabled(s, PushFinish)
    ensures var p, cursor := s.push.value, Next(s, PushFinish, windowSize).cursor;
      if p.start + 1 in p.accepted then
        p.start < cursor && cursor + 1 !in p.accepted && forall k | p.start < k <= cursor :: k in p.accepted
      else cursor == s.cursor
  {
    var cursor := ContiguousCursor(s.push.value.start, s.push.value.accepted);
    assert cursor > s.push.value.start ==> s.push.value.start + 1 in s.push.value.accepted;
    hide ContiguousCursor;
  }

  lemma ReachedBelow(log: Log, taken: map<Entry, nat>, cursor: nat, lower: nat)
    requires Reached(log, taken, cursor) && lower <= cursor
    ensures Reached(log, taken, lower)
  {
  }

  lemma PullEndKeepsInvariant(s: State, pull: nat, windowSize: nat)
    requires Invariant(s) && Enabled(s, PullEnd(pull))
    ensures Invariant(Next(s, PullEnd(pull), windowSize))
    ensures s.pulls[pull].target.Some? && Reached(s.log, s.taken, s.pulls[pull].target.value)
  {
    var p := s.pulls[pull];
    assert PullInvariant(s.log, s.taken, p);
    ReachedBelow(s.log, s.taken, p.cursor, p.target.value);
    var cursor := CursorAfter(s, PullEnd(pull));
    SetCursor(s, cursor);
    EndPull(s.(cursor := cursor), pull);
    hide Invariant;
  }

  /** A pull that ends normally has taken over everything up to its target, and leaves the cursor there or beyond, unless
      another task sets the cursor back between its last look at it and its end. */
  lemma FinishedPullReachesTarget(s: State, pull: nat, windowSize: nat)
    requires Invariant(s) && Enabled(s, PullEnd(pull))
    ensures s.pulls[pull].target.Some? && Reached(s.log, s.taken, s.pulls[pull].target.value)
    ensures s.cursor >= s.pulls[pull].job.looked.value
      ==> Next(s, PullEnd(pull), windowSize).cursor >= s.pulls[pull].target.value
  {
    PullEndKeepsInvariant(s, pull, windowSize);
  }

  // ---------------------------------------------------------------- push steps

  lemma AnswerOf(batch: seq<Accepted>, entry: Entry) returns (i: nat)
    requires InBatch(batch, entry)
    ensures i < |batch| && batch[i].entry == entry
  {
    i :| 0 <= i < |batch| && batch[i].entry == entry;
  }

  /** A batch names each entry once, so every entry ends at its answer or stays as it was. */
  lemma {:induction false} ApplyBatchSets(stored: map<Entry, nat>, batch: seq<Accepted>, entry: Entry)
    requires forall i, j | 0 <= i < j < |batch| :: batch[i].entry != batch[j].entry
    ensures !InBatch(batch, entry) ==> Stored(ApplyBatch(stored, batch), entry) == Stored(stored, entry)
    ensures forall i | 0 <= i < |batch| && batch[i].entry == entry ::
      Stored(ApplyBatch(stored, batch), entry) == batch[i].revision
  {
    if batch != [] {
      var init, last := batch[..|batch| - 1], batch[|batch| - 1];
      ApplyBatchSets(stored, init, entry);
      if InBatch(init, entry) {
        var i :| 0 <= i < |init| && init[i].entry == entry;
        assert batch[i].entry == entry;
      }
      if last.entry == entry {
        assert batch[|batch| - 1].entry == entry;
      }
    }
  }

  lemma {:induction false} RaiseAllSets(taken: map<Entry, nat>, batch: seq<Accepted>, entry: Entry)
    requires forall i, j | 0 <= i < j < |batch| :: batch[i].entry != batch[j].entry
    ensures !InBatch(batch, entry) ==> Stored(RaiseAll(taken, batch), entry) == Stored(taken, entry)
    ensures forall i | 0 <= i < |batch| && batch[i].entry == entry ::
      Stored(RaiseAll(taken, batch), entry) == Max(Stored(taken, entry), batch[i].revision)
  {
    if batch != [] {
      var init, last := batch[..|batch| - 1], batch[|batch| - 1];
      RaiseAllSets(taken, init, entry);
      if InBatch(init, entry) {
        var i :| 0 <= i < |init| && init[i].entry == entry;
        assert batch[i].entry == entry;
      }
      if last.entry == entry {
        assert batch[|batch| - 1].entry == entry;
      }
    }
  }

  /** The mutation answered for is done; a newer one keeps its id. */
  lemma {:induction false} AllAnsweredSets(pending: map<Entry, Pending>, batch: seq<Accepted>, entry: Entry)
    requires forall i, j | 0 <= i < j < |batch| :: batch[i].entry != batch[j].entry
    ensures var after := AllAnswered(pending, batch);
      && (entry in after ==> entry in pending && after[entry].id == pending[entry].id)
      && (entry in pending && !InBatch(batch, entry) ==> entry in after && after[entry] == pending[entry])
      && (forall i | 0 <= i < |batch| && batch[i].entry == entry ::
            entry in after <==> entry in pending && pending[entry].id != batch[i].id)
  {
    if batch != [] {
      var init, last := batch[..|batch| - 1], batch[|batch| - 1];
      AllAnsweredSets(pending, init, entry);
      if InBatch(init, entry) {
        var i :| 0 <= i < |init| && init[i].entry == entry;
        assert batch[i].entry == entry;
      }
      if last.entry == entry {
        assert batch[|batch| - 1].entry == entry;
      }
    }
  }

  lemma AnswersAreGenuine(log: Log, p: Push)
    requires ValidLog(log) && AnswersFit(log, p.listed, p.batch)
    ensures forall i | 0 <= i < |p.batch| :: p.batch[i].revision <= Revision(log, p.batch[i].entry)
  {
    forall i | 0 <= i < |p.batch| ensures p.batch[i].revision <= Revision(log, p.batch[i].entry) {
      assert AnswerFits(log, p.listed, p.batch[i]);
      LatestIsMember(log, p.batch[i].number);
    }
  }

  lemma WrittenFits(log: Log, taken: map<Entry, nat>, nextId: nat, p: Push)
    requires PushInvariant(log, taken, nextId, p)
    requires forall i | 0 <= i < |p.batch| :: p.batch[i].revision <= Stored(taken, p.batch[i].entry)
    ensures PushInvariant(log, taken, nextId, Written(p))
  {
    hide Reached;
    forall k | k in Written(p).accepted ensures 0 < k <= |log| && Stored(taken, log[k - 1].entry) >= log[k - 1].revision {
      if k !in p.accepted {
        var i :| 0 <= i < |p.batch| && p.batch[i].number == k;
        assert AnswerFits(log, p.listed, p.batch[i]);
      }
    }
  }

  lemma BatchIsTaken(s: State)
    requires Invariant(s) && s.push.Some?
    ensures var taken := RaiseAll(s.taken, s.push.value.batch);
      && Invariant(s.(taken := taken)) && PushInvariant(s.log, taken, s.nextId, Written(s.push.value))
      && Within(ApplyBatch(s.stored, s.push.value.batch), taken)
      && IdsBelow(AllAnswered(s.pending, s.push.value.batch), s.nextId)
  {
    var p, taken := s.push.value, RaiseAll(s.taken, s.push.value.batch);
    AnswersAreGenuine(s.log, p);
    RaiseAllGrows(s.log, s.taken, p.batch);
    TakenGrows(s, taken);
    assert Invariant(s.(taken := taken));
    hide TakenIsGenuine, Within, RowsWithin, ValidLog, AllPulls, AuthorsBelow, IdsBelow, Grows, PushInvariant;
    WrittenFits(s.log, taken, s.nextId, p);
    BatchStaysWithin(s.stored, s.taken, p.batch);
    AnsweredIdsBelow(s.pending, p.batch, s.nextId);
  }

  lemma BatchWrittenKeepsInvariant(s: State)
    requires Invariant(s) && s.push.Some?
    ensures Invariant(BatchWritten(s))
  {
    var batch, p := s.push.value.batch, Written(s.push.value);
    hide Invariant, PushInvariant, Within, IdsBelow, Written, RaiseAll, AllAnswered, ApplyBatch;
    BatchIsTaken(s);
    SetStoreAndPush(s.(taken := RaiseAll(s.taken, batch)), ApplyBatch(s.stored, batch), AllAnswered(s.pending, batch), p);
  }

  lemma SetStoreAndPush(s: State, stored: map<Entry, nat>, pending: map<Entry, Pending>, p: Push)
    requires Invariant(s) && Within(stored, s.taken) && IdsBelow(pending, s.nextId)
    requires PushInvariant(s.log, s.taken, s.nextId, p)
    ensures Invariant(s.(stored := stored, pending := pending, push := Some(p)))
  {
    SetStore(s, stored, pending, s.nextId);
    hide PushInvariant, Reached, TakenIsGenuine, Within, RowsWithin, ValidLog, AuthorsBelow, IdsBelow, AllPulls;
  }

  lemma {:induction false} AnsweredIdsBelow(pending: map<Entry, Pending>, batch: seq<Accepted>, nextId: nat)
    requires IdsBelow(pending, nextId)
    ensures IdsBelow(AllAnswered(pending, batch), nextId)
  {
    if batch != [] {
      AnsweredIdsBelow(pending, batch[..|batch| - 1], nextId);
    }
  }

  /** Reading a mutation for the push, and giving it up: skipped, requeued, rejected, or blocked and written back. */
  lemma ListingKeepsInvariant(s: State, e: Event, windowSize: nat)
    requires Invariant(s) && Enabled(s, e) && (e.PushList? || e.PushDrop? || e.PushBlock?)
    ensures Invariant(Next(s, e, windowSize))
  {
    var s' := Next(s, e, windowSize);
    ListedFits(s, e, windowSize);
    SetPush(s, s'.push);
    SetStore(s.(push := s'.push), s.stored, s'.pending, s.nextId);
    hide Invariant;
  }

  lemma ListedFits(s: State, e: Event, windowSize: nat)
    requires Invariant(s) && Enabled(s, e) && (e.PushList? || e.PushDrop? || e.PushBlock?)
    ensures Next(s, e, windowSize).push.Some?
    ensures PushInvariant(s.log, s.taken, s.nextId, Next(s, e, windowSize).push.value)
    ensures IdsBelow(Next(s, e, windowSize).pending, s.nextId)
  {
    hide Reached, TakenIsGenuine, ValidLog, AllPulls, AllAccepted, RowsWithin;
    var p, p' := s.push.value, Next(s, e, windowSize).push.value;
    forall i | 0 <= i < |p.batch| ensures AnswerFits(s.log, p'.listed, p.batch[i]) {
      assert AnswerFits(s.log, p.listed, p.batch[i]) && InBatch(p.batch, p.batch[i].entry);
    }
  }

  lemma NewAnswerFits(log: Log, taken: map<Entry, nat>, nextId: nat, p: Push, answer: Accepted)
    requires PushInvariant(log, taken, nextId, p) && !InBatch(p.batch, answer.entry)
    requires AnswerFits(log, p.listed, answer)
    ensures PushInvariant(log, taken, nextId, WithAnswer(p, answer))
  {
    hide Reached;
    var batch := p.batch + [answer];
    forall i | 0 <= i < |batch| ensures AnswerFits(log, p.listed, batch[i]) {
      if i < |p.batch| {
        assert AnswerFits(log, p.listed, p.batch[i]);
      }
    }
    forall i, j | 0 <= i < j < |batch| ensures batch[i].entry != batch[j].entry {
      if j == |p.batch| {
        assert p.batch[i].entry != answer.entry;
      }
    }
  }

  lemma PushCommitKeepsInvariant(s: State, entry: Entry, windowSize: nat)
    requires Invariant(s) && Enabled(s, PushCommit(entry))
    ensures Invariant(Next(s, PushCommit(entry), windowSize))
  {
    var p := s.push.value;
    LogGrows(s, entry, Some(p.listed[entry].id));
    var s1 := s.(log := Append(s.log, entry, Some(p.listed[entry].id)));
    var answer := Accepted(|s1.log|, entry, Revision(s.log, entry) + 1, p.listed[entry].id);
    assert AnswerFits(s1.log, p.listed, answer);
    NewAnswerFits(s1.log, s.taken, s.nextId, p, answer);
    SetPush(s1, Some(WithAnswer(p, answer)));
    hide Invariant;
  }

  lemma ReplayFits(s: State, entry: Entry, number: nat)
    requires Invariant(s) && Enabled(s, PushReplay(entry, number))
    ensures PushInvariant(s.log, s.taken, s.nextId, WithAnswer(s.push.value, ReplayOf(s.log, s.push.value, entry, number)))
  {
    hide Reached, TakenIsGenuine, ValidLog, AllPulls, AllAccepted, RowsWithin, AuthorsBelow, IdsBelow;
    assert AnswerFits(s.log, s.push.value.listed, ReplayOf(s.log, s.push.value, entry, number));
    NewAnswerFits(s.log, s.taken, s.nextId, s.push.value, ReplayOf(s.log, s.push.value, entry, number));
  }

  lemma PushReplayKeepsInvariant(s: State, entry: Entry, number: nat, windowSize: nat)
    requires Invariant(s) && Enabled(s, PushReplay(entry, number))
    ensures Invariant(Next(s, PushReplay(entry, number), windowSize))
  {
    hide Invariant, PushInvariant;
    ReplayFits(s, entry, number);
    SetPush(s, Some(WithAnswer(s.push.value, ReplayOf(s.log, s.push.value, entry, number))));
  }

  /** The end of the run of accepted numbers is reached: each of them has been taken over. */
  lemma AcceptedIsReached(log: Log, taken: map<Entry, nat>, nextId: nat, p: Push)
    requires PushInvariant(log, taken, nextId, p)
    ensures Reached(log, taken, ContiguousCursor(p.start, p.accepted))
  {
    hide AnswersFit;
    var cursor := ContiguousCursor(p.start, p.accepted);
    assert cursor > p.start ==> cursor in p.accepted;
    forall entry: Entry | 0 < Latest(log, entry) <= cursor ensures Stored(taken, entry) >= Revision(log, entry) {
      if Latest(log, entry) > p.start {
        assert Latest(log, entry) in p.accepted;
      }
    }
  }

  /** The push checkpoint passes only own accepted commits. */
  lemma PushFinishKeepsInvariant(s: State, windowSize: nat)
    requires Invariant(s) && Enabled(s, PushFinish)
    ensures Invariant(Next(s, PushFinish, windowSize))
    ensures Reached(s.log, s.taken, ContiguousCursor(s.push.value.start, s.push.value.accepted))
  {
    AcceptedIsReached(s.log, s.taken, s.nextId, s.push.value);
    var cursor := CursorAfter(s, PushFinish);
    SetCursor(s, cursor);
    SetPush(s.(cursor := cursor), None);
    hide Invariant;
  }

  lemma PushStartKeepsInvariant(s: State, windowSize: nat)
    requires Invariant(s) && Enabled(s, PushStart)
    ensures Invariant(Next(s, PushStart, windowSize))
  {
    SetPush(s, Some(Push(s.cursor, map[], [], {})));
  }

  // ---------------------------------------------------------------- every step

  /** Editing, forgetting an edit, reading a row, writing it back at any later time, or dropping it. */
  lemma LocalStepKeepsInvariant(s: State, e: Event, windowSize: nat)
    requires Invariant(s) && Enabled(s, e)
    requires e.LocalEdit? || e.LocalForget? || e.RowRead? || e.RowWritten? || e.RowDropped?
    ensures Invariant(Next(s, e, windowSize))
  {
    var s' := Next(s, e, windowSize);
    if e.RowRead? {
      assert Stored(s.stored, e.entry) <= Stored(s.taken, e.entry);
      AddRow(s, RowOf(s, e.entry));
    } else {
      WritingStaysWithin(s, e, windowSize);
      SetStore(s, s'.stored, s'.pending, s'.nextId);
    }
    hide Invariant;
  }

  lemma WritingStaysWithin(s: State, e: Event, windowSize: nat)
    requires Invariant(s) && Enabled(s, e)
    requires e.LocalEdit? || e.LocalForget? || e.RowWritten? || e.RowDropped?
    ensures Within(Next(s, e, windowSize).stored, s.taken)
    ensures IdsBelow(Next(s, e, windowSize).pending, Next(s, e, windowSize).nextId)
  {
    hide Reached, TakenIsGenuine, ValidLog, AllPulls, PushInvariant;
    var s' := Next(s, e, windowSize);
    forall entry: Entry ensures Stored(s'.stored, entry) <= Stored(s.taken, entry) {
      assert Stored(s.stored, entry) <= Stored(s.taken, entry);
    }
  }

  /** Every step keeps the invariant, whatever rows are written back late and however tasks overlap. */
  lemma StepKeepsInvariant(s: State, e: Event, windowSize: nat)
    requires Invariant(s) && Enabled(s, e)
    ensures Invariant(Next(s, e, windowSize))
  {
    hide Invariant;
    match e
    case OtherCommit(entry) => LogGrows(s, entry, None);
    case LocalEdit(_, _) => LocalStepKeepsInvariant(s, e, windowSize);
    case LocalForget(_) => LocalStepKeepsInvariant(s, e, windowSize);
    case RowRead(_) => LocalStepKeepsInvariant(s, e, windowSize);
    case RowWritten(_, _) => LocalStepKeepsInvariant(s, e, windowSize);
    case RowDropped(_) => LocalStepKeepsInvariant(s, e, windowSize);
    case PullStart(_) => PullStepKeepsInvariant(s, e, windowSize);
    case PageArrives(_, _) => PullStepKeepsInvariant(s, e, windowSize);
    case PageConsumed(_) => PullStepKeepsInvariant(s, e, windowSize);
    case ItemLooked(_, _) => PullStepKeepsInvariant(s, e, windowSize);
    case WindowPlanned(_, _) => PullStepKeepsInvariant(s, e, windowSize);
    case ItemApplied(pull, item, handling) => ItemAppliedKeepsInvariant(s, pull, item, handling, windowSize);
    case WindowDone(pull) => WindowDoneKeepsInvariant(s, pull, windowSize);
    case PullLooked(_) => PullStepKeepsInvariant(s, e, windowSize);
    case PullEnd(pull) => PullEndKeepsInvariant(s, pull, windowSize);
    case PullFail(pull) => EndPull(s, pull);
    case PushStart => PushStartKeepsInvariant(s, windowSize);
    case PushList(_) => ListingKeepsInvariant(s, e, windowSize);
    case PushDrop(_) => ListingKeepsInvariant(s, e, windowSize);
    case PushBlock(_) => ListingKeepsInvariant(s, e, windowSize);
    case PushCommit(entry) => PushCommitKeepsInvariant(s, entry, windowSize);
    case PushReplay(entry, number) => PushReplayKeepsInvariant(s, entry, number, windowSize);
    case BatchApplied => BatchWrittenKeepsInvariant(s);
    case PushFinish => PushFinishKeepsInvariant(s, windowSize);
    case PushFail => SetPush(s, None);
  }

  // ---------------------------------------------------------------- what one step does to a promise

  /** Every latest commit at or below the cursor has been taken over, at exactly its revision. */
  lemma EveryChangeIsTakenOver(s: State, entry: Entry)
    requires Invariant(s) && 0 < Latest(s.log, entry) <= s.cursor
    ensures Stored(s.taken, entry) == Revision(s.log, entry)
  {
    hide AllPulls, PushInvariant, ValidLog, RowsWithin;
  }

  /** So the promise for an entry can fail only if it has been set back since. */
  lemma PromiseMeans(s: State, entry: Entry)
    requires Invariant(s)
    ensures Promise(s, entry) <==> Latest(s.log, entry) == 0 || s.cursor < Latest(s.log, entry) || Level(s, entry)
  {
    if 0 < Latest(s.log, entry) <= s.cursor {
      EveryChangeIsTakenOver(s, entry);
    }
    assert Stored(s.stored, entry) <= Stored(s.taken, entry);
    hide Invariant;
  }

  /** The entry is stored at the highest revision it ever had. */
  ghost predicate Level(s: State, entry: Entry) { Stored(s.stored, entry) == Stored(s.taken, entry) }

  /** What a step may do to one entry, with the stored and taken maps it leaves. */
  ghost predicate Moves(s: State, e: Event, entry: Entry, stored: map<Entry, nat>, taken: map<Entry, nat>) {
    && (Stored(stored, entry) < Stored(s.stored, entry) <==> Lowers(s, e, entry))
    && (Level(s, entry) ==> (Stored(stored, entry) == Stored(taken, entry) <==> !Lowers(s, e, entry)))
    && Stored(s.taken, entry) <= Stored(taken, entry)
  }

  lemma BatchMoves(s: State, entry: Entry)
    requires Invariant(s) && s.push.Some?
    ensures Moves(s, BatchApplied, entry, ApplyBatch(s.stored, s.push.value.batch), RaiseAll(s.taken, s.push.value.batch))
  {
    hide Reached, TakenIsGenuine, ValidLog, AllPulls, AllAccepted, RowsWithin, AnswerFits, IdsInUse;
    var batch := s.push.value.batch;
    assert Stored(s.stored, entry) <= Stored(s.taken, entry);
    ApplyBatchSets(s.stored, batch, entry);
    RaiseAllSets(s.taken, batch, entry);
    hide Invariant, ApplyBatch, RaiseAll;
    if InBatch(batch, entry) {
      var i := AnswerOf(batch, entry);
      assert forall j | 0 <= j < |batch| && batch[j].entry == entry :: batch[j].revision == batch[i].revision;
    }
  }

  predicate Writes(e: Event) { e.RowWritten? || e.RowDropped? || e.ItemApplied? || e.BatchApplied? }

  lemma OnlyWritesMove(s: State, e: Event, windowSize: nat, entry: Entry)
    requires Enabled(s, e) && !Writes(e)
    ensures Next(s, e, windowSize).stored == s.stored && Next(s, e, windowSize).taken == s.taken && !Lowers(s, e, entry)
  {
    hide PullAfter, Checkpointed, LeftPending, CursorAfter, Committed, Append;
  }

  lemma RowWrittenMoves(s: State, row: Row, left: Left, windowSize: nat, entry: Entry)
    requires Invariant(s) && Enabled(s, RowWritten(row, left))
    ensures var s' := Next(s, RowWritten(row, left), windowSize); Moves(s, RowWritten(row, left), entry, s'.stored, s'.taken)
  {
    assert row.revision <= Stored(s.taken, row.entry);
    hide Invariant, LeftPending;
  }

  lemma RowDroppedMoves(s: State, row: Row, windowSize: nat, entry: Entry)
    requires Invariant(s) && Enabled(s, RowDropped(row))
    ensures var s' := Next(s, RowDropped(row), windowSize); Moves(s, RowDropped(row), entry, s'.stored, s'.taken)
  {
    assert Stored(s.stored, entry) <= Stored(s.taken, entry);
    hide Invariant;
  }

  lemma TakingMoves(stored: map<Entry, nat>, taken: map<Entry, nat>, at: Entry, revision: nat, entry: Entry)
    requires Stored(stored, entry) <= Stored(taken, entry)
    ensures var stored', taken' := stored[at := revision], Raise(taken, at, revision);
      && (Stored(stored', entry) < Stored(stored, entry) <==> at == entry && revision < Stored(stored, entry))
      && (Stored(stored, entry) == Stored(taken, entry) ==>
            (Stored(stored', entry) == Stored(taken', entry) <==> !(at == entry && revision < Stored(stored, entry))))
      && Stored(taken, entry) <= Stored(taken', entry)
  {
  }

  lemma ItemAppliedMoves(s: State, pull: nat, item: Item, handling: Handling, windowSize: nat, entry: Entry)
    requires Invariant(s) && Enabled(s, ItemApplied(pull, item, handling))
    ensures var e := ItemApplied(pull, item, handling);
      Moves(s, e, entry, Next(s, e, windowSize).stored, Next(s, e, windowSize).taken)
  {
    assert Stored(s.stored, entry) <= Stored(s.taken, entry);
    TakingMoves(s.stored, s.taken, item.entry, item.revision, entry);
    ItemAppliedStores(s, pull, item, handling, windowSize);
    hide Invariant, Next, Enabled, Raise, Stored;
  }

  lemma ItemAppliedStores(s: State, pull: nat, item: Item, handling: Handling, windowSize: nat)
    requires Enabled(s, ItemApplied(pull, item, handling))
    ensures Next(s, ItemApplied(pull, item, handling), windowSize).stored == s.stored[item.entry := item.revision]
    ensures Next(s, ItemApplied(pull, item, handling), windowSize).taken == Raise(s.taken, item.entry, item.revision)
  {
    hide Raise, HandlePending, Applied;
  }

  lemma WriteMoves(s: State, e: Event, windowSize: nat, entry: Entry)
    requires Invariant(s) && Enabled(s, e) && Writes(e)
    ensures Moves(s, e, entry, Next(s, e, windowSize).stored, Next(s, e, windowSize).taken)
  {
    hide Invariant, Moves, ApplyBatch, RaiseAll;
    match e {
      case RowWritten(row, left) => RowWrittenMoves(s, row, left, windowSize, entry);
      case RowDropped(row) => RowDroppedMoves(s, row, windowSize, entry);
      case ItemApplied(pull, item, handling) => ItemAppliedMoves(s, pull, item, handling, windowSize, entry);
      case BatchApplied => BatchMoves(s, entry);
    }
  }

  /** A stored revision falls exactly when a step lowers it, the cursor exactly when a step rewinds it; an entry that
      is level stays so exactly as long as no step lowers it. */
  lemma StepIsMonotone(s: State, e: Event, windowSize: nat, entry: Entry)
    requires Invariant(s) && Enabled(s, e)
    ensures Next(s, e, windowSize).cursor < s.cursor <==> Rewinds(s, e)
    ensures Stored(Next(s, e, windowSize).stored, entry) < Stored(s.stored, entry) <==> Lowers(s, e, entry)
    ensures Level(s, entry) ==> (Level(Next(s, e, windowSize), entry) <==> !Lowers(s, e, entry))
    ensures Stored(s.taken, entry) <= Stored(Next(s, e, windowSize).taken, entry)
  {
    StepKinds(s, e, windowSize);
    if Writes(e) {
      WriteMoves(s, e, windowSize, entry);
    } else {
      OnlyWritesMove(s, e, windowSize, entry);
    }
    hide Invariant, Lowers, Enabled, Next, CursorAfter;
  }

  /** A step that moves the cursor touches neither log nor rows; one that commits moves neither cursor nor rows. */
  lemma StepKinds(s: State, e: Event, windowSize: nat)
    requires Enabled(s, e)
    ensures var s' := Next(s, e, windowSize);
      && s'.cursor == CursorAfter(s, e)
      && (s'.cursor != s.cursor ==> s'.log == s.log && s'.stored == s.stored && s'.taken == s.taken)
      && (s'.log != s.log ==> s'.cursor == s.cursor && s'.stored == s.stored && s'.taken == s.taken)
  {
    hide PullAfter, Applied, Checkpointed, Raise, RaiseAll, LeftPending, Committed, ApplyBatch;
  }

  /** A step that breaks a promise does break it, and no other step does. */
  lemma PromiseBreaksExactly(s: State, e: Event, windowSize: nat, entry: Entry)
    requires Invariant(s) && Enabled(s, e) && Promise(s, entry)
    ensures Promise(Next(s, e, windowSize), entry) <==> !Breaks(s, e, entry)
  {
    var s' := Next(s, e, windowSize);
    PromiseMeansBoth(s, e, windowSize, entry);
    StepIsMonotone(s, e, windowSize, entry);
    StepKinds(s, e, windowSize);
    LatestStays(s, e, windowSize, entry);
    hide Invariant, Next, Enabled, Lowers, Promise, CursorAfter;
  }

  lemma PromiseMeansBoth(s: State, e: Event, windowSize: nat, entry: Entry)
    requires Invariant(s) && Enabled(s, e)
    ensures var s' := Next(s, e, windowSize);
      && (Promise(s, entry) <==> Latest(s.log, entry) == 0 || s.cursor < Latest(s.log, entry) || Level(s, entry))
      && (Promise(s', entry) <==> Latest(s'.log, entry) == 0 || s'.cursor < Latest(s'.log, entry) || Level(s', entry))
      && Stored(s.stored, entry) <= Stored(s.taken, entry)
  {
    StepKeepsInvariant(s, e, windowSize);
    PromiseMeans(s, entry);
    PromiseMeans(Next(s, e, windowSize), entry);
    assert Stored(s.stored, entry) <= Stored(s.taken, entry);
    hide Invariant, Next, Enabled, Promise;
  }

  lemma LatestStays(s: State, e: Event, windowSize: nat, entry: Entry)
    requires Invariant(s) && Enabled(s, e)
    ensures s.cursor <= |s.log|
    ensures 0 < Latest(Next(s, e, windowSize).log, entry) <= s.cursor
      ==> Latest(Next(s, e, windowSize).log, entry) == Latest(s.log, entry)
    ensures Lowers(s, e, entry) ==> 0 < Latest(s.log, entry)
    ensures s.cursor < Latest(s.log, entry) ==> s.cursor < Latest(Next(s, e, windowSize).log, entry)
  {
    assert s.cursor <= |s.log|;
    LatestMoves(s, e, windowSize, entry);
    if Lowers(s, e, entry) {
      LoweringNeedsRevision(s, e, entry);
    }
    hide Invariant, Lowers, Latest, Enabled, Next;
  }

  lemma LogAfter(s: State, e: Event, windowSize: nat)
    requires Enabled(s, e)
    ensures Next(s, e, windowSize).log == match e
      case OtherCommit(entry) => Append(s.log, entry, None)
      case PushCommit(entry) => Append(s.log, entry, Some(s.push.value.listed[entry].id))
      case _ => s.log
  {
    hide PullAfter, Applied, Checkpointed, Raise, RaiseAll, LeftPending, CursorAfter, Committed, Append, ApplyBatch;
  }

  lemma LatestMoves(s: State, e: Event, windowSize: nat, entry: Entry)
    requires ValidLog(s.log) && Enabled(s, e)
    ensures var latest := Latest(Next(s, e, windowSize).log, entry);
      latest == Latest(s.log, entry) || latest == |s.log| + 1
  {
    hide Latest, Revision, ValidLog, Next, Committed;
    LogAfter(s, e, windowSize);
    match e {
      case OtherCommit(other) => LatestAfterAppend(s.log, other, None, entry);
      case PushCommit(other) => LatestAfterAppend(s.log, other, Some(s.push.value.listed[other].id), entry);
      case _ =>
    }
  }

  /** Only an entry with a commit can be set back. */
  lemma LoweringNeedsRevision(s: State, e: Event, entry: Entry)
    requires Invariant(s) && Lowers(s, e, entry)
    ensures 0 < Latest(s.log, entry)
  {
    assert Stored(s.stored, entry) <= Stored(s.taken, entry) <= Revision(s.log, entry);
    hide Invariant;
  }

  // ---------------------------------------------------------------- every run

  ghost predicate Run(states: seq<State>, events: seq<Event>, windowSize: nat) {
    && |states| == |events| + 1
    && Invariant(states[0])
    && forall i {:trigger Taken(states, events, windowSize, i)} | 0 <= i < |events| :: Taken(states, events, windowSize, i)
  }

  ghost predicate Taken(states: seq<State>, events: seq<Event>, windowSize: nat, i: nat)
    requires i < |events| < |states|
  {
    Enabled(states[i], events[i]) && states[i + 1] == Next(states[i], events[i], windowSize)
  }

  ghost predicate FreshClient(s: State) {
    && s.cursor == 0 && s.stored == map[] && s.taken == map[] && s.pending == map[]
    && s.rows == {} && s.pulls == map[] && s.push == None
  }

  /** A fresh client: nothing stored, nothing pending, nothing running, cursor 0, and any server log. */
  lemma FreshClientIsSafe(s: State)
    requires FreshClient(s) && ValidLog(s.log) && IdsInUse(s)
    ensures Invariant(s)
  {
  }

  lemma RunStep(states: seq<State>, events: seq<Event>, windowSize: nat, i: nat)
    requires Run(states, events, windowSize) && i < |events|
    ensures |states| == |events| + 1 && Enabled(states[i], events[i])
    ensures states[i + 1] == Next(states[i], events[i], windowSize)
  {
    assert Taken(states, events, windowSize, i);
  }

  lemma {:induction false} RunKeepsInvariant(states: seq<State>, events: seq<Event>, windowSize: nat, i: nat)
    requires Run(states, events, windowSize) && i < |states|
    ensures Invariant(states[i])
  {
    if i > 0 {
      RunKeepsInvariant(states, events, windowSize, i - 1);
      RunStep(states, events, windowSize, i - 1);
      StepKeepsInvariant(states[i - 1], events[i - 1], windowSize);
    }
  }

  lemma RunStepIsMonotone(states: seq<State>, events: seq<Event>, windowSize: nat, k: nat, entry: Entry)
    requires Run(states, events, windowSize) && k < |events|
    ensures |states| == |events| + 1
    ensures states[k + 1].cursor < states[k].cursor <==> Rewinds(states[k], events[k])
    ensures Stored(states[k + 1].stored, entry) < Stored(states[k].stored, entry) <==> Lowers(states[k], events[k], entry)
    ensures Level(states[k], entry) ==> (Level(states[k + 1], entry) <==> !Lowers(states[k], events[k], entry))
  {
    RunStep(states, events, windowSize, k);
    RunKeepsInvariant(states, events, windowSize, k);
    StepIsMonotone(states[k], events[k], windowSize, entry);
  }

  /** No step before `n` writes a revision of the entry below its stored one. */
  ghost predicate NeverLowers(states: seq<State>, events: seq<Event>, n: nat, entry: Entry)
    requires n <= |events| < |states|
  {
    forall k | 0 <= k < n :: !Lowers(states[k], events[k], entry)
  }

  ghost predicate NeverBreaks(states: seq<State>, events: seq<Event>, n: nat, entry: Entry)
    requires n <= |events| < |states|
  {
    forall k | 0 <= k < n :: !Breaks(states[k], events[k], entry)
  }

  ghost predicate PromiseKept(states: seq<State>, n: nat, entry: Entry)
    requires n < |states|
  {
    forall k | 0 <= k <= n :: Promise(states[k], entry)
  }

  ghost predicate NeverFalls(states: seq<State>, n: nat, entry: Entry)
    requires n < |states|
  {
    forall k | 0 <= k < n :: Stored(states[k].stored, entry) <= Stored(states[k + 1].stored, entry)
  }

  ghost predicate AlwaysLevel(states: seq<State>, n: nat, entry: Entry)
    requires n < |states|
  {
    forall k | 0 <= k <= n :: Level(states[k], entry)
  }

  /** The promise holds exactly as long as no step breaks it. */
  lemma {:induction false} PromiseHoldsUntilBroken(states: seq<State>, events: seq<Event>, windowSize: nat, n: nat,
      entry: Entry)
    requires Run(states, events, windowSize) && n < |states| && Promise(states[0], entry)
    ensures PromiseKept(states, n, entry) <==> NeverBreaks(states, events, n, entry)
  {
    assert |states| == |events| + 1;
    hide Run, Invariant, Enabled, Next, Promise, Breaks;
    if n > 0 {
      PromiseHoldsUntilBroken(states, events, windowSize, n - 1, entry);
      RunStepBreaks(states, events, windowSize, n - 1, entry);
    }
  }

  lemma RunStepBreaks(states: seq<State>, events: seq<Event>, windowSize: nat, k: nat, entry: Entry)
    requires Run(states, events, windowSize) && k < |events| && |states| == |events| + 1
    ensures Promise(states[k], entry) ==> (Promise(states[k + 1], entry) <==> !Breaks(states[k], events[k], entry))
  {
    RunStep(states, events, windowSize, k);
    RunKeepsInvariant(states, events, windowSize, k);
    hide Run, Invariant, Enabled, Next, Promise, Breaks;
    if Promise(states[k], entry) {
      PromiseBreaksExactly(states[k], events[k], windowSize, entry);
    }
  }

  lemma {:induction false} FallsExactlyWhenLowered(states: seq<State>, events: seq<Event>, windowSize: nat, n: nat,
      entry: Entry)
    requires Run(states, events, windowSize) && n < |states| && Level(states[0], entry)
    ensures NeverFalls(states, n, entry) <==> NeverLowers(states, events, n, entry)
    ensures AlwaysLevel(states, n, entry) <==> NeverLowers(states, events, n, entry)
  {
    assert |states| == |events| + 1;
    hide Run, Invariant, Enabled, Next, Lowers, Level;
    if n > 0 {
      FallsExactlyWhenLowered(states, events, windowSize, n - 1, entry);
      RunStepIsMonotone(states, events, windowSize, n - 1, entry);
      if NeverLowers(states, events, n - 1, entry) {
        assert Level(states[n - 1], entry);
      }
    }
  }

  /**
  * Over every run, whatever is written back late, replayed, or done at the same time, for each entry that starts level:
  * the promise of the cursor holds throughout exactly when no step sets the entry back behind the cursor, and the cursor
  * is not moved past it while it is set back. Its stored revision never falls exactly when no step writes a lower one,
  * and then no remote change at or below the cursor is skipped. Whether it writes a lower one the client can see before.
  */
  lemma NoRemoteChangeIsSkipped(states: seq<State>, events: seq<Event>, windowSize: nat, n: nat, entry: Entry)
    requires Run(states, events, windowSize) && n < |states| && Level(states[0], entry)
    ensures PromiseKept(states, n, entry) <==> NeverBreaks(states, events, n, entry)
    ensures NeverFalls(states, n, entry) <==> NeverLowers(states, events, n, entry)
    ensures NeverLowers(states, events, n, entry) ==>
      forall k | 0 <= k <= n :: 0 < Latest(states[k].log, entry) <= states[k].cursor ==>
        Stored(states[k].stored, entry) == Revision(states[k].log, entry)
  {
    assert |states| == |events| + 1;
    RunKeepsInvariant(states, events, windowSize, 0);
    PromiseMeans(states[0], entry);
    PromiseHoldsUntilBroken(states, events, windowSize, n, entry);
    FallsExactlyWhenLowered(states, events, windowSize, n, entry);
    hide Run, Invariant, Lowers, Breaks, Promise, PromiseKept, NeverBreaks, NeverFalls, NeverLowers;
    if AlwaysLevel(states, n, entry) {
      forall k | 0 <= k <= n && 0 < Latest(states[k].log, entry) <= states[k].cursor
        ensures Stored(states[k].stored, entry) == Revision(states[k].log, entry)
      {
        RunKeepsInvariant(states, events, windowSize, k);
        EveryChangeIsTakenOver(states[k], entry);
        assert Level(states[k], entry);
      }
    }
  }
}

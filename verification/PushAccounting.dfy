/**
 What a push does with the mutations it lists: each is accepted, rejected, blocked, requeued or given up, and an entry that
 is requeued again and again stops the supply.
 */
module PushAccounting {
  type Entry = string

  /** How a batch disposes of one mutation. Past an upload that exceeds the storage quota the rest of the batch is not looked at. */
  datatype Fate = Accepted | Requeued | Stale | Conflicting | Blocked | OverQuota | Unseen

  datatype Item = Item(entry: Entry, fate: Fate)

  /** `since` counts how often an entry has been requeued since it was last accepted; `done` lists each finished
      mutation with its fate. */
  datatype State = State(owned: set<Entry>, requeuedEntries: set<Entry>, requeueLimitReached: bool, shouldPullAfterPush: bool,
    stopped: bool, since: map<Entry, nat>, listed: multiset<Entry>, done: seq<Item>)

  const START := State({}, {}, false, false, false, map[], multiset{}, [])

  datatype Event = Load(loaded: seq<Entry>) | Batch(items: seq<Item>)

  function Count(s: State, entry: Entry): nat { if entry in s.since then s.since[entry] else 0 }

  // ---------------------------------------------------------------- steps

  function RecordRequeue(s: State, entry: Entry): State {
    s.(requeueLimitReached := s.requeueLimitReached || entry in s.requeuedEntries,
       requeuedEntries := s.requeuedEntries + {entry},
       since := s.since[entry := Count(s, entry) + 1])
  }

  function Consume(s: State, item: Item): State {
    var finished := s.(owned := s.owned - {item.entry}, done := s.done + [item]);
    match item.fate
    case Accepted => finished.(requeuedEntries := s.requeuedEntries - {item.entry}, since := s.since[item.entry := 0])
    case Requeued => RecordRequeue(finished, item.entry)
    case Stale => RecordRequeue(finished, item.entry).(shouldPullAfterPush := true, stopped := true)
    case OverQuota => finished.(stopped := true)
    case _ => finished
  }

  function ConsumeAll(s: State, items: seq<Item>): State {
    if items == [] then s else Consume(ConsumeAll(s, items[..|items| - 1]), items[|items| - 1])
  }

  ghost predicate AllDiffer(entries: seq<Entry>) { forall i, j | 0 <= i < j < |entries| :: entries[i] != entries[j] }

  /** The rest of a batch goes unseen exactly past the quota. */
  ghost predicate StopsAtQuota(items: seq<Item>) {
    forall i | 0 <= i < |items| :: items[i].fate.Unseen? <==> exists j :: 0 <= j < i && items[j].fate.OverQuota?
  }

  /** Nothing is loaded once a pull is due or the limit is reached; nothing owned is loaded again. */
  ghost predicate Enabled(s: State, e: Event) {
    match e
    case Load(loaded) =>
      && !s.stopped && !s.shouldPullAfterPush && !s.requeueLimitReached
      && AllDiffer(loaded) && forall entry | entry in loaded :: entry !in s.owned
    case Batch(items) =>
      && !s.stopped && StopsAtQuota(items)
      && (forall i | 0 <= i < |items| :: items[i].entry in s.owned)
      && forall i, j | 0 <= i < j < |items| :: items[i].entry != items[j].entry
  }

  ghost function Do(s: State, e: Event): State {
    match e
    case Load(loaded) => s.(owned := s.owned + (set entry | entry in loaded), listed := s.listed + multiset(loaded))
    case Batch(items) => ConsumeAll(s, items)
  }

  // ---------------------------------------------------------------- the requeue limit

  /** Two requeues without an acceptance in between reach the limit, and such an entry is not owned again. */
  ghost predicate Limited(s: State) {
    && (forall entry {:trigger Count(s, entry)} ::
          && Count(s, entry) <= 2
          && (entry in s.requeuedEntries <==> Count(s, entry) > 0)
          && (entry in s.owned ==> Count(s, entry) <= 1))
    && (s.requeueLimitReached <==> exists entry :: Count(s, entry) == 2)
  }

  lemma ConsumeKeepsLimited(s: State, item: Item)
    requires Limited(s) && item.entry in s.owned
    ensures Limited(Consume(s, item))
  {
    var t := Consume(s, item);
    forall entry
      ensures Count(t, entry) == if entry != item.entry then Count(s, entry)
        else if item.fate.Accepted? then 0
        else if item.fate.Requeued? || item.fate.Stale? then Count(s, entry) + 1 else Count(s, entry)
    {
    }
    assert Count(s, item.entry) <= 1;
    if s.requeueLimitReached {
      var entry :| Count(s, entry) == 2;
      assert Count(t, entry) == 2;
    }
    if t.requeueLimitReached && !s.requeueLimitReached {
      assert Count(t, item.entry) == 2;
    }
  }

  /** What a batch takes from the owned entries. */
  lemma {:induction false} ConsumeAllOwns(s: State, items: seq<Item>)
    ensures ConsumeAll(s, items).owned == s.owned - (set i | 0 <= i < |items| :: items[i].entry)
    ensures ConsumeAll(s, items).done == s.done + items
    ensures ConsumeAll(s, items).listed == s.listed
  {
    if items != [] {
      var init, last := items[..|items| - 1], items[|items| - 1];
      ConsumeAllOwns(s, init);
      assert items == init + [last];
      assert (set i | 0 <= i < |items| :: items[i].entry) == (set i | 0 <= i < |init| :: init[i].entry) + {last.entry} by {
        assert forall i | 0 <= i < |init| :: init[i] == items[i];
      }
      ConsumeOwns(ConsumeAll(s, init), last);
      hide Consume;
    }
  }

  lemma ConsumeOwns(s: State, item: Item)
    ensures Consume(s, item).owned == s.owned - {item.entry} && Consume(s, item).done == s.done + [item]
    ensures Consume(s, item).listed == s.listed
  {
  }

  lemma {:induction false} ConsumeAllKeepsLimited(s: State, items: seq<Item>)
    requires Limited(s)
    requires forall i | 0 <= i < |items| :: items[i].entry in s.owned
    requires forall i, j | 0 <= i < j < |items| :: items[i].entry != items[j].entry
    ensures Limited(ConsumeAll(s, items))
  {
    if items != [] {
      var init, last := items[..|items| - 1], items[|items| - 1];
      ConsumeAllKeepsLimited(s, init);
      ConsumeAllOwns(s, init);
      hide Limited, Consume;
      assert last.entry in ConsumeAll(s, init).owned;
      ConsumeKeepsLimited(ConsumeAll(s, init), last);
    }
  }

  // ---------------------------------------------------------------- conservation

  /** The entries of finished mutations. */
  function EntriesOf(done: seq<Item>): multiset<Entry> {
    if done == [] then multiset{} else EntriesOf(done[..|done| - 1]) + multiset{done[|done| - 1].entry}
  }

  /** Every mutation ever listed is still owned or has exactly one fate. */
  ghost predicate Accounted(s: State) { s.listed == multiset(s.owned) + EntriesOf(s.done) }

  lemma ConsumeKeepsAccount(s: State, item: Item)
    requires Accounted(s) && item.entry in s.owned
    ensures Accounted(Consume(s, item))
  {
    ConsumeOwns(s, item);
    hide Consume;
    assert (s.done + [item])[..|s.done|] == s.done;
    assert multiset(s.owned) == multiset(s.owned - {item.entry}) + multiset{item.entry};
  }

  lemma {:induction false} ConsumeAllKeepsAccount(s: State, items: seq<Item>)
    requires Accounted(s)
    requires forall i | 0 <= i < |items| :: items[i].entry in s.owned
    requires forall i, j | 0 <= i < j < |items| :: items[i].entry != items[j].entry
    ensures Accounted(ConsumeAll(s, items))
  {
    if items != [] {
      var init, last := items[..|items| - 1], items[|items| - 1];
      ConsumeAllKeepsAccount(s, init);
      ConsumeAllOwns(s, init);
      hide Accounted, Consume;
      assert last.entry in ConsumeAll(s, init).owned;
      ConsumeKeepsAccount(ConsumeAll(s, init), last);
    }
  }

  lemma {:induction false} LoadedBag(loaded: seq<Entry>)
    requires AllDiffer(loaded)
    ensures multiset(loaded) == multiset(set entry | entry in loaded)
  {
    if loaded != [] {
      var init, last := loaded[..|loaded| - 1], loaded[|loaded| - 1];
      LoadedBag(init);
      assert loaded == init + [last];
      assert (set entry | entry in loaded) == (set entry | entry in init) + {last};
      assert last !in init;
    }
  }

  lemma LoadKeepsInvariant(s: State, loaded: seq<Entry>)
    requires Invariant(s) && Enabled(s, Load(loaded))
    ensures Invariant(Do(s, Load(loaded)))
  {
    var t := Do(s, Load(loaded));
    LoadedBag(loaded);
    assert multiset(t.owned) == multiset(s.owned) + multiset(set entry | entry in loaded);
    forall entry ensures Count(t, entry) == Count(s, entry) <= 1 {
      assert Count(s, entry) <= 2;
    }
  }

  // ---------------------------------------------------------------- every run

  ghost predicate Invariant(s: State) { Limited(s) && Accounted(s) }

  lemma StepKeepsInvariant(s: State, e: Event)
    requires Invariant(s) && Enabled(s, e)
    ensures Invariant(Do(s, e))
  {
    match e
    case Load(loaded) => LoadKeepsInvariant(s, loaded);
    case Batch(items) =>
      ConsumeAllKeepsLimited(s, items);
      ConsumeAllKeepsAccount(s, items);
  }

  datatype Trace = Begin | Then(earlier: Trace, event: Event)

  ghost predicate Reaches(trace: Trace, s: State) {
    match trace
    case Begin => s == START
    case Then(earlier, e) => exists before :: Reaches(earlier, before) && Enabled(before, e) && s == Do(before, e)
  }

  lemma {:induction false} RunKeepsInvariant(trace: Trace, s: State)
    requires Reaches(trace, s)
    ensures Invariant(s)
  {
    match trace
    case Begin =>
    case Then(earlier, e) =>
      hide Invariant, Enabled, Do;
      var before :| Reaches(earlier, before) && Enabled(before, e) && s == Do(before, e);
      RunKeepsInvariant(earlier, before);
      StepKeepsInvariant(before, e);
  }

  /** In every run of a push: each listed mutation is still owned or has one fate, once for each time it was listed. */
  lemma EveryMutationHasOneFate(trace: Trace, s: State)
    requires Reaches(trace, s)
    ensures s.listed == multiset(s.owned) + EntriesOf(s.done)
  {
    RunKeepsInvariant(trace, s);
  }

  /** An entry is requeued at most twice without being accepted in between; twice is exactly what reaches the limit, and
      then nothing more is loaded. */
  lemma RequeuesAreLimited(trace: Trace, s: State, entry: Entry)
    requires Reaches(trace, s)
    ensures Count(s, entry) <= 2
    ensures s.requeueLimitReached <==> exists other :: Count(s, other) == 2
    ensures Count(s, entry) == 2 ==> entry !in s.owned && forall loaded :: !Enabled(s, Load(loaded))
  {
    RunKeepsInvariant(trace, s);
    assert Count(s, entry) <= 2;
  }

  // ---------------------------------------------------------------- what a push concludes from its history

  predicate IsRequeue(item: Item) { item.fate.Requeued? || item.fate.Stale? }

  /** How often the entry was put back since it was last accepted. */
  function PutBack(done: seq<Item>, entry: Entry): nat {
    if done == [] then 0
    else
      var last, before := done[|done| - 1], PutBack(done[..|done| - 1], entry);
      if last.entry != entry then before
      else if last.fate.Accepted? then 0
      else if IsRequeue(last) then before + 1
      else before
  }

  /** The push knows from its history what it may still do. */
  ghost predicate Concluded(s: State) {
    && (forall entry :: Count(s, entry) == PutBack(s.done, entry))
    && (s.shouldPullAfterPush <==> exists k :: 0 <= k < |s.done| && s.done[k].fate.Stale?)
    && (s.stopped <==> exists k :: 0 <= k < |s.done| && (s.done[k].fate.Stale? || s.done[k].fate.OverQuota?))
  }

  lemma PutBackGrows(done: seq<Item>, item: Item, entry: Entry)
    ensures PutBack(done + [item], entry) ==
      if item.entry != entry then PutBack(done, entry)
      else if item.fate.Accepted? then 0
      else PutBack(done, entry) + if IsRequeue(item) then 1 else 0
  {
    assert (done + [item])[..|done|] == done;
  }

  lemma CountGrows(s: State, item: Item, entry: Entry)
    ensures Count(Consume(s, item), entry) ==
      if item.entry != entry then Count(s, entry)
      else if item.fate.Accepted? then 0
      else Count(s, entry) + if IsRequeue(item) then 1 else 0
  {
  }

  lemma ConsumeKeepsConcluded(s: State, item: Item)
    requires Concluded(s)
    ensures Concluded(Consume(s, item))
  {
    var t := Consume(s, item);
    ConsumeOwns(s, item);
    forall entry ensures Count(t, entry) == PutBack(t.done, entry) {
      assert Count(s, entry) == PutBack(s.done, entry);
      PutBackGrows(s.done, item, entry);
      CountGrows(s, item, entry);
    }
    assert t.shouldPullAfterPush == (s.shouldPullAfterPush || item.fate.Stale?);
    assert t.stopped == (s.stopped || item.fate.Stale? || item.fate.OverQuota?);
    hide Count, PutBack, Consume;
    assert forall k | 0 <= k < |s.done| :: t.done[k] == s.done[k];
    assert t.done[|s.done|] == item;
  }

  lemma {:induction false} ConsumeAllKeepsConcluded(s: State, items: seq<Item>)
    requires Concluded(s)
    ensures Concluded(ConsumeAll(s, items))
  {
    if items != [] {
      hide Concluded, Consume;
      ConsumeAllKeepsConcluded(s, items[..|items| - 1]);
      ConsumeKeepsConcluded(ConsumeAll(s, items[..|items| - 1]), items[|items| - 1]);
    }
  }

  lemma {:induction false} RunConcludes(trace: Trace, s: State)
    requires Reaches(trace, s)
    ensures Concluded(s)
  {
    match trace
    case Begin =>
    case Then(earlier, e) =>
      var before :| Reaches(earlier, before) && Enabled(before, e) && s == Do(before, e);
      hide Enabled;
      RunConcludes(earlier, before);
      match e
      case Load(loaded) => assert forall entry :: Count(s, entry) == Count(before, entry);
      case Batch(items) => hide Concluded; ConsumeAllKeepsConcluded(before, items);
  }

  /** A pull is due exactly once the server has called a mutation stale. A batch may be sent exactly while no mutation was
      stale and none was over the quota; more mutations may be loaded exactly while, besides, no entry has been put back
      twice since it was last accepted. */
  lemma HistoryDecides(trace: Trace, s: State, loaded: seq<Entry>, items: seq<Item>)
    requires Reaches(trace, s)
    requires AllDiffer(loaded) && forall entry | entry in loaded :: entry !in s.owned
    requires StopsAtQuota(items) && forall i | 0 <= i < |items| :: items[i].entry in s.owned
    requires forall i, j | 0 <= i < j < |items| :: items[i].entry != items[j].entry
    ensures s.shouldPullAfterPush <==> exists k :: 0 <= k < |s.done| && s.done[k].fate.Stale?
    ensures Enabled(s, Batch(items)) <==>
      forall k | 0 <= k < |s.done| :: !s.done[k].fate.Stale? && !s.done[k].fate.OverQuota?
    ensures Enabled(s, Load(loaded)) <==> Enabled(s, Batch(items)) && forall entry :: PutBack(s.done, entry) < 2
  {
    RunConcludes(trace, s);
    RunKeepsInvariant(trace, s);
    if s.requeueLimitReached {
      var entry :| Count(s, entry) == 2;
      assert PutBack(s.done, entry) == 2;
    }
    forall entry ensures PutBack(s.done, entry) <= 2 && (PutBack(s.done, entry) == 2 ==> s.requeueLimitReached) {
      assert Count(s, entry) == PutBack(s.done, entry);
    }
  }

  /** Loading makes exactly the loaded entries owned besides those that are, and finishes none. */
  lemma LoadOwns(s: State, loaded: seq<Entry>)
    requires Enabled(s, Load(loaded))
    ensures var t := Do(s, Load(loaded));
      t.done == s.done && t.listed == s.listed + multiset(loaded)
      && forall entry :: entry in t.owned <==> entry in s.owned || entry in loaded
  {
  }

  /** A batch gives up exactly its own mutations and writes each with its fate, in order. */
  lemma BatchFinishes(s: State, items: seq<Item>)
    requires Enabled(s, Batch(items))
    ensures var t := Do(s, Batch(items));
      t.done == s.done + items && t.listed == s.listed
      && forall entry :: entry in t.owned <==> entry in s.owned && forall k | 0 <= k < |items| :: items[k].entry != entry
  {
    ConsumeAllOwns(s, items);
  }
}

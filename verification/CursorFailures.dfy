/**
 Runs of a new client that break the promise of the cursor: an entry ends below its latest revision although the cursor
 has passed it. Each takes another way, and each is one the guards of CursorSafety exclude.
 */
module CursorFailures {
  import opened Common
  import opened CursorProtocol

  ghost predicate Leads(s: State, e: Event, s': State) { Enabled(s, e) && Next(s, e, 1) == s' }

  lemma ExtendRun(states: seq<State>, events: seq<Event>, e: Event, s': State)
      returns (states': seq<State>, events': seq<Event>)
    requires Run(states, events, 1) && Leads(states[|events|], e, s')
    ensures Run(states', events', 1) && events' == events + [e]
    ensures states'[0] == states[0] && states'[|events|] == states[|events|] && states'[|events'|] == s'
  {
    states', events' := states + [s'], events + [e];
    forall i | 0 <= i < |events'| ensures Taken(states', events', 1, i) {
      if i < |events| {
        assert Taken(states, events, 1, i);
      }
    }
  }

  const MUTATION := Pending(0, 0)
  const EDITED := map["e" := MUTATION]
  const PUSHED: Log := [Commit("e", 1, Some(0))]
  const OVERTAKEN: Log := PUSHED + [Commit("e", 2, None)]
  const NEWER := Item("e", 2, 2)
  const ANSWER := Accepted(1, "e", 1, 0)

  const START := State([], 0, map[], map[], map[], 0, {}, map[], None)

  /** An edit of a new entry is committed, and its answer is on the way. */
  const ANSWERED := State(PUSHED, 0, map[], map[], EDITED, 1, {}, map[], Some(Push(0, EDITED, [ANSWER], {})))

  lemma LogFacts()
    ensures Latest([], "e") == 0 && Append([], "e", Some(0)) == PUSHED
    ensures Latest(PUSHED, "e") == 1 && Revision(PUSHED, "e") == 1 && Append(PUSHED, "e", None) == OVERTAKEN
    ensures Latest(OVERTAKEN, "e") == 2 && Revision(OVERTAKEN, "e") == 2
  {
    assert OVERTAKEN[..1] == PUSHED && PUSHED[..0] == [];
  }

  lemma PageOfNewer(since: nat)
    requires since <= 1
    ensures ValidPage(OVERTAKEN, since, 0, Page([NEWER], false, 2))
  {
    LogFacts();
    forall entry: Entry | 0 < Latest(OVERTAKEN, entry) ensures entry == "e" {
    }
  }

  const LISTED := State([], 0, map[], map[], EDITED, 1, {}, map[], Some(Push(0, EDITED, [], {})))

  lemma PushSteps()
    ensures Leads(START, LocalEdit("e", 0), START.(pending := EDITED, nextId := 1))
    ensures Leads(START.(pending := EDITED, nextId := 1), PushStart, LISTED.(push := Some(Push(0, map[], [], {}))))
    ensures Leads(LISTED.(push := Some(Push(0, map[], [], {}))), PushList("e"), LISTED)
  {
  }

  lemma CommitStep()
    ensures Leads(LISTED, PushCommit("e"), ANSWERED)
  {
    LogFacts();
    hide Latest;
    assert [] + [ANSWER] == [ANSWER];
  }

  const PUSH_OWN := [LocalEdit("e", 0), PushStart, PushList("e"), PushCommit("e")]

  lemma PushOwn() returns (states: seq<State>, events: seq<Event>)
    ensures Run(states, events, 1) && FreshClient(states[0]) && states[|events|] == ANSWERED && events == PUSH_OWN
  {
    FreshClientIsSafe(START);
    PushSteps();
    CommitStep();
    states, events := [START], [];
    hide Run, Invariant, Leads;
    states, events := ExtendRun(states, events, LocalEdit("e", 0), START.(pending := EDITED, nextId := 1));
    states, events := ExtendRun(states, events, PushStart, LISTED.(push := Some(Push(0, map[], [], {}))));
    states, events := ExtendRun(states, events, PushList("e"), LISTED);
    states, events := ExtendRun(states, events, PushCommit("e"), ANSWERED);
  }

  // ---------------------------------------------------------------- a pull of the newer state

  function Asking(c: nat): Pull { Pull(c, c, None, 0, true, None, {}, [], Collecting) }

  function Holding(c: nat, job: Job): Pull { Pull(c, c, Some(2), 2, false, None, {("e", 2)}, [NEWER], job) }

  function Ending(c: nat, looked: Option<nat>): Pull {
    Pull(c, 2, Some(2), 2, false, None, {("e", 2)}, [], Closing(looked))
  }

  const PAGE := Page([NEWER], false, 2)

  lemma PullFacts(c: nat)
    requires c <= 1
    ensures Consumed(Asking(c).(page := Some(PAGE)), 1) == Holding(c, Planning({NEWER}, {}))
    ensures forall revision: nat | revision <= 2 ::
      Looked(Holding(c, Planning({NEWER}, {})), NEWER, revision) == Holding(c, Planning({}, {NEWER}))
    ensures Planned(Holding(c, Planning({}, {NEWER})), []) == Holding(c, Applying({NEWER}, []))
    ensures Applied(Holding(c, Applying({NEWER}, [])), NEWER) == Holding(c, Applying({}, []))
    ensures CheckpointOf(Holding(c, Applying({}, []))) == 2
    ensures Checkpointed(Holding(c, Applying({}, []))) == Ending(c, None)
  {
    assert NewItems([NEWER], {}) == [NEWER];
    var consumed := Consumed(Asking(c).(page := Some(PAGE)), 1);
    assert consumed.window == [NEWER] && consumed.received == {("e", 2)} && consumed.job.unseen == {NEWER};
    assert {NEWER} - {NEWER} == {} && {} + {NEWER} == {NEWER};
    assert Planned(Holding(c, Planning({}, {NEWER})), []).job.todo == {NEWER};
  }

  /** The state with this one pull. */
  function With(s: State, p: Pull): State { s.(pulls := map[0 := p]) }

  lemma FetchSteps(s: State)
    requires s.log == OVERTAKEN && s.pulls == map[] && s.cursor <= 1
    ensures Leads(s, PullStart(0), With(s, Asking(s.cursor)))
    ensures Leads(With(s, Asking(s.cursor)), PageArrives(0, PAGE), With(s, Asking(s.cursor).(page := Some(PAGE))))
    ensures Leads(With(s, Asking(s.cursor).(page := Some(PAGE))), PageConsumed(0),
              With(s, Holding(s.cursor, Planning({NEWER}, {}))))
  {
    PageOfNewer(s.cursor);
    PullFacts(s.cursor);
    hide Latest, Consumed, ValidPage;
  }

  lemma PlanSteps(s: State, c: nat)
    requires c <= 1 && Stored(s.stored, "e") <= 2
    ensures Leads(With(s, Holding(c, Planning({NEWER}, {}))), ItemLooked(0, NEWER),
              With(s, Holding(c, Planning({}, {NEWER}))))
    ensures Leads(With(s, Holding(c, Planning({}, {NEWER}))), WindowPlanned(0, []),
              With(s, Holding(c, Applying({NEWER}, []))))
  {
    PullFacts(c);
    hide Looked, Planned;
  }

  function WithNewer(s: State, handling: Handling): State
    requires !handling.Merges?
  {
    s.(stored := s.stored["e" := 2], taken := Raise(s.taken, "e", 2),
       pending := if handling.Drops? then s.pending - {"e"} else s.pending)
  }

  lemma ApplyStep(s: State, c: nat, handling: Handling)
    requires c <= 1 && !handling.Merges?
    ensures Leads(With(s, Holding(c, Applying({NEWER}, []))), ItemApplied(0, NEWER, handling),
              With(WithNewer(s, handling), Holding(c, Applying({}, []))))
  {
    PullFacts(c);
    hide Applied, Raise;
  }

  lemma CheckpointStep(s: State, c: nat)
    requires c <= 1
    ensures Leads(With(s, Holding(c, Applying({}, []))), WindowDone(0), With(s.(cursor := 2), Ending(c, None)))
  {
    PullFacts(c);
    hide Checkpointed, CheckpointOf;
  }

  lemma EndSteps(s: State, c: nat)
    requires s.cursor == 2
    ensures Leads(With(s, Ending(c, None)), PullLooked(0), With(s, Ending(c, Some(2))))
    ensures Leads(With(s, Ending(c, Some(2))), PullEnd(0), s.(pulls := map[]))
  {
  }

  const FETCH := [PullStart(0), PageArrives(0, PAGE), PageConsumed(0), ItemLooked(0, NEWER), WindowPlanned(0, [])]

  function PullOfNewer(handling: Handling): seq<Event> {
    FETCH + [ItemApplied(0, NEWER, handling), WindowDone(0), PullLooked(0), PullEnd(0)]
  }

  lemma FetchNewer(before: seq<State>, taken: seq<Event>, s: State) returns (states: seq<State>, events: seq<Event>)
    requires Run(before, taken, 1) && before[|taken|] == s && s.log == OVERTAKEN && s.pulls == map[] && s.cursor <= 1
    ensures Run(states, events, 1) && states[0] == before[0]
    ensures states[|events|] == With(s, Holding(s.cursor, Planning({NEWER}, {}))) && events == taken + FETCH[..3]
  {
    var c := s.cursor;
    FetchSteps(s);
    hide Run, Leads, Holding, Asking, With;
    states, events := ExtendRun(before, taken, PullStart(0), With(s, Asking(c)));
    states, events := ExtendRun(states, events, PageArrives(0, PAGE), With(s, Asking(c).(page := Some(PAGE))));
    states, events := ExtendRun(states, events, PageConsumed(0), With(s, Holding(c, Planning({NEWER}, {}))));
    assert events == taken + FETCH[..3];
  }

  lemma PlanNewer(before: seq<State>, taken: seq<Event>, s: State) returns (states: seq<State>, events: seq<Event>)
    requires Run(before, taken, 1) && before[|taken|] == s
    requires s.log == OVERTAKEN && s.pulls == map[] && s.cursor <= 1 && Stored(s.stored, "e") <= 2
    ensures Run(states, events, 1) && states[0] == before[0]
    ensures states[|events|] == With(s, Holding(s.cursor, Applying({NEWER}, []))) && events == taken + FETCH
  {
    var c := s.cursor;
    PlanSteps(s, c);
    hide Run, Leads, Holding, With;
    states, events := FetchNewer(before, taken, s);
    states, events := ExtendRun(states, events, ItemLooked(0, NEWER), With(s, Holding(c, Planning({}, {NEWER}))));
    states, events := ExtendRun(states, events, WindowPlanned(0, []), With(s, Holding(c, Applying({NEWER}, []))));
    assert events == taken + FETCH;
  }

  /** A whole pull that takes over the newer state of the entry. */
  lemma PullNewer(before: seq<State>, taken: seq<Event>, s: State, handling: Handling)
      returns (states: seq<State>, events: seq<Event>)
    requires Run(before, taken, 1) && before[|taken|] == s && !handling.Merges?
    requires s.log == OVERTAKEN && s.pulls == map[] && s.cursor <= 1 && Stored(s.stored, "e") <= 2
    ensures Run(states, events, 1) && states[0] == before[0]
    ensures states[|events|] == WithNewer(s, handling).(cursor := 2) && events == taken + PullOfNewer(handling)
  {
    var c, s' := s.cursor, WithNewer(s, handling);
    assert s'.(cursor := 2).(pulls := map[]) == s'.(cursor := 2);
    ApplyStep(s, c, handling);
    CheckpointStep(s', c);
    EndSteps(s'.(cursor := 2), c);
    hide Run, Leads, Holding, Ending, With, WithNewer;
    states, events := PlanNewer(before, taken, s);
    states, events := ExtendRun(states, events, ItemApplied(0, NEWER, handling), With(s', Holding(c, Applying({}, []))));
    states, events := ExtendRun(states, events, WindowDone(0), With(s'.(cursor := 2), Ending(c, None)));
    states, events := ExtendRun(states, events, PullLooked(0), With(s'.(cursor := 2), Ending(c, Some(2))));
    states, events := ExtendRun(states, events, PullEnd(0), s'.(cursor := 2));
    assert events == taken + PullOfNewer(handling);
  }

  // ---------------------------------------------------------------- the failing runs

  /** Some run of a new client with these events ends with the entry set back behind the cursor, nothing waiting and
      no task running, so nothing will bring the change back. */
  ghost predicate SkipsAChange(events: seq<Event>) {
    exists states: seq<State> :: Run(states, events, 1) && FreshClient(states[0]) && Forgotten(states[|events|])
  }

  ghost predicate Forgotten(s: State) { !Promise(s, "e") && s.pending == map[] && s.pulls == map[] && s.push == None }

  lemma WriteStep(s: State, start: nat)
    requires s.push == Some(Push(start, EDITED, [ANSWER], {})) && (s.pending == EDITED || s.pending == map[])
    ensures Leads(s, BatchApplied, s.(stored := s.stored["e" := 1], taken := Raise(s.taken, "e", 1), pending := map[],
              push := Some(Push(start, map[], [], {1}))))
  {
    assert [ANSWER][0] == ANSWER && [ANSWER][..0] == [];
    assert BatchEntries([ANSWER]) == {"e"} && BatchNumbers([ANSWER]) == {1};
    assert EDITED - {"e"} == map[] && {} + {1} == {1};
    assert ApplyBatch(s.stored, [ANSWER]) == s.stored["e" := 1];
    assert RaiseAll(s.taken, [ANSWER]) == Raise(s.taken, "e", 1);
    assert AllAnswered(s.pending, [ANSWER]) == map[];
    hide ApplyBatch, RaiseAll, AllAnswered, Raise;
  }

  lemma FinishStep(s: State, start: nat)
    requires s.push == Some(Push(start, map[], [], {1})) && (start == 0 || s.cursor == start)
    ensures Leads(s, PushFinish, s.(cursor := if start == 0 then 1 else s.cursor, push := None))
  {
    ContiguousIsUnique(start, if start == 0 then 1 else start, {1});
    hide ContiguousCursor;
  }

  const WRITTEN := State(PUSHED, 1, map["e" := 1], map["e" := 1], map[], 1, {}, map[], None)

  /** The commit of another client after the push. */
  lemma CommitOfOther(s: State)
    requires s.log == PUSHED
    ensures Leads(s, OtherCommit("e"), s.(log := OVERTAKEN))
  {
    LogFacts();
    hide Latest, Revision;
  }

  const REPLAY := PUSH_OWN + [PushFail, OtherCommit("e")] + PullOfNewer(Keeps)
                  + [PushStart, PushList("e"), PushReplay("e", 1), BatchApplied, PushFinish]

  /** The answer to a push is lost, another client changes the entry, the pull that takes the change over skips its path,
      and the old answer to the repeated push is written over the newer revision. */
  lemma ReplaySkipsAChange()
    ensures SkipsAChange(REPLAY)
  {
    var states, events := LoseAnswer();
    var s := State(OVERTAKEN, 2, map["e" := 2], map["e" := 2], EDITED, 1, {}, map[], None);
    ReplaySteps(s);
    var s1 := s.(push := Some(Push(2, EDITED, [ANSWER], {})));
    WriteStep(s1, 2);
    var s2 := s1.(stored := map["e" := 1], pending := map[], push := Some(Push(2, map[], [], {1})));
    FinishStep(s2, 2);
    LogFacts();
    assert Forgotten(s2.(push := None));
    hide Run, Leads, Forgotten, Raise, PullOfNewer;
    states, events := ExtendRun(states, events, PushStart, s.(push := Some(Push(2, map[], [], {}))));
    states, events := ExtendRun(states, events, PushList("e"), s.(push := Some(Push(2, EDITED, [], {}))));
    states, events := ExtendRun(states, events, PushReplay("e", 1), s1);
    states, events := ExtendRun(states, events, BatchApplied, s2);
    states, events := ExtendRun(states, events, PushFinish, s2.(push := None));
    assert events == REPLAY;
  }

  lemma LoseAnswer() returns (states: seq<State>, events: seq<Event>)
    ensures Run(states, events, 1) && FreshClient(states[0])
    ensures states[|events|] == State(OVERTAKEN, 2, map["e" := 2], map["e" := 2], EDITED, 1, {}, map[], None)
    ensures events == PUSH_OWN + [PushFail, OtherCommit("e")] + PullOfNewer(Keeps)
  {
    states, events := PushOwn();
    var s := ANSWERED.(push := None);
    CommitOfOther(s);
    assert Leads(ANSWERED, PushFail, s);
    hide Run, Leads, PullOfNewer;
    states, events := ExtendRun(states, events, PushFail, s);
    states, events := ExtendRun(states, events, OtherCommit("e"), s.(log := OVERTAKEN));
    states, events := PullNewer(states, events, s.(log := OVERTAKEN), Keeps);
  }

  lemma ReplaySteps(s: State)
    requires s.log == OVERTAKEN && s.cursor == 2 && s.pending == EDITED && s.push == None
    ensures Leads(s, PushStart, s.(push := Some(Push(2, map[], [], {}))))
    ensures Leads(s.(push := Some(Push(2, map[], [], {}))), PushList("e"), s.(push := Some(Push(2, EDITED, [], {}))))
    ensures Leads(s.(push := Some(Push(2, EDITED, [], {}))), PushReplay("e", 1),
              s.(push := Some(Push(2, EDITED, [ANSWER], {}))))
  {
    assert OVERTAKEN[0] == Commit("e", 1, Some(0)) && [] + [ANSWER] == [ANSWER];
  }

  const UNPUSHED := Row("e", 0, Some(MUTATION))
  const STALE_DROP := PUSH_OWN + [RowRead("e"), BatchApplied, PushFinish, RowDropped(UNPUSHED)]

  /** A reconcile or a recorded delete reads the row of an entry that has no revision yet, the first push of the entry is
      answered, and then the row is dropped. */
  lemma StaleDropSkipsAChange()
    ensures SkipsAChange(STALE_DROP)
  {
    var states, events := PushOwn();
    var s1 := ANSWERED.(rows := {UNPUSHED});
    var s2 := s1.(stored := map["e" := 1], taken := map["e" := 1], pending := map[],
                  push := Some(Push(0, map[], [], {1})));
    var s3 := s2.(cursor := 1, push := None);
    StaleDropSteps(s1, s2, s3);
    LogFacts();
    assert Forgotten(s3.(stored := map[]));
    hide Run, Leads, Forgotten, Raise;
    states, events := ExtendRun(states, events, RowRead("e"), s1);
    states, events := ExtendRun(states, events, BatchApplied, s2);
    states, events := ExtendRun(states, events, PushFinish, s3);
    states, events := ExtendRun(states, events, RowDropped(UNPUSHED), s3.(stored := map[]));
    assert events == STALE_DROP;
  }

  lemma StaleDropSteps(s1: State, s2: State, s3: State)
    requires s1 == ANSWERED.(rows := {UNPUSHED})
    requires s2 == s1.(stored := map["e" := 1], taken := map["e" := 1], pending := map[],
                       push := Some(Push(0, map[], [], {1})))
    requires s3 == s2.(cursor := 1, push := None)
    ensures Leads(ANSWERED, RowRead("e"), s1) && Leads(s1, BatchApplied, s2) && Leads(s2, PushFinish, s3)
    ensures Leads(s3, RowDropped(UNPUSHED), s3.(stored := map[]))
  {
    WriteStep(s1, 0);
    FinishStep(s2, 0);
    assert Leads(s1, BatchApplied, s2) && Leads(s2, PushFinish, s3);
  }

  const OLD_ROW := Row("e", 1, None)
  const STALE_WRITE := PUSH_OWN + [BatchApplied, PushFinish, RowRead("e"), OtherCommit("e")] + PullOfNewer(Drops)
                       + [RowWritten(OLD_ROW, Cleared)]

  /** Applying config files again reads a row, a pull takes a newer state of the entry over, and then the row is
      written back. */
  lemma StaleWriteSkipsAChange()
    ensures SkipsAChange(STALE_WRITE)
  {
    var states, events := StoreOwn();
    var s1 := WRITTEN.(rows := {OLD_ROW});
    CommitOfOther(s1);
    var s2 := s1.(log := OVERTAKEN);
    var s3 := WithNewer(s2, Drops).(cursor := 2);
    StaleWriteSteps(s3);
    LogFacts();
    assert Forgotten(s3.(stored := map["e" := 1]));
    hide Run, Leads, Forgotten, WithNewer, PullOfNewer;
    states, events := ExtendRun(states, events, RowRead("e"), s1);
    states, events := ExtendRun(states, events, OtherCommit("e"), s2);
    states, events := PullNewer(states, events, s2, Drops);
    states, events := ExtendRun(states, events, RowWritten(OLD_ROW, Cleared), s3.(stored := map["e" := 1]));
    assert events == STALE_WRITE;
  }

  lemma StaleWriteSteps(s: State)
    requires s.rows == {OLD_ROW} && s.stored["e" := 1] == map["e" := 1] && s.pending == map[]
    ensures Leads(WRITTEN, RowRead("e"), WRITTEN.(rows := {OLD_ROW}))
    ensures Leads(s, RowWritten(OLD_ROW, Cleared), s.(stored := map["e" := 1]))
  {
  }

  lemma StoreOwn() returns (states: seq<State>, events: seq<Event>)
    ensures Run(states, events, 1) && FreshClient(states[0]) && states[|events|] == WRITTEN
    ensures events == PUSH_OWN + [BatchApplied, PushFinish]
  {
    states, events := PushOwn();
    var s := WRITTEN.(cursor := 0, push := Some(Push(0, map[], [], {1})));
    WriteStep(ANSWERED, 0);
    FinishStep(s, 0);
    hide Run, Leads;
    states, events := ExtendRun(states, events, BatchApplied, s);
    states, events := ExtendRun(states, events, PushFinish, WRITTEN);
  }

  const OVERLAP := PUSH_OWN + [OtherCommit("e")] + PullOfNewer(Drops) + [BatchApplied, PushFinish]

  /** A pull beside the drain loop, as restoring a version of another file starts one (its own commit is left out here),
      overtakes a push: the answer is written over the newer revision behind the cursor, and the end of the push then moves
      the cursor back. */
  lemma OverlapMovesTheCursorBack()
    ensures exists states: seq<State> ::
      && Run(states, OVERLAP, 1) && FreshClient(states[0])
      && !Promise(states[|OVERLAP| - 1], "e") && states[|OVERLAP|].cursor < states[|OVERLAP| - 1].cursor
  {
    var states, events := PushOwn();
    var s1 := ANSWERED.(log := OVERTAKEN);
    var s2 := WithNewer(s1, Drops).(cursor := 2);
    var s3 := s2.(stored := map["e" := 1], push := Some(Push(0, map[], [], {1})));
    OverlapSteps(s2, s3);
    assert !Promise(s3, "e") by { LogFacts(); }
    hide Run, Leads, Promise, WithNewer, PullOfNewer, Raise;
    states, events := ExtendRun(states, events, OtherCommit("e"), s1);
    states, events := PullNewer(states, events, s1, Drops);
    states, events := ExtendRun(states, events, BatchApplied, s3);
    states, events := ExtendRun(states, events, PushFinish, s3.(cursor := 1, push := None));
    assert events == OVERLAP;
  }

  lemma OverlapSteps(s2: State, s3: State)
    requires s2 == WithNewer(ANSWERED.(log := OVERTAKEN), Drops).(cursor := 2)
    requires s3 == s2.(stored := map["e" := 1], push := Some(Push(0, map[], [], {1})))
    ensures Leads(ANSWERED, OtherCommit("e"), ANSWERED.(log := OVERTAKEN))
    ensures Leads(s2, BatchApplied, s3) && Leads(s3, PushFinish, s3.(cursor := 1, push := None))
  {
    CommitOfOther(ANSWERED);
    assert s2.pending == map[];
    WriteStep(s2, 0);
    assert s2.taken == Raise(s2.taken, "e", 1) && s2.stored["e" := 1] == map["e" := 1];
    FinishStep(s3, 0);
    hide Leads;
  }
}

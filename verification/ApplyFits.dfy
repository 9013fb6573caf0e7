/**
 When the store takes the rows of the plans: which entries hold the path of a plan, how the planner finds them, and the one
 kind of owner it does not find.
 */
module ApplyFits {
  import opened Common
  import opened EntryRecords
  import opened EntryStore
  import Writers = SyncStoreClass
  import Planner
  import Outcomes = PlannerOutcome

  predicate IsLocallyAt(record: EntryRecord, path: Path) {
    record.local.Some? && !record.local.value.deleted && record.local.value.path == Some(path)
  }

  predicate IsRemotelyAt(record: EntryRecord, path: Path) {
    record.remote.Some? && !record.remote.value.deleted && record.remote.value.path == Some(path)
  }

  /** The entry is visible at this path, locally or on the server. */
  ghost predicate HoldsPath(entries: Entries, id: EntryId, path: Path) {
    id in entries && path != "" && (IsLocallyAt(entries[id], path) || IsRemotelyAt(entries[id], path))
  }

  /** The store refuses the row of a plan if and only if another entry holds its visible path. */
  lemma RowRefusedExactly(entries: Entries, row: EntryRow)
    ensures Perform(entries, UpsertEntry(row)).None? <==>
      !row.deleted && row.path.Some? && exists id :: id != row.entryId && HoldsPath(entries, id, row.path.value)
  {
    var record := RowOf(row);
    forall id | id in entries
      ensures (RemoteKey(record).Some? && RemoteKey(entries[id]) == RemoteKey(record))
           || (LocalKey(record).Some? && LocalKey(entries[id]) == LocalKey(record))
        <==> !row.deleted && row.path.Some? && HoldsPath(entries, id, row.path.value)
    {
    }
    hide RowOf, RemoteKey, LocalKey, HoldsPath;
  }

  /** A row without a path is never refused, so giving paths up always succeeds. */
  lemma FreeingFits(entries: Entries, row: EntryRow)
    requires row.path.None? || row.deleted
    ensures Perform(entries, UpsertEntry(row)).Some?
  {
  }

  // ---------------------------------------------------------------- how the planner finds an owner

  /** The path is the entry's on the server only: locally the entry is known under another path, or another one is there. */
  ghost predicate IsHidden(entries: Entries, id: EntryId, path: Path) {
    && id in entries && IsRemotelyAt(entries[id], path) && !IsLocallyAt(entries[id], path)
    && ((entries[id].local.Some? && entries[id].local.value.path != Some(path))
        || exists other :: other in entries && IsLocallyAt(entries[other], path))
  }

  /** Looking up a path finds exactly the entry that holds it and is not hidden. */
  lemma FoundExactly(entries: Entries, history: History, path: Path, id: EntryId)
    requires Invariant(entries, history) && path != ""
    ensures Planner.GetEntryByPath(entries, path).Some? && Planner.GetEntryByPath(entries, path).value.entryId == id <==>
      HoldsPath(entries, id, path) && !IsHidden(entries, id, path)
  {
    forall k | k in entries
      ensures (Planner.OwnsLocally(entries, k, path) <==> IsLocallyAt(entries[k], path))
        && (Planner.OwnsRemotely(entries, k, path) <==> IsRemotelyAt(entries[k], path))
        && entries[k].entryId == k
    {
      assert GoodRecord(history, k, entries[k]);
    }
    FoundByKeys(entries, path);
    OneLocalOwner(entries, path);
    hide GoodRecord, LocalKey, RemoteKey, IsLocallyAt, IsRemotelyAt, UniquePaths, Planner.GetEntryByPath;
    if k :| Planner.OwnsLocally(entries, k, path) {
      assert k in entries && IsLocallyAt(entries[k], path);
    } else if k :| Planner.OwnsRemotely(entries, k, path) {
      assert k in entries && IsRemotelyAt(entries[k], path);
    }
  }

  lemma OneLocalOwner(entries: Entries, path: Path)
    requires UniquePaths(entries)
    ensures forall a, b | Planner.OwnsLocally(entries, a, path) && Planner.OwnsLocally(entries, b, path) :: a == b
    ensures forall a, b | Planner.OwnsRemotely(entries, a, path) && Planner.OwnsRemotely(entries, b, path) :: a == b
  {
  }

  lemma FoundByKeys(entries: Entries, path: Path)
    requires forall k | k in entries :: entries[k].entryId == k
    requires UniquePaths(entries)
    ensures forall id :: Planner.OwnsLocally(entries, id, path) ==>
      Planner.GetEntryByPath(entries, path).Some? && Planner.GetEntryByPath(entries, path).value.entryId == id
    ensures forall id :: (forall k :: !Planner.OwnsLocally(entries, k, path)) && Planner.OwnsRemotely(entries, id, path) ==>
      if entries[id].local.Some? && entries[id].local.value.path != Some(path)
      then Planner.GetEntryByPath(entries, path).None?
      else Planner.GetEntryByPath(entries, path).Some? && Planner.GetEntryByPath(entries, path).value.entryId == id
    ensures (forall k :: !Planner.OwnsLocally(entries, k, path) && !Planner.OwnsRemotely(entries, k, path)) ==>
      Planner.GetEntryByPath(entries, path).None?
  {
    forall id | Planner.OwnsLocally(entries, id, path)
      ensures Planner.GetEntryByPath(entries, path).Some? && Planner.GetEntryByPath(entries, path).value.entryId == id
    {
      assert forall k | Planner.OwnsLocally(entries, k, path) :: k == id;
    }
    forall id | (forall k :: !Planner.OwnsLocally(entries, k, path)) && Planner.OwnsRemotely(entries, id, path)
      ensures if entries[id].local.Some? && entries[id].local.value.path != Some(path)
        then Planner.GetEntryByPath(entries, path).None?
        else Planner.GetEntryByPath(entries, path).Some? && Planner.GetEntryByPath(entries, path).value.entryId == id
    {
      assert forall k | Planner.OwnsRemotely(entries, k, path) :: k == id;
    }
  }

  // ---------------------------------------------------------------- what becomes of the owners

  /** In a final window, whoever holds the path of a plan is hidden, or is dealt with: it is the plan's own entry, the plan
      takes it over or takes its path away, it is planned itself and leaves the path, or it was reported as a rollback. */
  lemma OwnersAreDealtWith(entries: Entries, history: History, env: Planner.Env, manifest: seq<Planner.Item>,
      plan: Planner.Plan, id: EntryId)
    requires Invariant(entries, history) && env.store == Planner.View(entries)
    requires Planner.Distinct(manifest) && Planner.NamedIds(manifest) && Planner.NoManagedCopies(env)
    requires Planner.PlanSpec(env, manifest, false).Ok? && plan in Planner.PlanSpec(env, manifest, false).value.plans
    requires plan.finalPath.Some? && plan.conflict.None? && plan.finalPath.value != ""
    requires HoldsPath(entries, id, plan.finalPath.value)
    ensures var path, r := plan.finalPath, Planner.PlanSpec(env, manifest, false).value;
      || IsHidden(entries, id, path.value)
      || id == plan.item.state.entryId
      || (plan.adopted.Some? && plan.adopted.value.entry.entryId == id)
      || (plan.displaced.Some? && plan.displaced.value.entryId == id)
      || (exists item :: item in r.rolledBack && item.state.entryId == id)
      || (exists other :: other in r.plans && other.item.state.entryId == id && other.finalPath != path
            && other.existing.Some? && other.existing.value.entryId == id)
  {
    var path, r := plan.finalPath.value, Planner.PlanSpec(env, manifest, false).value;
    Planner.PlansAreSound(env, manifest, false, plan);
    FoundExactly(entries, history, path, id);
    Planner.LiveTargetsAreDistinct(env, manifest, false);
    hide Invariant, HoldsPath, IsHidden, Planner.PlanSpec, Planner.GetEntryByPath, Planner.Active, Planner.WindowFor;
    assert path == plan.item.metadata.path;
    if !IsHidden(entries, id, path) && id != plan.item.state.entryId && plan.adopted.None? && plan.displaced.None? {
      assert env.store.byPath(path).Some? && env.store.byPath(path).value.entryId == id;
      Planner.FinalWindowOwnersMove(env, manifest, plan);
      if item: Planner.Item :| item.state.entryId == id && item in Planner.ItemsOf(r.plans) {
        OwnerLeaves(entries, env, manifest, plan, item, id);
      }
    }
  }

  lemma OwnerLeaves(entries: Entries, env: Planner.Env, manifest: seq<Planner.Item>, plan: Planner.Plan, item: Planner.Item,
      id: EntryId)
    requires Planner.PlanSpec(env, manifest, false).Ok? && plan in Planner.PlanSpec(env, manifest, false).value.plans
    requires Planner.DistinctTargets(Planner.PlanSpec(env, manifest, false).value.plans)
    requires item in Planner.ItemsOf(Planner.PlanSpec(env, manifest, false).value.plans) && item.state.entryId == id
    requires id != plan.item.state.entryId && env.store == Planner.View(entries) && id in entries
    requires plan.finalPath.Some? && forall k | k in entries :: entries[k].entryId == k
    requires ToCombinedRow(entries[id]).Some?
    ensures exists other ::
      && other in Planner.PlanSpec(env, manifest, false).value.plans && other.item.state.entryId == id
      && other.finalPath != plan.finalPath && other.existing.Some? && other.existing.value.entryId == id
  {
    var plans := Planner.PlanSpec(env, manifest, false).value.plans;
    Outcomes.PlannedItems(plans, item);
    var k :| 0 <= k < |plans| && plans[k].item == item;
    var i :| 0 <= i < |plans| && plans[i] == plan;
    Planner.PlansAreSound(env, manifest, false, plans[k]);
    hide Planner.PlanSpec, Planner.Active, Planner.WindowFor, Planner.ItemsOf;
    assert plans[k] in plans && i != k;
    assert plans[k].existing == GetEntryById(entries, id);
  }

  // ---------------------------------------------------------------- a hidden owner

  const PULLED := EntryRow("a", Some("x"), 1, Some("blob"), Some("hash"), false, 0, None, None)

  /** The file of entry `a`, pulled at `x`, is found at `y` by a reconcile run. */
  const MOVED := LocalRow("a", Some("y"), Some("blob"), Some("hash"), false, 0, None, None)

  function Rename(): Mutation {
    BuildLocalUpsert("y", "a", Some(Content(1, false, Some("blob"), Some("hash"))), None, "hash", "m", "fresh", 0)
  }

  function Renaming(): Write { Write.Reconcile([Update("a", Some(MOVED), Some(Rename()), false, false)]) }

  function Renamed(): EntryRecord { ToDirty(RowOf(PULLED), Rename()).(local := Some(MOVED)) }

  /** Another client has moved the entry on and put a new file at `x`. */
  const NEWCOMER := Planner.Item(Planner.State.State("b", 1, Some("other"), false, 8, 0), Metadata("x", Some("content")))

  lemma RenamedStore()
    ensures Writers.LegalWrites(map[], [UpsertEntry(PULLED), Renaming()])
    ensures Writers.PerformAll(map[], [UpsertEntry(PULLED), Renaming()]) == map["a" := Renamed()]
  {
    var first, both := [UpsertEntry(PULLED)], [UpsertEntry(PULLED), Renaming()];
    assert both[..1] == first && first[..0] == [];
    assert Perform(map[], UpsertEntry(PULLED)) == Some(map["a" := RowOf(PULLED)]);
    var updates := Renaming().updates;
    assert updates[..0] == [];
    assert ReconcileAll(map["a" := RowOf(PULLED)], []) == Some(map["a" := RowOf(PULLED)]);
    assert LegalUpdates(map[], updates);
    assert Normalize(Rename()) == Rename() && Updated(RowOf(PULLED), updates[0]) == Renamed();
    assert !Collides(map["a" := RowOf(PULLED)], Renamed());
    assert map["a" := RowOf(PULLED)]["a" := Renamed()] == map["a" := Renamed()];
    assert ReconcileOne(map["a" := RowOf(PULLED)], updates[0]) == Some(map["a" := Renamed()]);
    assert |updates| == 1 && ReconcileAll(map["a" := RowOf(PULLED)], updates) == Some(map["a" := Renamed()]);
    assert Writers.PerformAll(map[], []) == map[];
    assert Writers.AfterAll(map[], first) == map[];
  }

  /** It happens: the store after a pull and a local rename is one any client can have; the planner lets a pulled file go to
      the old path, since it finds no owner there, and the store refuses the row, whatever else it says. */
  lemma RenamedFileKeepsItsOldPath(env: Planner.Env, row: EntryRow)
    requires env.store == Planner.View(Writers.PerformAll(map[], [UpsertEntry(PULLED), Renaming()]))
    requires env.shouldApply("x", false) && !env.managed("x")
    requires row.entryId == "b" && row.path == Some("x") && !row.deleted
    ensures Writers.LegalWrites(map[], [UpsertEntry(PULLED), Renaming()])
    ensures var entries := Writers.PerformAll(map[], [UpsertEntry(PULLED), Renaming()]);
      && IsHidden(entries, "a", "x")
      && Planner.PlanSpec(env, [NEWCOMER], false) ==
           Ok(Planner.Planned.Planned(
             [Planner.Plan.Plan(NEWCOMER, None, None, None, Some("x"), Some("content"), None, None)], [], [], [], []))
      && Perform(entries, UpsertEntry(row)).None?
  {
    RenamedStore();
    var entries := map["a" := Renamed()];
    assert HoldsPath(entries, "a", "x");
    RowRefusedExactly(entries, row);
    assert Planner.GetEntryByPath(entries, "x").None? && GetEntryById(entries, "b").None?;
    NewcomerIsPlanned(env);
  }

  lemma NewcomerIsPlanned(env: Planner.Env)
    requires env.shouldApply("x", false) && !env.managed("x")
    requires env.store.byPath("x").None? && env.store.byId("b").None?
    ensures Planner.PlanSpec(env, [NEWCOMER], false) ==
      Ok(Planner.Planned.Planned(
        [Planner.Plan.Plan(NEWCOMER, None, None, None, Some("x"), Some("content"), None, None)], [], [], [], []))
  {
    var manifest := [NEWCOMER];
    assert manifest[..0] == [] && Planner.FirstProblem(manifest).None?;
    Planner.WinnerIsNewest(env, manifest, "x");
    assert Planner.Accepts(env)(NEWCOMER) && !Planner.Loses(env, manifest, NEWCOMER);
    assert !Planner.IsRollback(env, NEWCOMER);
    OneIsSelected(manifest, Planner.Accepts(env));
    OneIsSelected(manifest, Planner.Stays(env, manifest));
    OneIsSelected(manifest, Planner.Skips(env));
    OneIsSelected(manifest, Planner.RefusesRejected(env));
    OneIsSelected(manifest, Planner.Supersedes(env, manifest));
    OneIsSelected(manifest, Planner.RefusesLoser(env, manifest));
    assert Planner.Active(env, manifest) == manifest;
    Planner.ThresholdIsSmallest(manifest, {});
    hide Planner.Active, Planner.Select, Planner.Threshold;
    var w := Planner.WindowFor(env, manifest, false);
    assert w.threshold.None? && !Planner.OwnedOutside(env, NEWCOMER, w.moving);
    var plan := Planner.LivePlan(env, w, 0, map[], NEWCOMER);
    assert plan == Planner.Plan.Plan(NEWCOMER, None, None, None, Some("x"), Some("content"), None, None);
    var start := Planner.Progress.Progress([], [], [], map[]);
    assert start.plans + [plan] == [plan];
    assert Planner.PlanOne(env, w, 0, start, NEWCOMER) ==
      Ok(start.(plans := [plan], reserved := start.reserved["x" := "b"]));
    assert Planner.PlanAll(env, w, []) == Ok(start);
    assert Planner.PlanAll(env, w, manifest) == Planner.PlanOne(env, w, 0, start, NEWCOMER);
  }

  lemma OneIsSelected(manifest: seq<Planner.Item>, keep: Planner.Item -> bool)
    requires |manifest| == 1
    ensures Planner.Select(manifest, keep) == if keep(manifest[0]) then manifest else []
  {
    assert manifest[..0] == [] && manifest == [manifest[0]];
  }
}

/**
 What planning a window comes to, told by the store, the rules and the lists of the plan alone: which items are
 refused, skipped or superseded, where each planned item goes, what it adopts, displaces or moves.
 */
module PlannerOutcome {
  import opened Common
  import opened EntryRecords
  import opened Planner
  import Files = FileRules

  // ---------------------------------------------------------------- refused, skipped, superseded

  ghost predicate IsPlanned(r: Planned, item: Item) { exists k :: 0 <= k < |r.plans| && r.plans[k].item == item }

  lemma PlannedItems(plans: seq<Plan>, item: Item)
    ensures item in ItemsOf(plans) <==> exists k :: 0 <= k < |plans| && plans[k].item == item
  {
    if plans != [] {
      var init, last := plans[..|plans| - 1], plans[|plans| - 1];
      PlannedItems(init, item);
      if k :| 0 <= k < |plans| && plans[k].item == item {
        assert k < |init| ==> init[k] == plans[k];
      }
      if k :| 0 <= k < |init| && init[k].item == item {
        assert plans[k].item == item;
      }
    }
  }

  /** Each item of the manifest is in one of the lists, and nothing else is. */
  lemma ListedExactly(env: Env, manifest: seq<Item>, defers: bool, item: Item)
    requires PlanSpec(env, manifest, defers).Ok?
    ensures var r := PlanSpec(env, manifest, defers).value;
      item in manifest <==>
        IsPlanned(r, item) || item in r.deferred || item in r.superseded || item in r.skipped || item in r.rolledBack
  {
    var r := PlanSpec(env, manifest, defers).value;
    ManifestIsPartitioned(env, manifest, defers);
    PlannedItems(r.plans, item);
    hide PlanSpec;
    assert item in manifest <==> item in multiset(manifest);
  }

  /** A reported rollback is below the revision of its stored row. An item with such a row is neither planned, superseded
      nor skipped: it is reported unless it waits. An item at or above its row is never reported. */
  lemma RefusedExactly(env: Env, manifest: seq<Item>, defers: bool, item: Item)
    requires PlanSpec(env, manifest, defers).Ok?
    ensures var r, row := PlanSpec(env, manifest, defers).value, env.store.byId(item.state.entryId);
      var newer := row.Some? && 0 < row.value.revision && item.state.revision < row.value.revision;
      && (item in r.rolledBack ==> newer && item in manifest)
      && (newer ==> !IsPlanned(r, item) && item !in r.superseded && item !in r.skipped)
      && (newer && item in manifest && item !in r.deferred ==> item in r.rolledBack)
  {
    var accepted, active := Select(manifest, Accepts(env)), Active(env, manifest);
    var w, r := WindowFor(env, active, defers), PlanSpec(env, manifest, defers).value;
    ListedExactly(env, manifest, defers, item);
    SelectContains(manifest, Skips(env), item);
    SelectContains(manifest, RefusesRejected(env), item);
    SelectContains(accepted, Supersedes(env, accepted), item);
    SelectContains(accepted, RefusesLoser(env, accepted), item);
    if IsPlanned(r, item) {
      var k :| 0 <= k < |r.plans| && r.plans[k].item == item;
      PlansAreSound(env, manifest, defers, r.plans[k]);
    }
    if item in PlanAll(env, w, active).value.rolledBack {
      RefusedAreRollbacks(env, w, active, item);
    }
  }

  /** Exactly the items are skipped whose path is not applied here, unless their stored row is newer. */
  lemma SkippedExactly(env: Env, manifest: seq<Item>, defers: bool, item: Item)
    requires PlanSpec(env, manifest, defers).Ok?
    ensures var row := env.store.byId(item.state.entryId);
      item in PlanSpec(env, manifest, defers).value.skipped <==>
        && item in manifest && !env.shouldApply(item.metadata.path, item.state.deleted)
        && !(row.Some? && 0 < row.value.revision && item.state.revision < row.value.revision)
  {
    SelectContains(manifest, Skips(env), item);
  }

  /** `winner` is a live item of the manifest that is applied here and names the managed path, and no other one is newer:
      none has a larger number, nor the same number and an id further back in the order of strings. */
  ghost predicate WinsPath(env: Env, manifest: seq<Item>, winner: Item, path: Path) {
    && env.managed(path) && Claims(env, manifest, winner, path)
    && forall other | other in manifest && Claims(env, manifest, other, path) ::
         other.state.updatedSeq < winner.state.updatedSeq
         || (other.state.updatedSeq == winner.state.updatedSeq && !After(other.state.entryId, winner.state.entryId))
  }

  ghost predicate Claims(env: Env, manifest: seq<Item>, item: Item, path: Path) {
    item in manifest && !item.state.deleted && item.metadata.path == path && env.shouldApply(path, false)
  }

  lemma WinnerWins(env: Env, manifest: seq<Item>, path: Path)
    ensures var winner := Winner(env, Select(manifest, Accepts(env)), path);
      && (winner.Some? ==> WinsPath(env, manifest, winner.value, path))
      && forall other | WinsPath(env, manifest, other, path) ::
           winner.Some? && winner.value.state.entryId == other.state.entryId
  {
    var accepted := Select(manifest, Accepts(env));
    WinnerIsNewest(env, accepted, path);
    forall item ensures item in accepted <==> item in manifest && Applies(env, item) {
      SelectContains(manifest, Accepts(env), item);
    }
    var winner := Winner(env, accepted, path);
    forall other | WinsPath(env, manifest, other, path) ensures winner.Some? && winner.value.state.entryId == other.state.entryId {
      assert other in accepted && Contends(env, other, path);
      AfterIsTotal(winner.value.state.entryId, other.state.entryId);
    }
    if winner.Some? {
      forall other | other in manifest && Claims(env, manifest, other, path)
        ensures other.state.updatedSeq < winner.value.state.updatedSeq
          || (other.state.updatedSeq == winner.value.state.updatedSeq && !After(other.state.entryId, winner.value.state.entryId))
      {
        assert other in accepted && Contends(env, other, path);
      }
    }
  }

  /** Exactly the items are superseded that are applied here, are not older than their row, and name a managed path that an
      item of another entry wins. */
  lemma SupersededExactly(env: Env, manifest: seq<Item>, defers: bool, item: Item)
    requires PlanSpec(env, manifest, defers).Ok? && NamedIds(manifest)
    ensures var row := env.store.byId(item.state.entryId);
      item in PlanSpec(env, manifest, defers).value.superseded <==>
        && item in manifest && env.shouldApply(item.metadata.path, item.state.deleted)
        && !(row.Some? && 0 < row.value.revision && item.state.revision < row.value.revision)
        && exists winner :: WinsPath(env, manifest, winner, item.metadata.path) && winner.state.entryId != item.state.entryId
  {
    var accepted := Select(manifest, Accepts(env));
    SelectContains(accepted, Supersedes(env, accepted), item);
    SelectContains(manifest, Accepts(env), item);
    WinnerWins(env, manifest, item.metadata.path);
    var winner := Winner(env, accepted, item.metadata.path);
    assert winner.Some? ==> winner.value in manifest && WinsPath(env, manifest, winner.value, item.metadata.path);
    hide WinsPath, Winner;
  }

  /** The items that take part in planning: applied here, and not beaten for a managed path. */
  lemma ActiveExactly(env: Env, manifest: seq<Item>, item: Item)
    requires NamedIds(manifest)
    ensures item in Active(env, manifest) <==>
      && item in manifest && env.shouldApply(item.metadata.path, item.state.deleted)
      && forall winner | WinsPath(env, manifest, winner, item.metadata.path) :: winner.state.entryId == item.state.entryId
  {
    var accepted := Select(manifest, Accepts(env));
    SelectContains(accepted, Stays(env, accepted), item);
    SelectContains(manifest, Accepts(env), item);
    WinnerWins(env, manifest, item.metadata.path);
    var winner := Winner(env, accepted, item.metadata.path);
    assert winner.Some? ==> winner.value in manifest && WinsPath(env, manifest, winner.value, item.metadata.path);
    hide WinsPath, Winner;
  }

  /** The order that breaks ties: by the first code unit that differs, and a proper prefix comes first. */
  lemma AfterIsLexicographic(a: string, b: string)
    ensures After(a, b) <==> exists n: nat ::
      && n < |a| && n <= |b| && a[..n] == b[..n] && (n == |b| || b[n] < a[n])
  {
    if a != "" && b != "" && a[0] == b[0] {
      AfterIsLexicographic(a[1..], b[1..]);
      if n: nat :| n < |a[1..]| && n <= |b[1..]| && a[1..][..n] == b[1..][..n] && (n == |b[1..]| || b[1..][n] < a[1..][n]) {
        assert a[..n + 1] == [a[0]] + a[1..][..n] && b[..n + 1] == [b[0]] + b[1..][..n];
      }
      if n: nat :| n < |a| && n <= |b| && a[..n] == b[..n] && (n == |b| || b[n] < a[n]) {
        assert n > 0;
        assert a[1..][..n - 1] == a[..n][1..] && b[1..][..n - 1] == b[..n][1..];
      }
    } else if a != "" {
      assert a[..0] == b[..0];
      if n: nat :| n < |a| && n <= |b| && a[..n] == b[..n] && (n == |b| || b[n] < a[n]) {
        assert n > 0 ==> a[..n][0] == b[..n][0];
      }
    }
  }

  // ---------------------------------------------------------------- what a manifest is refused for

  /** A live item needs a blob and a hash, a deletion has no hash. */
  predicate Wellformed(item: Item) {
    if item.state.deleted then item.metadata.hash.None?
    else item.state.blobId.Some? && item.state.blobId.value != "" && item.metadata.hash.Some? && item.metadata.hash.value != ""
  }

  lemma ProblemsExactly(manifest: seq<Item>)
    ensures FirstProblem(manifest).None? <==> forall item | item in manifest :: Wellformed(item)
  {
    if manifest != [] {
      var init, last := manifest[..|manifest| - 1], manifest[|manifest| - 1];
      ProblemsExactly(init);
      assert manifest == init + [last];
      assert Problem(last).None? <==> Wellformed(last);
      assert forall item | item in init :: item in manifest;
    }
  }

  /** The manifest is planned if and only if every item is well formed and every live item that is reached has a target. */
  lemma RefusedManifest(env: Env, manifest: seq<Item>, defers: bool)
    ensures PlanSpec(env, manifest, defers).Ok? ==> forall item | item in manifest :: Wellformed(item)
    ensures PlanSpec(env, manifest, defers).Ok? ==>
      forall plan | plan in PlanSpec(env, manifest, defers).value.plans :: plan.finalPath != Some("")
    ensures (forall item | item in manifest :: Wellformed(item) && (item.state.deleted || item.metadata.path != ""))
      ==> PlanSpec(env, manifest, defers).Ok?
  {
    ProblemsExactly(manifest);
    var active := Active(env, manifest);
    var w := WindowFor(env, active, defers);
    forall plan | PlanAll(env, w, active).Ok? && plan in PlanAll(env, w, active).value.plans ensures plan.finalPath != Some("") {
      TargetIsNotEmpty(env, w, active, plan);
    }
    if forall item | item in manifest :: item.state.deleted || item.metadata.path != "" {
      forall item | item in active ensures item in manifest {
        var accepted := Select(manifest, Accepts(env));
        SelectContains(accepted, Stays(env, accepted), item);
        SelectContains(manifest, Accepts(env), item);
      }
      PlanAllSucceeds(env, w, active);
    }
    hide Active, WindowFor;
  }

  lemma TargetIsNotEmpty(env: Env, w: Window, items: seq<Item>, plan: Plan)
    requires PlanAll(env, w, items).Ok? && plan in PlanAll(env, w, items).value.plans
    ensures plan.finalPath != Some("")
  {
    var init := items[..|items| - 1];
    if plan in PlanAll(env, w, init).value.plans {
      TargetIsNotEmpty(env, w, init, plan);
    }
  }

  lemma {:induction false} PlanAllSucceeds(env: Env, w: Window, items: seq<Item>)
    requires forall item | item in items && !item.state.deleted :: item.metadata.path != ""
    ensures PlanAll(env, w, items).Ok?
  {
    if items != [] {
      var init, item := items[..|items| - 1], items[|items| - 1];
      PlanAllSucceeds(env, w, init);
      assert item in items;
      var reserved := PlanAll(env, w, init).value.reserved;
      CollisionPathIsFree(env, reserved, item.metadata.path, |init|);
      assert CollisionPath(env, reserved, item.metadata.path, |init|) != "" by {
        var k, n: nat :| CollisionPath(env, reserved, item.metadata.path, |init|)
          == Files.BuildConflictCopyPath(item.metadata.path, env.clock(k), n);
        assert |Files.BuildConflictCopyPath(item.metadata.path, env.clock(k), n)| >= |Files.MARK|;
      }
      hide CollisionPath, OwnedOutside, IsRollback;
    }
  }

  // ---------------------------------------------------------------- one plan

  /** The plan at `k` is that of some item, made with the earlier plans as the reservations. */
  lemma {:induction false} PlanAt(env: Env, w: Window, items: seq<Item>, k: nat) returns (n: nat, before: Progress)
    requires PlanAll(env, w, items).Ok? && k < |PlanAll(env, w, items).value.plans|
    ensures n < |items| && before.plans == PlanAll(env, w, items).value.plans[..k]
    ensures PlanAll(env, w, items[..n]) == Ok(before)
    ensures !Late(items[n], w.threshold)
    ensures PlanAll(env, w, items).value.plans[k] ==
      if items[n].state.deleted then DeletedPlan(env, items[n]) else LivePlan(env, w, n, before.reserved, items[n])
  {
    var init, last := items[..|items| - 1], items[|items| - 1];
    var earlier, after := PlanAll(env, w, init).value, PlanAll(env, w, items).value;
    PlanOneAppends(env, w, |init|, earlier, last);
    if k < |earlier.plans| {
      n, before := PlanAt(env, w, init, k);
      assert init[..n] == items[..n] && after.plans[..k] == earlier.plans[..k] && after.plans[k] == earlier.plans[k];
    } else {
      n, before := |init|, earlier;
      assert items[..n] == init && after.plans[..k] == earlier.plans;
    }
    hide LivePlan, DeletedPlan;
  }

  /** A path is reserved exactly when a plan made so far ends there, always under a non-empty id. */
  lemma {:induction false} ReservedExactly(env: Env, w: Window, items: seq<Item>, path: Path)
    requires PlanAll(env, w, items).Ok? && NamedIds(items)
    ensures var p := PlanAll(env, w, items).value;
      Reserved(p.reserved, path) <==> exists j :: 0 <= j < |p.plans| && p.plans[j].finalPath == Some(path)
  {
    if items != [] {
      var init, last := items[..|items| - 1], items[|items| - 1];
      ReservedExactly(env, w, init, path);
      var before, after := PlanAll(env, w, init).value, PlanAll(env, w, items).value;
      PlanOneAppends(env, w, |init|, before, last);
      assert last in items;
      assert forall j | 0 <= j < |before.plans| :: after.plans[j] == before.plans[j];
      if |after.plans| > |before.plans| && after.plans[|before.plans|].finalPath == Some(path) {
        assert Reserved(after.reserved, path);
      }
      hide LivePlan, DeletedPlan, OwnedOutside, IsRollback;
    }
  }

  /** Which purely local entry a pulled live item takes over: the one that owns its path, has never been accepted, and
      has a pending upsert that names the path. */
  ghost predicate IsAdopted(env: Env, item: Item, adopted: Option<Adoption>) {
    var path := item.metadata.path;
    var owner := env.store.byPath(path);
    var pending := if owner.Some? then env.store.dirty(owner.value.entryId) else None;
    var content := if pending.Some? then Open(pending.value.metadata, MutationContext(pending.value)) else None;
    && (adopted.Some? <==>
          && owner.Some? && owner.value.entryId != item.state.entryId && owner.value.revision == 0 && !owner.value.deleted
          && owner.value.path == Some(path) && pending.Some? && pending.value.op.Upsert?
          && content.Some? && content.value.path == path && content.value.hash.Some? && content.value.hash.value != "")
    && (adopted.Some? ==>
          && adopted.value.entry == owner.value && adopted.value.pending == pending.value
          && (adopted.value.hashMatches <==> content.value.hash == item.metadata.hash && owner.value.hash == item.metadata.hash))
  }

  /** Every plan: a live item adopts exactly the entry that may be adopted, with the hashes compared as they are; a
      deletion adopts nothing, goes nowhere and moves nothing. */
  lemma AdoptsExactly(env: Env, manifest: seq<Item>, defers: bool, k: nat)
    requires PlanSpec(env, manifest, defers).Ok? && k < |PlanSpec(env, manifest, defers).value.plans|
    ensures var plan := PlanSpec(env, manifest, defers).value.plans[k];
      && plan.existing == env.store.byId(plan.item.state.entryId)
      && (!plan.item.state.deleted ==> IsAdopted(env, plan.item, plan.adopted) && plan.hash == plan.item.metadata.hash)
      && (plan.item.state.deleted ==>
            plan.adopted.None? && plan.finalPath.None? && plan.conflict.None? && plan.displaced.None? && plan.vaultMove.None?
            && plan.hash.None?)
  {
    var active := Active(env, manifest);
    var w := WindowFor(env, active, defers);
    var n, before := PlanAt(env, w, active, k);
    LivePlanAdopts(env, w, n, before.reserved, active[n]);
    hide Active, WindowFor, PlanAll, LivePlan, IsAdopted;
  }

  lemma LivePlanAdopts(env: Env, w: Window, n: nat, reserved: map<Path, EntryId>, item: Item)
    ensures var plan := LivePlan(env, w, n, reserved, item);
      && plan.item == item && plan.existing == env.store.byId(item.state.entryId) && plan.hash == item.metadata.hash
      && IsAdopted(env, item, plan.adopted)
  {
    hide CollisionPath, OwnedOutside, Reserved, VaultMove;
  }

  /** Another plan has taken the path, or an entry that is neither moving along nor adopted owns it. */
  ghost predicate PathIsTaken(env: Env, moving: set<EntryId>, plans: seq<Plan>, plan: Plan) {
    var path := plan.item.metadata.path;
    var owner := env.store.byPath(path);
    || (exists j :: 0 <= j < |plans| && plans[j].finalPath == Some(path))
    || (owner.Some? && owner.value.entryId != plan.item.state.entryId && owner.value.entryId !in moving && plan.adopted.None?)
  }

  /** Where a live item goes: to its own path, unless that is taken and not managed; then it goes to a conflict name. A
      managed path is kept, and another entry that owns it is displaced if it is taken. */
  lemma TargetsExactly(env: Env, manifest: seq<Item>, defers: bool, k: nat)
    requires PlanSpec(env, manifest, defers).Ok? && k < |PlanSpec(env, manifest, defers).value.plans| && NamedIds(manifest)
    ensures var plans := PlanSpec(env, manifest, defers).value.plans;
      var plan, path := plans[k], plans[k].item.metadata.path;
      var owner, taken := env.store.byPath(path), PathIsTaken(env, MovingIds(env, manifest, defers), plans[..k], plans[k]);
      !plan.item.state.deleted ==>
        && (plan.conflict.Some? <==> taken && !env.managed(path))
        && (plan.conflict.Some? ==>
              && plan.conflict.value.entryId == plan.item.state.entryId && plan.conflict.value.originalPath == path
              && plan.finalPath == Some(plan.conflict.value.conflictPath))
        && (plan.conflict.None? ==> plan.finalPath == Some(path))
        && (plan.displaced.Some? <==>
              taken && env.managed(path) && owner.Some? && owner.value.entryId != plan.item.state.entryId)
        && (plan.displaced.Some? ==> plan.displaced == owner)
  {
    var active := Active(env, manifest);
    var w := WindowFor(env, active, defers);
    var n, before := PlanAt(env, w, active, k);
    ActiveAreNamed(env, manifest, n);
    ReservedExactly(env, w, active[..n], active[n].metadata.path);
    MovingAreMoving(env, manifest, defers);
    hide Active, WindowFor, CollisionPath, PlanAll, VaultMove, AdoptedBy, Reserved;
  }

  lemma ActiveAreNamed(env: Env, manifest: seq<Item>, n: nat)
    requires NamedIds(manifest) && n <= |Active(env, manifest)|
    ensures NamedIds(Active(env, manifest)[..n])
  {
    var accepted, active := Select(manifest, Accepts(env)), Active(env, manifest);
    forall item | item in active[..n] ensures item.state.entryId != "" {
      assert item in active;
      SelectContains(accepted, Stays(env, accepted), item);
      SelectContains(manifest, Accepts(env), item);
    }
  }

  /** The entries that move along: those of items that take part and come before every item that waits. */
  ghost function MovingIds(env: Env, manifest: seq<Item>, defers: bool): set<EntryId> {
    var active := Active(env, manifest);
    var waiting := if defers then DeferFrom(env, active, {}) else {};
    set item | item in active
      && (forall other | other in active && other.state.entryId in waiting :: item.state.updatedSeq < other.state.updatedSeq) ::
      item.state.entryId
  }

  lemma MovingAreMoving(env: Env, manifest: seq<Item>, defers: bool)
    ensures WindowFor(env, Active(env, manifest), defers).moving == MovingIds(env, manifest, defers)
  {
    var active := Active(env, manifest);
    var waiting := if defers then DeferFrom(env, active, {}) else {};
    ThresholdIsSmallest(active, waiting);
    forall item
      ensures item in Select(active, InTime(Threshold(active, waiting))) <==>
        && item in active
        && forall other | other in active && other.state.entryId in waiting :: item.state.updatedSeq < other.state.updatedSeq
    {
      SelectContains(active, InTime(Threshold(active, waiting)), item);
    }
    hide Active, DeferFrom;
  }

  /** A file is moved exactly when its entry has a clean live row of its own at another path whose file exists, the item
      goes to its own path, takes over no other entry, and no file is there. */
  lemma MovesExactly(env: Env, manifest: seq<Item>, defers: bool, k: nat)
    requires PlanSpec(env, manifest, defers).Ok? && k < |PlanSpec(env, manifest, defers).value.plans|
    ensures var plan := PlanSpec(env, manifest, defers).value.plans[k];
      var row := plan.existing;
      && (plan.vaultMove.Some? <==>
            && plan.finalPath.Some? && plan.conflict.None? && plan.adopted.None?
            && row.Some? && row.value.entryId == plan.item.state.entryId && !row.value.deleted
            && row.value.path.Some? && row.value.path.value != "" && row.value.path != plan.finalPath
            && env.store.dirty(plan.item.state.entryId).None?
            && row.value.path.value in env.vault && plan.finalPath.value !in env.vault)
      && (plan.vaultMove.Some? ==> plan.vaultMove == Some(Move(row.value.path.value, plan.finalPath.value)))
  {
    var active := Active(env, manifest);
    var n, before := PlanAt(env, WindowFor(env, active, defers), active, k);
    hide Active, WindowFor, CollisionPath, PlanAll, AdoptedBy, OwnedOutside;
  }

  // ---------------------------------------------------------------- who waits

  /** The path of a live item is not managed and is owned by another entry that does not move along and is not adopted. */
  ghost predicate IsObstructed(env: Env, moving: set<EntryId>, item: Item) {
    var owner := env.store.byPath(item.metadata.path);
    && !item.state.deleted && !env.managed(item.metadata.path)
    && owner.Some? && owner.value.entryId != item.state.entryId && owner.value.entryId !in moving
    && IsAdopted(env, item, None)
  }

  lemma BlockedExactly(env: Env, active: seq<Item>, waiting: set<EntryId>, item: Item)
    ensures Planner.Blocked(env, active, waiting, item) <==> item in active && IsObstructed(env, Ids(active) - waiting, item)
  {
  }

  /** The entries set aside first are the least set that contains each active entry whose path is owned by an entry
      outside the rest: a set that contains all it must contains them, and they are such a set. */
  lemma SetAsideExactly(env: Env, active: seq<Item>)
    ensures var waiting := DeferFrom(env, active, {});
      && waiting <= Ids(active)
      && (forall item | item in active && IsObstructed(env, Ids(active) - waiting, item) :: item.state.entryId in waiting)
      && (forall other: set<EntryId> |
            (forall item | item in active && IsObstructed(env, Ids(active) - other, item) :: item.state.entryId in other) ::
            waiting <= other)
  {
    DeferralIsLeast(env, active);
    forall waiting: set<EntryId>, item
      ensures Planner.Blocked(env, active, waiting, item) <==> item in active && IsObstructed(env, Ids(active) - waiting, item)
    {
      BlockedExactly(env, active, waiting, item);
    }
    hide Planner.Blocked, IsObstructed, DeferFrom, Ids;
  }

  /** An item waits exactly when it takes part and some item set aside does not come after it, or, in a window that is not
      the last one, it is not older than its row and is obstructed by an entry that does not move along. */
  lemma WaitsExactly(env: Env, manifest: seq<Item>, defers: bool, item: Item)
    requires PlanSpec(env, manifest, defers).Ok?
    ensures var active, row := Active(env, manifest), env.store.byId(item.state.entryId);
      var waiting := if defers then DeferFrom(env, active, {}) else {};
      item in PlanSpec(env, manifest, defers).value.deferred <==>
        && item in active
        && ((exists other :: other in active && other.state.entryId in waiting
               && other.state.updatedSeq <= item.state.updatedSeq)
            || (defers && !(row.Some? && 0 < row.value.revision && item.state.revision < row.value.revision)
                && IsObstructed(env, MovingIds(env, manifest, defers), item)))
  {
    var active := Active(env, manifest);
    var waiting := if defers then DeferFrom(env, active, {}) else {};
    DeferredExactly(env, manifest, defers, item);
    ThresholdIsSmallest(active, waiting);
    MovingAreMoving(env, manifest, defers);
    ObstructedExactly(env, MovingIds(env, manifest, defers), item);
    hide Active, DeferFrom, MovingIds, IsObstructed, OwnedOutside, PlanSpec;
  }

  lemma ObstructedExactly(env: Env, moving: set<EntryId>, item: Item)
    ensures IsObstructed(env, moving, item) <==>
      !item.state.deleted && !env.managed(item.metadata.path) && OwnedOutside(env, item, moving)
  {
  }
}

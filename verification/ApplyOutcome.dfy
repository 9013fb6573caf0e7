/**
 The prepared group that is applied to the store, and what applying it means for each entry: the effect
 of every step on one entry's remote state, local state and pending mutation, and their composition.
 */
module ApplyOutcome {
  import opened Common
  import opened EntryRecords
  import opened EntryStore

  // ---------------------------------------------------------------- prepared groups

  datatype Adopted = Adopted(entryId: EntryId, mutationId: MutationId, hashMatches: bool)

  /** `target` is the row the plan ends with: its final path when live, its last path when deleted. */
  datatype PlannedRow = PlannedRow(entryId: EntryId, existing: Option<EntryRow>, target: EntryRow,
    adopted: Option<Adopted>, displaced: Option<EntryId>, moves: nat)

  /** `row` has no path when live: the entry lost its path to a newer one. */
  datatype Superseded = Superseded(entryId: EntryId, row: RemoteRow)

  datatype Merge = NoMerge | KeepRemote | KeepMerged(mutation: Mutation, local: LocalRow)

  /** `plan` is the index of the plan the pending mutation conflicts with; `copies` tells whether the local
      version becomes a conflict and its mutation is dropped. */
  datatype Conflict = Conflict(plan: nat, entryId: EntryId, mutationId: MutationId, copies: bool, merge: Merge)

  datatype Group = Group(plans: seq<PlannedRow>, superseded: seq<Superseded>, conflicts: seq<Conflict>)

  function PlanIds(plans: seq<PlannedRow>): seq<EntryId> {
    if plans == [] then [] else PlanIds(plans[..|plans| - 1]) + IdsOf(plans[|plans| - 1])
  }

  /** The entries a plan touches: its own, the adopted one and the displaced one. */
  function IdsOf(plan: PlannedRow): seq<EntryId> {
    [plan.entryId] + (if plan.adopted.Some? then [plan.adopted.value.entryId] else [])
    + (if plan.displaced.Some? then [plan.displaced.value] else [])
  }

  function SupersededIds(superseded: seq<Superseded>): seq<EntryId> {
    seq(|superseded|, i requires 0 <= i < |superseded| => superseded[i].entryId)
  }

  function ConflictIds(conflicts: seq<Conflict>): seq<EntryId> {
    seq(|conflicts|, i requires 0 <= i < |conflicts| => conflicts[i].entryId)
  }

  /** The entries whose remote and local state is snapshotted. */
  function Touched(g: Group): seq<EntryId> { PlanIds(g.plans) + SupersededIds(g.superseded) }

  /** The entries whose pending mutation is snapshotted. */
  function Dirtied(g: Group): seq<EntryId> { Touched(g) + ConflictIds(g.conflicts) }
  // ---------------------------------------------------------------- groups as the planner prepares them

  /** A live row has a path. */
  predicate IsLive(row: EntryRow) { !row.deleted && row.path.Some? && row.path.value != "" }

  ghost predicate GoodGroupShape(g: Group) {
    && (forall i, j | 0 <= i < j < |g.plans| :: g.plans[i].entryId != g.plans[j].entryId)
    && (forall i | 0 <= i < |g.plans| :: g.plans[i].target.entryId == g.plans[i].entryId
          && (g.plans[i].existing.Some? ==> g.plans[i].existing.value.entryId == g.plans[i].entryId))
    && (forall i | 0 <= i < |g.superseded| :: g.superseded[i].row.entryId == g.superseded[i].entryId)
  }

  /** A merge is made for a live plan, at the plan's path. */
  ghost predicate GoodMerge(g: Group, c: Conflict) {
    && c.plan < |g.plans|
    && (c.merge.KeepMerged? ==>
          && c.merge.mutation.entryId == c.entryId && c.merge.local.entryId == c.entryId
          && IsLive(g.plans[c.plan].target)
          && c.merge.local.path == g.plans[c.plan].target.path && !c.merge.local.deleted)
  }

  /** The conflict's mutation is one the entry has had, and a merge's mutation is new. */
  ghost predicate GoodConflict(history: History, g: Group, c: Conflict) {
    && GoodMerge(g, c)
    && c.mutationId in history && history[c.mutationId].entryId == c.entryId
    && (c.merge.KeepMerged? ==> WellBound(c.merge.mutation) && c.merge.mutation.mutationId !in history)
  }

  ghost predicate GoodGroup(history: History, g: Group) {
    && GoodGroupShape(g)
    && (forall i | 0 <= i < |g.plans| && g.plans[i].adopted.Some? ::
          var a := g.plans[i].adopted.value; a.mutationId in history && history[a.mutationId].entryId == a.entryId)
    && (forall i | 0 <= i < |g.conflicts| :: GoodConflict(history, g, g.conflicts[i]))
    && FreshMerges(g)
  }

  /** Merges queue under different mutation ids. */
  ghost predicate FreshMerges(g: Group) {
    forall i, j | 0 <= i < j < |g.conflicts| && g.conflicts[i].merge.KeepMerged? && g.conflicts[j].merge.KeepMerged? ::
      g.conflicts[i].merge.mutation.mutationId != g.conflicts[j].merge.mutation.mutationId
  }
  // ---------------------------------------------------------------- one entry

  /** What the store answers about one entry. */
  datatype View = View(remote: Option<RemoteRow>, local: Option<LocalRow>, pending: Option<Mutation>)

  const NOTHING := View(None, None, None)

  function ViewOf(entries: Entries, id: EntryId): View {
    View(GetRemoteState(entries, id), GetLocalState(entries, id), GetDirtyMutation(entries, id))
  }

  function ViewOfRow(row: EntryRow): View { View(RowOf(row).remote, RowOf(row).local, None) }

  predicate Queues(v: View, mutationId: MutationId) { v.pending.Some? && v.pending.value.mutationId == mutationId }

  /** The effect of a single write on the entry `id`. */
  function EffectOn(w: Write, id: EntryId, v: View): View {
    match w
    case ApplyRemote(row) => if id == row.entryId then v.(remote := Some(row)) else v
    case ClearRemote(k) => if id == k then v.(remote := None) else v
    case ApplyLocal(row) => if id == row.entryId then v.(local := Some(row)) else v
    case ClearLocal(k) => if id == k then v.(local := None) else v
    case UpsertEntry(row) => if id == row.entryId then ViewOfRow(row) else v
    case DeleteEntry(k) => if id == k then NOTHING else v
    case MarkDirty(m) => if id == m.entryId then v.(pending := Some(Normalize(m))) else v
    case ClearDirty(mutationId) => if Queues(v, mutationId) then v.(pending := None) else v
    case Unblock(_) => v
    case Reconcile(_) => v
  }

  predicate IsSimple(w: Write) { !w.Unblock? && !w.Reconcile? }

  /** Only the entry of a write changes, and only the parts the write is about. */
  lemma EffectOfWrite(entries: Entries, w: Write, id: EntryId)
    requires IsSimple(w) && Perform(entries, w).Some?
    requires forall k | k in entries :: entries[k].entryId == k
    ensures ViewOf(Perform(entries, w).value, id) == EffectOn(w, id, ViewOf(entries, id))
  {
  }

  // ---------------------------------------------------------------- the steps

  /** The last superseded item of an entry leaves it with the pulled state, no local state and nothing queued. */
  function AfterSuperseding(superseded: seq<Superseded>, id: EntryId, v: View): View {
    if superseded == [] then v
    else
      var last := superseded[|superseded| - 1];
      if last.entryId == id then View(Some(last.row), None, None)
      else AfterSuperseding(superseded[..|superseded| - 1], id, v)
  }

  predicate IsSuperseded(g: Group, id: EntryId) { exists i :: 0 <= i < |g.superseded| && g.superseded[i].entryId == id }

  predicate IsDisplaced(plans: seq<PlannedRow>, id: EntryId) {
    exists k :: 0 <= k < |plans| && plans[k].displaced == Some(id)
  }

  predicate IsAdopted(plans: seq<PlannedRow>, id: EntryId) {
    exists k :: 0 <= k < |plans| && plans[k].adopted.Some? && plans[k].adopted.value.entryId == id
  }

  /** A displaced owner keeps what it knows of the server, without the path. */
  function Displaced(v: View): View {
    View(
      if v.remote.Some? && !v.remote.value.deleted then Some(v.remote.value.(path := None)) else v.remote,
      None, None)
  }

  function AfterDisplacing(g: Group, n: nat, id: EntryId, v: View): View
    requires n <= |g.plans|
  {
    if IsDisplaced(g.plans[..n], id) && !IsSuperseded(g, id) then Displaced(v) else v
  }

  predicate IsCopied(conflicts: seq<Conflict>, v: View) {
    exists i :: 0 <= i < |conflicts| && conflicts[i].copies && Queues(v, conflicts[i].mutationId)
  }

  function AfterCopying(conflicts: seq<Conflict>, v: View): View {
    if IsCopied(conflicts, v) then v.(pending := None) else v
  }

  function AfterAdopting(plans: seq<PlannedRow>, id: EntryId, v: View): View {
    if IsAdopted(plans, id) then NOTHING else v
  }

  /** The plan leaves the path its entry holds now. */
  predicate FreesPath(plan: PlannedRow) {
    && plan.existing.Some? && plan.existing.value.path.Some? && plan.existing.value.path.value != ""
    && (plan.target.deleted || plan.existing.value.path != plan.target.path)
  }

  function PlanOf(plans: seq<PlannedRow>, id: EntryId): (plan: Option<PlannedRow>)
    ensures plan.Some? ==> plan.value in plans && plan.value.entryId == id
    ensures plan.None? ==> forall p | p in plans :: p.entryId != id
  {
    if plans == [] then None
    else if plans[|plans| - 1].entryId == id then Some(plans[|plans| - 1])
    else PlanOf(plans[..|plans| - 1], id)
  }

  function AfterFreeing(plans: seq<PlannedRow>, id: EntryId, v: View): View {
    var plan := PlanOf(plans, id);
    if plan.Some? && FreesPath(plan.value)
    then ViewOfRow(plan.value.existing.value.(path := None, mtime := None, size := None)) else v
  }

  function AfterPlans(plans: seq<PlannedRow>, id: EntryId, v: View): View {
    var plan := PlanOf(plans, id);
    if plan.Some? then ViewOfRow(plan.value.target) else v
  }

  function AfterMerge(c: Conflict, id: EntryId, v: View): View {
    match c.merge
    case NoMerge => v
    case KeepRemote => if Queues(v, c.mutationId) then v.(pending := None) else v
    case KeepMerged(mutation, local) => if id == c.entryId then View(v.remote, Some(local), Some(Normalize(mutation))) else v
  }

  function AfterMerges(conflicts: seq<Conflict>, id: EntryId, v: View): View {
    if conflicts == [] then v
    else AfterMerge(conflicts[|conflicts| - 1], id, AfterMerges(conflicts[..|conflicts| - 1], id, v))
  }

  /** All steps, in order. */
  function Outcome(g: Group, id: EntryId, v: View): View {
    var retired := AfterDisplacing(g, |g.plans|, id, AfterSuperseding(g.superseded, id, v));
    var freed := AfterFreeing(g.plans, id, AfterAdopting(g.plans, id, AfterCopying(g.conflicts, retired)));
    AfterMerges(g.conflicts, id, AfterPlans(g.plans, id, freed))
  }

  // ---------------------------------------------------------------- what the composition means

  /** A merged text is queued for the plan's own entry. */
  predicate OwnMerges(g: Group) {
    forall i | 0 <= i < |g.conflicts| && g.conflicts[i].merge.KeepMerged? ::
      g.conflicts[i].plan < |g.plans| && g.conflicts[i].entryId == g.plans[g.conflicts[i].plan].entryId
  }

  predicate IsMerged(conflicts: seq<Conflict>, id: EntryId) {
    exists i :: 0 <= i < |conflicts| && conflicts[i].merge.KeepMerged? && conflicts[i].entryId == id
  }

  /** The view is the one some merge of the entry leaves. */
  predicate HoldsMerge(conflicts: seq<Conflict>, id: EntryId, remote: Option<RemoteRow>, v: View) {
    exists i :: 0 <= i < |conflicts| && conflicts[i].merge.KeepMerged? && conflicts[i].entryId == id
      && v == View(remote, Some(conflicts[i].merge.local), Some(Normalize(conflicts[i].merge.mutation)))
  }

  predicate IsKeptRemote(conflicts: seq<Conflict>, v: View) {
    exists i :: 0 <= i < |conflicts| && conflicts[i].merge.KeepRemote? && Queues(v, conflicts[i].mutationId)
  }

  /** No conflict names the mutation of a merge as the one the remote already has. */
  predicate MergesAreNew(conflicts: seq<Conflict>) {
    forall i, j | 0 <= i < |conflicts| && 0 <= j < |conflicts| && conflicts[i].merge.KeepMerged? ::
      conflicts[j].mutationId != conflicts[i].merge.mutation.mutationId
  }

  lemma GoodMergesAreNew(history: History, g: Group)
    requires GoodGroup(history, g)
    ensures MergesAreNew(g.conflicts)
  {
    forall i, j | 0 <= i < |g.conflicts| && 0 <= j < |g.conflicts| && g.conflicts[i].merge.KeepMerged?
      ensures g.conflicts[j].mutationId != g.conflicts[i].merge.mutation.mutationId
    {
      assert GoodConflict(history, g, g.conflicts[i]) && GoodConflict(history, g, g.conflicts[j]);
    }
  }

  lemma HoldsMergeOneMore(conflicts: seq<Conflict>, id: EntryId, remote: Option<RemoteRow>, v: View)
    requires conflicts != [] && HoldsMerge(conflicts[..|conflicts| - 1], id, remote, v) && MergesAreNew(conflicts)
    ensures HoldsMerge(conflicts, id, remote, v) && IsMerged(conflicts, id)
    ensures !Queues(v, conflicts[|conflicts| - 1].mutationId)
  {
    var init := conflicts[..|conflicts| - 1];
    var i :| 0 <= i < |init| && init[i].merge.KeepMerged? && init[i].entryId == id
      && v == View(remote, Some(init[i].merge.local), Some(Normalize(init[i].merge.mutation)));
    assert conflicts[i] == init[i];
  }

  /** Merges on top of a clean entry: it stays as it is, or ends with a merge of its own queued. */
  lemma {:induction false} MergesOnClean(conflicts: seq<Conflict>, id: EntryId, v: View)
    requires v.pending.None? && MergesAreNew(conflicts)
    ensures var w := AfterMerges(conflicts, id, v);
      if IsMerged(conflicts, id) then HoldsMerge(conflicts, id, v.remote, w) else w == v
  {
    if conflicts != [] {
      var init, c := conflicts[..|conflicts| - 1], conflicts[|conflicts| - 1];
      assert forall i | 0 <= i < |init| :: init[i] == conflicts[i];
      MergesOnClean(init, id, v);
      if c.merge.KeepMerged? && c.entryId == id {
        MergedHolds(conflicts, id, AfterMerges(init, id, v), v.remote);
      } else if IsMerged(init, id) {
        HoldsMergeOneMore(conflicts, id, v.remote, AfterMerges(init, id, v));
      }
    }
  }

  lemma MergedHolds(conflicts: seq<Conflict>, id: EntryId, u: View, remote: Option<RemoteRow>)
    requires conflicts != [] && u.remote == remote
    requires var c := conflicts[|conflicts| - 1]; c.merge.KeepMerged? && c.entryId == id
    ensures HoldsMerge(conflicts, id, remote, AfterMerge(conflicts[|conflicts| - 1], id, u)) && IsMerged(conflicts, id)
  {
  }

  /** Without a merge of its own, an entry loses at most its pending mutation: the one the remote already has. */
  lemma {:induction false} MergesOnOthers(conflicts: seq<Conflict>, id: EntryId, v: View)
    requires !IsMerged(conflicts, id)
    ensures AfterMerges(conflicts, id, v) == if IsKeptRemote(conflicts, v) then v.(pending := None) else v
  {
    if conflicts != [] {
      var init, c := conflicts[..|conflicts| - 1], conflicts[|conflicts| - 1];
      forall i | 0 <= i < |init| ensures init[i] == conflicts[i] {}
      assert !IsMerged(init, id);
      MergesOnOthers(init, id, v);
      if IsKeptRemote(init, v) {
        var i :| 0 <= i < |init| && init[i].merge.KeepRemote? && Queues(v, init[i].mutationId);
        assert conflicts[i].merge.KeepRemote? && Queues(v, conflicts[i].mutationId);
      }
    }
  }

  /** The view is the one a superseded item of the entry leaves. */
  predicate HoldsSuperseded(superseded: seq<Superseded>, id: EntryId, v: View) {
    exists i :: 0 <= i < |superseded| && superseded[i].entryId == id && v == View(Some(superseded[i].row), None, None)
  }

  lemma {:induction false} SupersedingLeaves(superseded: seq<Superseded>, id: EntryId, v: View)
    ensures (exists i :: 0 <= i < |superseded| && superseded[i].entryId == id)
      ==> HoldsSuperseded(superseded, id, AfterSuperseding(superseded, id, v))
    ensures (forall i | 0 <= i < |superseded| :: superseded[i].entryId != id) ==> AfterSuperseding(superseded, id, v) == v
  {
    if superseded != [] && superseded[|superseded| - 1].entryId != id {
      var init := superseded[..|superseded| - 1];
      forall i | 0 <= i < |init| ensures init[i] == superseded[i] {}
      SupersedingLeaves(init, id, v);
    }
  }

  predicate IsPlanned(g: Group, id: EntryId) { exists k :: 0 <= k < |g.plans| && g.plans[k].entryId == id }

  /**
  * What an applied group leaves of each entry. A planned entry has the pulled state, clean, or a merge of
  * its own queued on top of it. An adopted one is gone, a superseded or displaced one has lost its local state, its
  * mutation and its path; any other entry keeps its states and loses at most a mutation some conflict names.
  */
  lemma OutcomeOfGroup(history: History, g: Group, id: EntryId, v: View)
    requires GoodGroup(history, g) && OwnMerges(g)
    ensures forall k | 0 <= k < |g.plans| && g.plans[k].entryId == id ::
      var target := ViewOfRow(g.plans[k].target);
      if IsMerged(g.conflicts, id) then HoldsMerge(g.conflicts, id, target.remote, Outcome(g, id, v))
      else Outcome(g, id, v) == target
    ensures !IsPlanned(g, id) && IsAdopted(g.plans, id) ==> Outcome(g, id, v) == NOTHING
    ensures !IsPlanned(g, id) && !IsAdopted(g.plans, id) && IsSuperseded(g, id) ==>
      HoldsSuperseded(g.superseded, id, Outcome(g, id, v))
    ensures !IsPlanned(g, id) && !IsAdopted(g.plans, id) && !IsSuperseded(g, id) && IsDisplaced(g.plans, id) ==>
      Outcome(g, id, v) == Displaced(v)
    ensures !IsPlanned(g, id) && !IsAdopted(g.plans, id) && !IsSuperseded(g, id) && !IsDisplaced(g.plans, id) ==>
      Outcome(g, id, v) == if IsCopied(g.conflicts, v) || IsKeptRemote(g.conflicts, v) then v.(pending := None) else v
  {
    assert g.plans[..|g.plans|] == g.plans;
    GoodMergesAreNew(history, g);
    SupersedingLeaves(g.superseded, id, v);
    var retired := AfterDisplacing(g, |g.plans|, id, AfterSuperseding(g.superseded, id, v));
    var adopted := AfterAdopting(g.plans, id, AfterCopying(g.conflicts, retired));
    if IsPlanned(g, id) {
      var k :| 0 <= k < |g.plans| && g.plans[k].entryId == id;
      OnePlan(g, k);
      MergesOnClean(g.conflicts, id, ViewOfRow(g.plans[k].target));
    } else {
      assert PlanOf(g.plans, id).None?;
      assert !IsMerged(g.conflicts, id);
      MergesOnOthers(g.conflicts, id, adopted);
    }
  }

  lemma OnePlan(g: Group, k: nat)
    requires GoodGroupShape(g) && k < |g.plans|
    ensures PlanOf(g.plans, g.plans[k].entryId) == Some(g.plans[k])
    ensures forall j | 0 <= j < |g.plans| && g.plans[j].entryId == g.plans[k].entryId :: j == k
  {
    var plan := PlanOf(g.plans, g.plans[k].entryId);
    assert g.plans[k] in g.plans;
    var j :| 0 <= j < |g.plans| && g.plans[j] == plan.value;
  }

  /** A displaced owner keeps what the server knows of it; only a live one loses its path there. */
  lemma DisplacedKeeps(v: View)
    ensures var w := Displaced(v);
      && w.local.None? && w.pending.None? && (w.remote.Some? <==> v.remote.Some?)
      && (v.remote.Some? ==>
            var r, s := v.remote.value, w.remote.value;
            && s.revision == r.revision && s.deleted == r.deleted && s.blobId == r.blobId && s.hash == r.hash
            && s.path == (if r.deleted then r.path else None))
  {
  }

  /** Before the rows are written, exactly the planned entries that leave a path have no path at all; every other entry is as
      the steps before have left it. */
  lemma FreedExactly(g: Group, k: nat, v: View)
    requires GoodGroupShape(g) && k < |g.plans|
    ensures var plan, w := g.plans[k], AfterFreeing(g.plans, g.plans[k].entryId, v);
      var leaves := plan.existing.Some? && plan.existing.value.path.Some? && plan.existing.value.path.value != ""
        && (plan.target.deleted || plan.target.path != plan.existing.value.path);
      if leaves then w.remote.Some? && w.remote.value.path.None? && w.local.Some? && w.local.value.path.None? && w.pending.None?
      else w == v
    ensures forall id | (forall p | p in g.plans :: p.entryId != id) :: AfterFreeing(g.plans, id, v) == v
  {
    OnePlan(g, k);
  }
}

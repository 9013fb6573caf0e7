/**
 Planning one window of pulled entry states: which are applied and where, which wait for a
 later window, which are superseded, skipped or refused as a rollback.
 */
module Planner {
  import opened Common
  import opened EntryRecords
  import Files = FileRules
  import Table = EntryStore

  datatype State = State(entryId: EntryId, revision: nat, blobId: Option<string>, deleted: bool,
    updatedSeq: nat, updatedAt: int)

  datatype Item = Item(state: State, metadata: Metadata)

  /** The planner's view of the store. */
  datatype Store = Store(byId: EntryId -> Option<EntryRow>, byPath: Path -> Option<EntryRow>,
    dirty: EntryId -> Option<Mutation>)

  /** What the planner reads and does not change: the store, the path rules, the files of the vault
      and the conflict timestamps it would be given. */
  datatype Env = Env(store: Store, shouldApply: (Path, bool) -> bool, managed: Path -> bool,
    vault: set<Path>, clock: nat -> string)

  /** Pending metadata always opens; EntryStore's invariant gives this for every reachable store. */
  ghost predicate Opens(store: Store) {
    forall id :: store.dirty(id).Some? ==>
      Open(store.dirty(id).value.metadata, MutationContext(store.dirty(id).value)).Some?
  }

  datatype Adoption = Adoption(entry: EntryRow, pending: Mutation, hashMatches: bool)
  datatype Collision = Collision(entryId: EntryId, originalPath: Path, conflictPath: Path)
  datatype Move = Move(source: Path, target: Path)

  datatype Plan = Plan(item: Item, existing: Option<EntryRow>, adopted: Option<Adoption>, vaultMove: Option<Move>,
    finalPath: Option<Path>, hash: Option<string>, conflict: Option<Collision>, displaced: Option<EntryRow>)

  datatype Planned = Planned(plans: seq<Plan>, deferred: seq<Item>, superseded: seq<Item>, skipped: seq<Item>,
    rolledBack: seq<Item>)

  // ---------------------------------------------------------------- filtering

  function Select<T>(s: seq<T>, keep: T -> bool): seq<T> {
    if s == [] then []
    else Select(s[..|s| - 1], keep) + if keep(s[|s| - 1]) then [s[|s| - 1]] else []
  }

  lemma SelectContains<T>(s: seq<T>, keep: T -> bool, x: T)
    ensures x in Select(s, keep) <==> x in s && keep(x)
  {
    if s != [] {
      SelectContains(s[..|s| - 1], keep, x);
      assert s == s[..|s| - 1] + [s[|s| - 1]];
    }
  }

  ghost function Bag<T>(s: seq<T>, keep: T -> bool): multiset<T> { multiset(Select(s, keep)) }

  lemma BagStep<T>(s: seq<T>, keep: T -> bool)
    requires s != []
    ensures Bag(s, keep) == Bag(s[..|s| - 1], keep) + if keep(s[|s| - 1]) then multiset{s[|s| - 1]} else multiset{}
  {
  }

  lemma WholeStep<T>(s: seq<T>)
    requires s != []
    ensures multiset(s) == multiset(s[..|s| - 1]) + multiset{s[|s| - 1]}
  {
    assert s == s[..|s| - 1] + [s[|s| - 1]];
  }

  lemma SumsGrow<T>(a: multiset<T>, b: multiset<T>, c: multiset<T>, a': multiset<T>, b': multiset<T>, c': multiset<T>, one: multiset<T>)
    requires (a' == a + one && b' == b && c' == c) || (a' == a && b' == b + one && c' == c) || (a' == a && b' == b && c' == c + one)
    ensures a' + b' + c' == a + b + c + one
  {
  }

  ghost predicate OneOf(p: bool, q: bool, r: bool) {
    (p || q || r) && !(p && q) && !(p && r) && !(q && r)
  }

  lemma SplitStep<T>(s: seq<T>, p: T -> bool, q: T -> bool, r: T -> bool)
    requires s != [] && OneOf(p(s[|s| - 1]), q(s[|s| - 1]), r(s[|s| - 1]))
    requires multiset(s[..|s| - 1]) == Bag(s[..|s| - 1], p) + Bag(s[..|s| - 1], q) + Bag(s[..|s| - 1], r)
    ensures multiset(s) == Bag(s, p) + Bag(s, q) + Bag(s, r)
  {
    var init, last := s[..|s| - 1], s[|s| - 1];
    BagStep(s, p);
    BagStep(s, q);
    BagStep(s, r);
    WholeStep(s);
    hide *;
    SumsGrow(Bag(init, p), Bag(init, q), Bag(init, r), Bag(s, p), Bag(s, q), Bag(s, r), multiset{last});
  }

  /** Three filters of which exactly one keeps each element split the sequence. */
  lemma {:induction false} SelectsSplit<T>(s: seq<T>, p: T -> bool, q: T -> bool, r: T -> bool)
    requires forall x | x in s :: OneOf(p(x), q(x), r(x))
    ensures multiset(s) == Bag(s, p) + Bag(s, q) + Bag(s, r)
  {
    if s != [] {
      var init, last := s[..|s| - 1], s[|s| - 1];
      assert OneOf(p(last), q(last), r(last));
      forall x | x in init ensures OneOf(p(x), q(x), r(x)) { assert x in s; }
      SelectsSplit(init, p, q, r);
      SplitStep(s, p, q, r);
    }
  }

  predicate Distinct(items: seq<Item>) {
    forall i, j | 0 <= i < j < |items| :: items[i].state.entryId != items[j].state.entryId
  }

  lemma SelectIsDistinct(items: seq<Item>, keep: Item -> bool)
    requires Distinct(items)
    ensures Distinct(Select(items, keep))
  {
    if items != [] {
      var init, last := items[..|items| - 1], items[|items| - 1];
      SelectIsDistinct(init, keep);
      forall x | x in Select(init, keep) ensures x.state.entryId != last.state.entryId {
        SelectContains(init, keep, x);
      }
    }
  }

  // ---------------------------------------------------------------- acceptance

  predicate Present(s: Option<string>) { s.Some? && s.value != "" }

  function Problem(item: Item): Option<string> {
    if !item.state.deleted then
      if !Present(item.state.blobId) then Some("missing a blob")
      else if !Present(item.metadata.hash) then Some("missing a hash")
      else None
    else if item.metadata.hash.Some? then Some("has a hash")
    else None
  }

  /** The stored revision is newer than the pulled one. */
  predicate IsRollback(env: Env, item: Item) {
    var existing := env.store.byId(item.state.entryId);
    existing.Some? && existing.value.revision > 0 && item.state.revision < existing.value.revision
  }

  predicate Applies(env: Env, item: Item) { env.shouldApply(item.metadata.path, item.state.deleted) }

  function Accepts(env: Env): Item -> bool { (item: Item) => Applies(env, item) }
  function Skips(env: Env): Item -> bool { (item: Item) => !Applies(env, item) && !IsRollback(env, item) }
  function RefusesRejected(env: Env): Item -> bool { (item: Item) => !Applies(env, item) && IsRollback(env, item) }

  // ---------------------------------------------------------------- managed paths

  /** JavaScript's order on strings, by code units. */
  predicate After(a: string, b: string) {
    a != "" && (b == "" || a[0] > b[0] || (a[0] == b[0] && After(a[1..], b[1..])))
  }

  lemma AfterIsTotal(a: string, b: string)
    ensures After(a, b) || After(b, a) || a == b
    ensures !(After(a, b) && After(b, a)) && !After(a, a)
  {
    if a != "" && b != "" && a[0] == b[0] {
      AfterIsTotal(a[1..], b[1..]);
      assert a == [a[0]] + a[1..] && b == [b[0]] + b[1..];
    }
    if a != "" { AfterIsTotal(a[1..], a[1..]); }
  }

  lemma AfterIsTransitive(a: string, b: string, c: string)
    requires After(a, b) && After(b, c)
    ensures After(a, c)
  {
    if b != "" && c != "" && a[0] == b[0] == c[0] {
      AfterIsTransitive(a[1..], b[1..], c[1..]);
    }
  }

  predicate Contends(env: Env, item: Item, path: Path) {
    !item.state.deleted && item.metadata.path == path && env.managed(path)
  }

  predicate Newer(a: Item, b: Item) {
    a.state.updatedSeq > b.state.updatedSeq
    || (a.state.updatedSeq == b.state.updatedSeq && After(a.state.entryId, b.state.entryId))
  }

  function Winner(env: Env, items: seq<Item>, path: Path): Option<Item> {
    if items == [] then None
    else
      var before, item := Winner(env, items[..|items| - 1], path), items[|items| - 1];
      if Contends(env, item, path) && (before.None? || Newer(item, before.value)) then Some(item) else before
  }

  /** The winner of a managed path is the newest live item that names it, whatever the order. */
  lemma {:induction false} WinnerIsNewest(env: Env, items: seq<Item>, path: Path)
    ensures var winner := Winner(env, items, path);
      && (winner.None? <==> forall item | item in items :: !Contends(env, item, path))
      && (winner.Some? ==>
            && winner.value in items && Contends(env, winner.value, path)
            && forall item | item in items && Contends(env, item, path) :: !Newer(item, winner.value))
  {
    if items != [] {
      var init, last := items[..|items| - 1], items[|items| - 1];
      WinnerIsNewest(env, init, path);
      assert items == init + [last];
      var before, winner := Winner(env, init, path), Winner(env, items, path);
      if winner.Some? {
        forall item | item in items && Contends(env, item, path) ensures !Newer(item, winner.value) {
          if item in init && winner.value == last && before.Some? && last != before.value {
            NewerIsTransitive(item, last, before.value);
          }
          NewerIsTotal(item, winner.value);
        }
      }
    }
  }

  lemma NewerIsTotal(a: Item, b: Item)
    ensures !(Newer(a, b) && Newer(b, a)) && !Newer(a, a)
    ensures a.state.entryId != b.state.entryId ==> Newer(a, b) || Newer(b, a)
  {
    AfterIsTotal(a.state.entryId, b.state.entryId);
    AfterIsTotal(a.state.entryId, a.state.entryId);
  }

  lemma NewerIsTransitive(a: Item, b: Item, c: Item)
    ensures Newer(a, b) && Newer(b, c) ==> Newer(a, c)
  {
    if After(a.state.entryId, b.state.entryId) && After(b.state.entryId, c.state.entryId) {
      AfterIsTransitive(a.state.entryId, b.state.entryId, c.state.entryId);
    }
  }

  /** Another item won this item's managed path. */
  predicate Loses(env: Env, accepted: seq<Item>, item: Item) {
    var winner := Winner(env, accepted, item.metadata.path);
    winner.Some? && winner.value.state.entryId != "" && winner.value.state.entryId != item.state.entryId
  }

  function Stays(env: Env, accepted: seq<Item>): Item -> bool {
    (item: Item) => !Loses(env, accepted, item)
  }
  function Supersedes(env: Env, accepted: seq<Item>): Item -> bool {
    (item: Item) => Loses(env, accepted, item) && !IsRollback(env, item)
  }
  function RefusesLoser(env: Env, accepted: seq<Item>): Item -> bool {
    (item: Item) => Loses(env, accepted, item) && IsRollback(env, item)
  }

  // ---------------------------------------------------------------- path owners

  /** A purely local entry at the item's path, with a pending upsert there, that the item may adopt. */
  function Adoptable(env: Env, item: Item, owner: EntryRow): Option<Adoption> {
    if owner.entryId == item.state.entryId || owner.revision != 0 || owner.deleted || owner.path != Some(item.metadata.path)
    then None
    else
      var pending := env.store.dirty(owner.entryId);
      if pending.None? || pending.value.op != Upsert then None
      else
        var content := Open(pending.value.metadata, MutationContext(pending.value));
        if content.None? || content.value.path != item.metadata.path || !Present(content.value.hash) then None
        else
          Some(Adoption(owner, pending.value,
            content.value.hash == item.metadata.hash && owner.hash == item.metadata.hash))
  }

  function AdoptedBy(env: Env, item: Item): Option<Adoption> {
    var owner := env.store.byPath(item.metadata.path);
    if owner.Some? then Adoptable(env, item, owner.value) else None
  }

  /** The item's path belongs to another entry that is neither moving along nor adoptable. */
  predicate OwnedOutside(env: Env, item: Item, moving: set<EntryId>) {
    var owner := env.store.byPath(item.metadata.path);
    owner.Some? && owner.value.entryId != item.state.entryId && owner.value.entryId !in moving && AdoptedBy(env, item).None?
  }

  function Ids(items: seq<Item>): set<EntryId> { set item | item in items :: item.state.entryId }

  /** Must wait while exactly the entries in `waiting` do. */
  predicate Blocked(env: Env, active: seq<Item>, waiting: set<EntryId>, item: Item) {
    && item in active && !item.state.deleted
    && OwnedOutside(env, item, Ids(active) - waiting)
    && !env.managed(item.metadata.path)
  }

  function BlockedIds(env: Env, active: seq<Item>, waiting: set<EntryId>): set<EntryId> {
    set item | item in active && Blocked(env, active, waiting, item) :: item.state.entryId
  }

  /** Defers pass by pass until a pass adds nothing. */
  function DeferFrom(env: Env, active: seq<Item>, waiting: set<EntryId>): set<EntryId>
    decreases Ids(active) - waiting
  {
    var next := waiting + BlockedIds(env, active, waiting);
    if next == waiting then waiting
    else
      assert Ids(active) - next < Ids(active) - waiting by {
        var id :| id in next && id !in waiting;
        assert id in Ids(active) - waiting && id !in Ids(active) - next;
      }
      DeferFrom(env, active, next)
  }

  ghost predicate Closed(env: Env, active: seq<Item>, waiting: set<EntryId>) {
    forall item | Blocked(env, active, waiting, item) :: item.state.entryId in waiting
  }

  lemma BlockedIsMonotone(env: Env, active: seq<Item>, smaller: set<EntryId>, larger: set<EntryId>, item: Item)
    requires smaller <= larger && Blocked(env, active, smaller, item)
    ensures Blocked(env, active, larger, item)
  {
  }

  lemma {:induction false} DeferFromIsLeast(env: Env, active: seq<Item>, waiting: set<EntryId>)
    ensures var least := DeferFrom(env, active, waiting);
      && waiting <= least <= waiting + Ids(active)
      && Closed(env, active, least)
      && (forall other | waiting <= other && Closed(env, active, other) :: least <= other)
    decreases Ids(active) - waiting
  {
    var next := waiting + BlockedIds(env, active, waiting);
    if next == waiting {
      forall item | Blocked(env, active, waiting, item) ensures item.state.entryId in waiting {
        assert item.state.entryId in BlockedIds(env, active, waiting);
      }
    } else {
      var id :| id in next && id !in waiting;
      assert id in Ids(active) - waiting && id !in Ids(active) - next;
      DeferFromIsLeast(env, active, next);
      var least := DeferFrom(env, active, next);
      forall other | waiting <= other && Closed(env, active, other) ensures least <= other {
        forall item | Blocked(env, active, waiting, item) ensures item.state.entryId in other {
          BlockedIsMonotone(env, active, waiting, other, item);
        }
        assert next <= other;
      }
    }
  }

  /** The deferral loop computes the least set closed under "its path is owned outside the rest". */
  lemma DeferralIsLeast(env: Env, active: seq<Item>)
    ensures var waiting := DeferFrom(env, active, {});
      && waiting <= Ids(active)
      && Closed(env, active, waiting)
      && (forall other | Closed(env, active, other) :: waiting <= other)
  {
    DeferFromIsLeast(env, active, {});
  }

  /** The order in which the items are visited does not matter. */
  lemma DeferralIgnoresOrder(env: Env, active: seq<Item>, permuted: seq<Item>)
    requires forall item :: item in active <==> item in permuted
    ensures DeferFrom(env, active, {}) == DeferFrom(env, permuted, {})
  {
    DeferralIsLeast(env, active);
    DeferralIsLeast(env, permuted);
    assert Ids(active) == Ids(permuted);
    var a, b := DeferFrom(env, active, {}), DeferFrom(env, permuted, {});
    assert Closed(env, permuted, a) && Closed(env, active, b) by {
      assert forall w, item :: Blocked(env, active, w, item) <==> Blocked(env, permuted, w, item);
    }
  }

  // ---------------------------------------------------------------- the threshold

  /** The smallest updatedSeq among the items in `waiting`. */
  function Threshold(active: seq<Item>, waiting: set<EntryId>): Option<nat> {
    if active == [] then None
    else
      var before, item := Threshold(active[..|active| - 1], waiting), active[|active| - 1];
      if item.state.entryId !in waiting then before
      else if before.None? || item.state.updatedSeq < before.value then Some(item.state.updatedSeq)
      else before
  }

  lemma ThresholdIsSmallest(active: seq<Item>, waiting: set<EntryId>)
    ensures var t := Threshold(active, waiting);
      && (t.None? <==> forall item | item in active :: item.state.entryId !in waiting)
      && (t.Some? ==>
            && (exists item :: item in active && item.state.entryId in waiting && item.state.updatedSeq == t.value)
            && forall item | item in active && item.state.entryId in waiting :: t.value <= item.state.updatedSeq)
  {
    if active != [] {
      var init, last := active[..|active| - 1], active[|active| - 1];
      ThresholdIsSmallest(init, waiting);
      assert active == init + [last];
    }
  }

  predicate Late(item: Item, threshold: Option<nat>) {
    threshold.Some? && item.state.updatedSeq >= threshold.value
  }

  function InTime(threshold: Option<nat>): Item -> bool { (item: Item) => !Late(item, threshold) }

  // ---------------------------------------------------------------- target paths

  /** A free conflict name; asked again with the reserved paths when the first one is reserved. */
  function CollisionPath(env: Env, reserved: map<Path, EntryId>, path: Path, index: nat): Path {
    var first := Files.AvailableConflictCopyPath(env.vault, path, env.clock(2 * index));
    if first in reserved
    then Files.AvailableConflictCopyPath(env.vault + reserved.Keys, path, env.clock(2 * index + 1))
    else first
  }

  lemma CollisionPathIsFree(env: Env, reserved: map<Path, EntryId>, path: Path, index: nat)
    ensures var free := CollisionPath(env, reserved, path, index);
      && free !in env.vault && free !in reserved
      && exists k, n: nat :: free == Files.BuildConflictCopyPath(path, env.clock(k), n)
  {
    Files.FreeFromIsFree(env.vault, path, env.clock(2 * index), 0);
    Files.FreeFromIsFree(env.vault + reserved.Keys, path, env.clock(2 * index + 1), 0);
  }

  function VaultMove(env: Env, item: Item, existing: Option<EntryRow>, finalPath: Path, renamed: bool, adopts: bool): Option<Move> {
    if existing.None? || existing.value.entryId != item.state.entryId || existing.value.deleted
      || !Present(existing.value.path) || existing.value.path == Some(finalPath) || renamed || adopts
      || env.store.dirty(item.state.entryId).Some?
    then None
    else if existing.value.path.value !in env.vault || finalPath in env.vault then None
    else Some(Move(existing.value.path.value, finalPath))
  }

  predicate Reserved(reserved: map<Path, EntryId>, path: Path) {
    path in reserved && reserved[path] != ""
  }

  /** What the planning loop carries along. */
  datatype Progress = Progress(plans: seq<Plan>, deferred: seq<Item>, rolledBack: seq<Item>, reserved: map<Path, EntryId>)

  /** Which entries move along, what is too late, and whether outside owners defer. */
  datatype Window = Window(defers: bool, threshold: Option<nat>, moving: set<EntryId>)

  /** The plan of a live item: its own path, or a conflict name when the path is taken and not managed. */
  function LivePlan(env: Env, w: Window, index: nat, reserved: map<Path, EntryId>, item: Item): (plan: Plan)
    ensures plan.finalPath.Some?
  {
    var path := item.metadata.path;
    var owner := env.store.byPath(path);
    var existing := env.store.byId(item.state.entryId);
    var adopted := AdoptedBy(env, item);
    var taken := Reserved(reserved, path) || OwnedOutside(env, item, w.moving);
    var conflict := if taken && !env.managed(path)
      then Some(Collision(item.state.entryId, path, CollisionPath(env, reserved, path, index))) else None;
    var displaced := if taken && env.managed(path) && owner.Some? && owner.value.entryId != item.state.entryId
      then owner else None;
    var finalPath := if conflict.Some? then conflict.value.conflictPath else path;
    var move := VaultMove(env, item, existing, finalPath, conflict.Some?, adopted.Some?);
    Plan(item, existing, adopted, move, Some(finalPath), item.metadata.hash, conflict, displaced)
  }

  function DeletedPlan(env: Env, item: Item): Plan {
    Plan(item, env.store.byId(item.state.entryId), None, None, None, None, None, None)
  }

  function PlanOne(env: Env, w: Window, index: nat, p: Progress, item: Item): Result<Progress> {
    if Late(item, w.threshold) then Ok(p.(deferred := p.deferred + [item]))
    else if IsRollback(env, item) then Ok(p.(rolledBack := p.rolledBack + [item]))
    else if item.state.deleted then Ok(p.(plans := p.plans + [DeletedPlan(env, item)]))
    else if OwnedOutside(env, item, w.moving) && w.defers && !env.managed(item.metadata.path) then
      Ok(p.(deferred := p.deferred + [item]))
    else
      var plan := LivePlan(env, w, index, p.reserved, item);
      if plan.finalPath.value == "" then Err("no target path")
      else
        Ok(p.(plans := p.plans + [plan], reserved := p.reserved[plan.finalPath.value := item.state.entryId]))
  }

  function PlanAll(env: Env, w: Window, items: seq<Item>): Result<Progress> {
    if items == [] then Ok(Progress([], [], [], map[]))
    else
      match PlanAll(env, w, items[..|items| - 1])
      case Err(message) => Err(message)
      case Ok(p) => PlanOne(env, w, |items| - 1, p, items[|items| - 1])
  }

  // ---------------------------------------------------------------- the whole plan

  function Active(env: Env, manifest: seq<Item>): seq<Item> {
    var accepted := Select(manifest, Accepts(env));
    Select(accepted, Stays(env, accepted))
  }

  function WindowFor(env: Env, active: seq<Item>, defers: bool): Window {
    var waiting := if defers then DeferFrom(env, active, {}) else {};
    var threshold := Threshold(active, waiting);
    Window(defers, threshold, Ids(Select(active, InTime(threshold))))
  }

  function FirstProblem(manifest: seq<Item>): Option<string> {
    if manifest == [] then None
    else
      var before := FirstProblem(manifest[..|manifest| - 1]);
      if before.Some? then before else Problem(manifest[|manifest| - 1])
  }

  function PlanSpec(env: Env, manifest: seq<Item>, defers: bool): Result<Planned> {
    var problem := FirstProblem(manifest);
    if problem.Some? then Err(problem.value)
    else
      var accepted := Select(manifest, Accepts(env));
      var active := Active(env, manifest);
      match PlanAll(env, WindowFor(env, active, defers), active)
      case Err(message) => Err(message)
      case Ok(p) =>
        Ok(Planned(p.plans, p.deferred, Select(accepted, Supersedes(env, accepted)), Select(manifest, Skips(env)),
          Select(manifest, RefusesRejected(env)) + Select(accepted, RefusesLoser(env, accepted)) + p.rolledBack))
  }

  // ---------------------------------------------------------------- the planner

  method FindWinners(env: Env, items: seq<Item>) returns (latest: map<Path, Item>)
    ensures forall path :: path in latest <==> Winner(env, items, path).Some?
    ensures forall path | path in latest :: Some(latest[path]) == Winner(env, items, path)
  {
    latest := map[];
    var i := 0;
    while i < |items|
      invariant 0 <= i <= |items|
      invariant forall path :: path in latest <==> Winner(env, items[..i], path).Some?
      invariant forall path | path in latest :: Some(latest[path]) == Winner(env, items[..i], path)
    {
      var item := items[i];
      var path := item.metadata.path;
      assert items[..i + 1][..i] == items[..i];
      if !item.state.deleted && env.managed(path) {
        if path !in latest || Newer(item, latest[path]) {
          latest := latest[path := item];
        }
      }
      i := i + 1;
    }
    assert items[..i] == items;
  }

  /** One pass of the deferral loop judges every item against the entries active when the pass began. */
  method DeferPass(env: Env, active: seq<Item>, waiting: set<EntryId>) returns (next: set<EntryId>)
    ensures next == waiting + BlockedIds(env, active, waiting)
  {
    var activeIds := Ids(active) - waiting;
    next := waiting;
    var i := 0;
    while i < |active|
      invariant 0 <= i <= |active|
      invariant next == waiting + BlockedBefore(env, active, waiting, i)
    {
      var item := active[i];
      if !(item.state.entryId in next || item.state.deleted) {
        if OwnedOutside(env, item, activeIds) && !env.managed(item.metadata.path) {
          next := next + {item.state.entryId};
        }
      }
      assert BlockedBefore(env, active, waiting, i + 1) == BlockedBefore(env, active, waiting, i)
        + if Blocked(env, active, waiting, item) then {item.state.entryId} else {};
      i := i + 1;
    }
    assert BlockedBefore(env, active, waiting, i) == BlockedIds(env, active, waiting);
  }

  ghost function BlockedBefore(env: Env, active: seq<Item>, waiting: set<EntryId>, n: nat): set<EntryId>
    requires n <= |active|
  {
    set k | 0 <= k < n && Blocked(env, active, waiting, active[k]) :: active[k].state.entryId
  }

  method Defer(env: Env, active: seq<Item>) returns (waiting: set<EntryId>)
    ensures waiting == DeferFrom(env, active, {})
  {
    waiting := {};
    var changed := true;
    while changed
      invariant DeferFrom(env, active, waiting) == DeferFrom(env, active, {})
      invariant !changed ==> DeferFrom(env, active, waiting) == waiting
      decreases Ids(active) - waiting, changed
    {
      var next := DeferPass(env, active, waiting);
      changed := next != waiting;
      if changed {
        var id :| id in next && id !in waiting;
        assert id in Ids(active) - waiting && id !in Ids(active) - next;
      }
      waiting := next;
    }
  }

  /** Validates every item and sets aside those whose path is not applied here. */
  method Triage(env: Env, manifest: seq<Item>) returns (problem: Option<string>, accepted: seq<Item>, skipped: seq<Item>, rolledBack: seq<Item>)
    ensures problem == FirstProblem(manifest)
    ensures problem.None? ==> accepted == Select(manifest, Accepts(env))
    ensures problem.None? ==> skipped == Select(manifest, Skips(env)) && rolledBack == Select(manifest, RefusesRejected(env))
  {
    hide IsRollback, Problem, Applies;
    accepted, skipped, rolledBack := [], [], [];
    var i := 0;
    while i < |manifest|
      invariant 0 <= i <= |manifest|
      invariant FirstProblem(manifest[..i]).None?
      invariant accepted == Select(manifest[..i], Accepts(env))
      invariant skipped == Select(manifest[..i], Skips(env))
      invariant rolledBack == Select(manifest[..i], RefusesRejected(env))
    {
      var item := manifest[i];
      assert manifest[..i + 1][..i] == manifest[..i];
      problem := Problem(item);
      if problem.Some? {
        FirstProblemStays(manifest, i + 1);
        return;
      }
      if Applies(env, item) {
        accepted := accepted + [item];
      } else if IsRollback(env, item) {
        rolledBack := rolledBack + [item];
      } else {
        skipped := skipped + [item];
      }
      i := i + 1;
    }
    assert manifest[..i] == manifest;
    problem := None;
  }

  /** Keeps one claimant per managed path. */
  method SettleManagedPaths(env: Env, accepted: seq<Item>) returns (active: seq<Item>, superseded: seq<Item>, losers: seq<Item>)
    ensures active == Select(accepted, Stays(env, accepted))
    ensures superseded == Select(accepted, Supersedes(env, accepted))
    ensures losers == Select(accepted, RefusesLoser(env, accepted))
  {
    hide IsRollback, Winner;
    var latest := FindWinners(env, accepted);
    active, superseded, losers := [], [], [];
    var i := 0;
    while i < |accepted|
      invariant 0 <= i <= |accepted|
      invariant active == Select(accepted[..i], Stays(env, accepted))
      invariant superseded == Select(accepted[..i], Supersedes(env, accepted))
      invariant losers == Select(accepted[..i], RefusesLoser(env, accepted))
    {
      var item := accepted[i];
      var path := item.metadata.path;
      assert accepted[..i + 1][..i] == accepted[..i];
      if path in latest && latest[path].state.entryId != "" && latest[path].state.entryId != item.state.entryId {
        if IsRollback(env, item) {
          losers := losers + [item];
        } else {
          superseded := superseded + [item];
        }
      } else {
        active := active + [item];
      }
      i := i + 1;
    }
    assert accepted[..i] == accepted;
  }

  method PlanActive(env: Env, active: seq<Item>, defers: bool) returns (result: Result<Progress>)
    ensures result == PlanAll(env, WindowFor(env, active, defers), active)
  {
    hide PlanOne, DeferFrom, Threshold, Late;
    var waiting: set<EntryId> := {};
    if defers {
      waiting := Defer(env, active);
    }
    var threshold := Threshold(active, waiting);
    var w := Window(defers, threshold, Ids(Select(active, InTime(threshold))));
    var p := Progress([], [], [], map[]);
    var i := 0;
    while i < |active|
      invariant 0 <= i <= |active|
      invariant PlanAll(env, w, active[..i]) == Ok(p)
    {
      assert active[..i + 1][..i] == active[..i];
      var step := PlanOne(env, w, i, p, active[i]);
      if step.Err? {
        PlanAllStays(env, w, active, i + 1);
        return step;
      }
      p := step.value;
      i := i + 1;
    }
    assert active[..i] == active;
    return Ok(p);
  }

  method PlanManifest(env: Env, manifest: seq<Item>, defers: bool) returns (result: Result<Planned>)
    ensures result == PlanSpec(env, manifest, defers)
  {
    var problem, accepted, skipped, rolledBack := Triage(env, manifest);
    if problem.Some? {
      return Err(problem.value);
    }
    var active, superseded, losers := SettleManagedPaths(env, accepted);
    var p := PlanActive(env, active, defers);
    if p.Err? {
      return Err(p.message);
    }
    return Ok(Planned(p.value.plans, p.value.deferred, superseded, skipped, rolledBack + losers + p.value.rolledBack));
  }

  lemma FirstProblemStays(manifest: seq<Item>, n: nat)
    requires n <= |manifest| && FirstProblem(manifest[..n]).Some?
    ensures FirstProblem(manifest) == FirstProblem(manifest[..n])
    decreases |manifest|
  {
    if n < |manifest| {
      assert manifest[..|manifest| - 1][..n] == manifest[..n];
      FirstProblemStays(manifest[..|manifest| - 1], n);
    } else {
      assert manifest[..n] == manifest;
    }
  }

  lemma PlanAllStays(env: Env, w: Window, items: seq<Item>, n: nat)
    requires n <= |items| && PlanAll(env, w, items[..n]).Err?
    ensures PlanAll(env, w, items) == PlanAll(env, w, items[..n])
    decreases |items|
  {
    if n < |items| {
      assert items[..|items| - 1][..n] == items[..n];
      PlanAllStays(env, w, items[..|items| - 1], n);
    } else {
      assert items[..n] == items;
    }
  }

  // ---------------------------------------------------------------- every item has one fate

  ghost function ItemsOf(plans: seq<Plan>): multiset<Item> {
    if plans == [] then multiset{}
    else ItemsOf(plans[..|plans| - 1]) + multiset{plans[|plans| - 1].item}
  }

  ghost function Total(p: Progress): multiset<Item> {
    ItemsOf(p.plans) + multiset(p.deferred) + multiset(p.rolledBack)
  }

  lemma {:induction false} PlanAllConserves(env: Env, w: Window, items: seq<Item>)
    requires PlanAll(env, w, items).Ok?
    ensures multiset(items) == Total(PlanAll(env, w, items).value)
  {
    if items != [] {
      var init, item := items[..|items| - 1], items[|items| - 1];
      PlanAllConserves(env, w, init);
      PlanOneAddsOne(env, w, |items| - 1, PlanAll(env, w, init).value, item);
      WholeStep(items);
      hide PlanOne, Total;
    }
  }

  lemma PlanOneAddsOne(env: Env, w: Window, index: nat, p: Progress, item: Item)
    requires PlanOne(env, w, index, p, item).Ok?
    ensures Total(PlanOne(env, w, index, p, item).value) == Total(p) + multiset{item}
  {
    var q := PlanOne(env, w, index, p, item).value;
    PlanOneAppends(env, w, index, p, item);
    var one := multiset{item};
    if |q.plans| > |p.plans| { assert q.plans[..|q.plans| - 1] == p.plans; }
    hide PlanOne;
    SumsGrow(ItemsOf(p.plans), multiset(p.deferred), multiset(p.rolledBack),
      ItemsOf(q.plans), multiset(q.deferred), multiset(q.rolledBack), one);
  }

  /** A step appends the item to exactly one list. */
  lemma PlanOneAppends(env: Env, w: Window, index: nat, p: Progress, item: Item)
    requires PlanOne(env, w, index, p, item).Ok?
    ensures var q := PlanOne(env, w, index, p, item).value;
      || (q.deferred == p.deferred + [item] && q.plans == p.plans && q.rolledBack == p.rolledBack)
      || (q.rolledBack == p.rolledBack + [item] && q.plans == p.plans && q.deferred == p.deferred)
      || (|q.plans| == |p.plans| + 1 && q.plans[..|p.plans|] == p.plans && q.plans[|p.plans|].item == item
          && q.deferred == p.deferred && q.rolledBack == p.rolledBack)
  {
  }

  /** Planning loses no item and invents none: each is planned, deferred, superseded, skipped or
      reported as a rollback, as often as it was pulled. */
  lemma ManifestIsPartitioned(env: Env, manifest: seq<Item>, defers: bool)
    requires PlanSpec(env, manifest, defers).Ok?
    ensures var r := PlanSpec(env, manifest, defers).value;
      multiset(manifest) == ItemsOf(r.plans) + multiset(r.deferred) + multiset(r.superseded) + multiset(r.skipped)
        + multiset(r.rolledBack)
  {
    var accepted := Select(manifest, Accepts(env));
    var active := Active(env, manifest);
    SelectsSplit(manifest, Accepts(env), Skips(env), RefusesRejected(env));
    SelectsSplit(accepted, Stays(env, accepted), Supersedes(env, accepted), RefusesLoser(env, accepted));
    PlanAllConserves(env, WindowFor(env, active, defers), active);
  }

  // ---------------------------------------------------------------- who waits

  /** Waits after the second look, at the entries that still move along. */
  predicate Waits(env: Env, w: Window, item: Item) {
    || Late(item, w.threshold)
    || (w.defers && !IsRollback(env, item) && !item.state.deleted && OwnedOutside(env, item, w.moving)
        && !env.managed(item.metadata.path))
  }

  lemma {:induction false} PlanAllDefers(env: Env, w: Window, items: seq<Item>, item: Item)
    requires PlanAll(env, w, items).Ok?
    ensures item in PlanAll(env, w, items).value.deferred <==> item in items && Waits(env, w, item)
  {
    if items != [] {
      var init, last := items[..|items| - 1], items[|items| - 1];
      PlanAllDefers(env, w, init, item);
      var before, after := PlanAll(env, w, init).value, PlanAll(env, w, items).value;
      PlanOneDefers(env, w, |items| - 1, before, last);
      assert items == init + [last];
      hide PlanOne, Waits;
    }
  }

  lemma PlanOneDefers(env: Env, w: Window, index: nat, p: Progress, item: Item)
    requires PlanOne(env, w, index, p, item).Ok?
    ensures PlanOne(env, w, index, p, item).value.deferred == p.deferred + if Waits(env, w, item) then [item] else []
  {
  }

  /** Exactly the items that wait are deferred. Among them is every item at or above the smallest
      updatedSeq that the deferral loop set aside, so nothing newer is applied before it. */
  lemma DeferredExactly(env: Env, manifest: seq<Item>, defers: bool, item: Item)
    requires PlanSpec(env, manifest, defers).Ok?
    ensures var active := Active(env, manifest);
      var waiting := if defers then DeferFrom(env, active, {}) else {};
      var deferred := PlanSpec(env, manifest, defers).value.deferred;
      && (item in deferred <==> item in active && Waits(env, WindowFor(env, active, defers), item))
      && (item in active && item.state.entryId in waiting ==> item in deferred)
      && (forall first | item in active && first in active && first.state.entryId in waiting
            && first.state.updatedSeq <= item.state.updatedSeq :: item in deferred)
  {
    var active := Active(env, manifest);
    var w := WindowFor(env, active, defers);
    PlanAllDefers(env, w, active, item);
    ThresholdIsSmallest(active, if defers then DeferFrom(env, active, {}) else {});
  }

  lemma NothingWaits(env: Env, active: seq<Item>, item: Item)
    requires item in active
    ensures !Waits(env, WindowFor(env, active, false), item)
  {
    ThresholdIsSmallest(active, {});
  }

  /** A final window defers nothing. */
  lemma FinalWindowDefersNothing(env: Env, manifest: seq<Item>)
    requires PlanSpec(env, manifest, false).Ok?
    ensures PlanSpec(env, manifest, false).value.deferred == []
  {
    var deferred := PlanSpec(env, manifest, false).value.deferred;
    if deferred != [] {
      var item := deferred[0];
      DeferredExactly(env, manifest, false, item);
      NothingWaits(env, Active(env, manifest), item);
      assert false;
    }
  }

  // ---------------------------------------------------------------- what is planned

  /** What every plan promises about its item, its target and the path's owner. */
  ghost predicate Sound(env: Env, w: Window, plan: Plan) {
    var item := plan.item;
    var path := item.metadata.path;
    var owner := env.store.byPath(path);
    && !IsRollback(env, item)
    && plan.existing == env.store.byId(item.state.entryId)
    && (plan.finalPath.None? <==> item.state.deleted)
    && (plan.conflict.Some? ==>
          plan.finalPath == Some(plan.conflict.value.conflictPath) && plan.finalPath.value !in env.vault)
    && (plan.finalPath.Some? && plan.conflict.None? ==> plan.finalPath == Some(path))
    && (plan.displaced.Some? ==> env.managed(path) && plan.displaced == owner)
    && (plan.finalPath == Some(path) && owner.Some? && owner.value.entryId != item.state.entryId ==>
          plan.adopted.Some? || plan.displaced == owner || owner.value.entryId in w.moving)
    && (plan.adopted.Some? ==> owner == Some(plan.adopted.value.entry) && owner.value.revision == 0)
    && (plan.vaultMove.Some? ==>
          && plan.existing.Some? && plan.existing.value.path == Some(plan.vaultMove.value.source)
          && plan.finalPath == Some(plan.vaultMove.value.target)
          && plan.vaultMove.value.source in env.vault && plan.vaultMove.value.target !in env.vault
          && env.store.dirty(item.state.entryId).None?)
  }

  lemma LivePlanIsSound(env: Env, w: Window, index: nat, reserved: map<Path, EntryId>, item: Item)
    requires !item.state.deleted && !IsRollback(env, item)
    ensures Sound(env, w, LivePlan(env, w, index, reserved, item))
  {
    CollisionPathIsFree(env, reserved, item.metadata.path, index);
    hide CollisionPath, IsRollback;
  }

  lemma PlanOneIsSound(env: Env, w: Window, index: nat, p: Progress, item: Item, plan: Plan)
    requires PlanOne(env, w, index, p, item).Ok? && plan in PlanOne(env, w, index, p, item).value.plans && plan !in p.plans
    ensures Sound(env, w, plan) && plan.item == item
  {
    if item.state.deleted {
      assert plan == DeletedPlan(env, item);
    } else {
      LivePlanIsSound(env, w, index, p.reserved, item);
      assert plan == LivePlan(env, w, index, p.reserved, item);
    }
  }

  lemma {:induction false} PlanAllIsSound(env: Env, w: Window, items: seq<Item>, plan: Plan)
    requires PlanAll(env, w, items).Ok? && plan in PlanAll(env, w, items).value.plans
    ensures Sound(env, w, plan) && plan.item in items
  {
    hide PlanOne, Sound;
    var init, item := items[..|items| - 1], items[|items| - 1];
    var before := PlanAll(env, w, init).value;
    if plan in before.plans {
      PlanAllIsSound(env, w, init, plan);
    } else {
      PlanOneIsSound(env, w, |init|, before, item, plan);
    }
  }

  /** No plan ever goes back behind the stored revision, and every target is the pulled path or a free
      conflict name; a pulled path owned by another entry is adopted, displaced or moving along. */
  lemma PlansAreSound(env: Env, manifest: seq<Item>, defers: bool, plan: Plan)
    requires PlanSpec(env, manifest, defers).Ok? && plan in PlanSpec(env, manifest, defers).value.plans
    ensures Sound(env, WindowFor(env, Active(env, manifest), defers), plan) && plan.item in Active(env, manifest)
    ensures plan.existing.Some? ==> plan.existing.value.revision <= plan.item.state.revision
  {
    PlanAllIsSound(env, WindowFor(env, Active(env, manifest), defers), Active(env, manifest), plan);
  }

  lemma {:induction false} RefusedAreRollbacks(env: Env, w: Window, items: seq<Item>, item: Item)
    requires PlanAll(env, w, items).Ok? && item in PlanAll(env, w, items).value.rolledBack
    ensures IsRollback(env, item) && item in items
  {
    var init := items[..|items| - 1];
    if item in PlanAll(env, w, init).value.rolledBack {
      RefusedAreRollbacks(env, w, init, item);
    }
  }

  /** In a final window an entry that still owns a planned path is itself planned away or was refused as a rollback. */
  lemma FinalWindowOwnersMove(env: Env, manifest: seq<Item>, plan: Plan)
    requires PlanSpec(env, manifest, false).Ok? && plan in PlanSpec(env, manifest, false).value.plans
    requires plan.finalPath.Some? && plan.conflict.None? && plan.adopted.None? && plan.displaced.None?
    ensures var owner := env.store.byPath(plan.item.metadata.path);
      var r := PlanSpec(env, manifest, false).value;
      owner.None? || owner.value.entryId == plan.item.state.entryId
      || (exists other: Item :: other.state.entryId == owner.value.entryId && (other in ItemsOf(r.plans) || other in r.rolledBack))
  {
    var owner := env.store.byPath(plan.item.metadata.path);
    var active := Active(env, manifest);
    var w := WindowFor(env, active, false);
    PlansAreSound(env, manifest, false, plan);
    if owner.Some? && owner.value.entryId != plan.item.state.entryId {
      var other :| other in Select(active, InTime(w.threshold)) && other.state.entryId == owner.value.entryId;
      SelectContains(active, InTime(w.threshold), other);
      FinalWindowDefersNothing(env, manifest);
      PlanAllConserves(env, w, active);
      assert other in multiset(active);
    }
  }

  // ---------------------------------------------------------------- distinct targets

  /** No conflict name is a managed config path. */
  ghost predicate NoManagedCopies(env: Env) {
    forall path, k, n: nat :: !env.managed(Files.BuildConflictCopyPath(path, env.clock(k), n))
  }

  /** The config rules never manage a conflict name, so targets are distinct under them. */
  lemma ConfigRulesManageNoCopies(env: Env, configDir: Path, chosen: string -> bool)
    requires forall path :: env.managed(path) ==> Files.IsManagedConfigPath(path, configDir, chosen)
    requires forall k :: Files.IsTimestamp(env.clock(k))
    ensures NoManagedCopies(env)
  {
    forall path, k, n: nat ensures !env.managed(Files.BuildConflictCopyPath(path, env.clock(k), n)) {
      Files.ConflictCopyIsNotManaged(path, env.clock(k), n, configDir, chosen);
    }
  }

  ghost predicate NamedIds(items: seq<Item>) { forall item | item in items :: item.state.entryId != "" }

  /** At most one active live item names a managed path. */
  ghost predicate SingleClaims(env: Env, items: seq<Item>) {
    forall i, j | 0 <= i < j < |items| && !items[i].state.deleted && !items[j].state.deleted
      && items[i].metadata.path == items[j].metadata.path :: !env.managed(items[i].metadata.path)
  }

  lemma WinnersClaimAlone(env: Env, manifest: seq<Item>)
    requires Distinct(manifest) && NamedIds(manifest)
    ensures Distinct(Active(env, manifest)) && NamedIds(Active(env, manifest)) && SingleClaims(env, Active(env, manifest))
  {
    var accepted := Select(manifest, Accepts(env));
    var active := Active(env, manifest);
    SelectIsDistinct(manifest, Accepts(env));
    SelectIsDistinct(accepted, Stays(env, accepted));
    forall item | item in active
      ensures item in accepted && !Loses(env, accepted, item) && item.state.entryId != ""
    {
      SelectContains(accepted, Stays(env, accepted), item);
      SelectContains(manifest, Accepts(env), item);
    }
    forall i, j | 0 <= i < j < |active| && !active[i].state.deleted && !active[j].state.deleted
      && active[i].metadata.path == active[j].metadata.path
      ensures !env.managed(active[i].metadata.path)
    {
      var path := active[i].metadata.path;
      if env.managed(path) {
        WinnerIsNewest(env, accepted, path);
        assert active[i] in active && active[j] in active;
        assert Contends(env, active[i], path);
        var winner := Winner(env, accepted, path).value;
        SelectContains(manifest, Accepts(env), winner);
        assert false;
      }
    }
  }

  /** Each reserved path is a planned target, held under a non-empty id; it is the path of a live item or a conflict name. */
  ghost predicate ReservationsMatch(env: Env, items: seq<Item>, p: Progress) {
    && (forall path | path in p.reserved :: p.reserved[path] != ""
          && (IsCopy(env, path) || exists item :: item in items && !item.state.deleted && item.metadata.path == path))
    && (forall plan | plan in p.plans && plan.finalPath.Some? :: plan.finalPath.value in p.reserved)
  }

  ghost predicate IsCopy(env: Env, path: Path) {
    exists original, k, n: nat :: path == Files.BuildConflictCopyPath(original, env.clock(k), n)
  }

  ghost predicate DistinctTargets(plans: seq<Plan>) {
    forall i, j | 0 <= i < j < |plans| && plans[i].finalPath.Some? :: plans[i].finalPath != plans[j].finalPath
  }

  lemma LivePlanIsNew(env: Env, w: Window, items: seq<Item>, p: Progress)
    requires items != [] && NoManagedCopies(env) && SingleClaims(env, items)
    requires ReservationsMatch(env, items[..|items| - 1], p)
    requires !items[|items| - 1].state.deleted
    ensures var target := LivePlan(env, w, |items| - 1, p.reserved, items[|items| - 1]).finalPath.value;
      target !in p.reserved && (IsCopy(env, target) || target == items[|items| - 1].metadata.path)
  {
    var item := items[|items| - 1];
    CollisionPathIsFree(env, p.reserved, item.metadata.path, |items| - 1);
    hide CollisionPath, OwnedOutside;
  }

  lemma ReservingKeepsMatch(env: Env, items: seq<Item>, p: Progress, plan: Plan)
    requires items != [] && NamedIds(items) && ReservationsMatch(env, items[..|items| - 1], p) && DistinctTargets(p.plans)
    requires var item := items[|items| - 1];
      && plan.finalPath.Some? && plan.finalPath.value !in p.reserved && !item.state.deleted
      && (IsCopy(env, plan.finalPath.value) || plan.finalPath.value == item.metadata.path)
    ensures var q := p.(plans := p.plans + [plan],
        reserved := p.reserved[plan.finalPath.value := items[|items| - 1].state.entryId]);
      ReservationsMatch(env, items, q) && DistinctTargets(q.plans)
  {
    hide IsCopy;
    forall i | 0 <= i < |p.plans| ensures p.plans[i].finalPath != plan.finalPath {
      assert p.plans[i] in p.plans;
    }
    assert items[|items| - 1] in items;
  }

  lemma AddingKeepsMatch(env: Env, items: seq<Item>, p: Progress, plan: Plan)
    requires items != [] && ReservationsMatch(env, items[..|items| - 1], p) && DistinctTargets(p.plans)
    requires plan.finalPath.None?
    ensures ReservationsMatch(env, items, p)
    ensures ReservationsMatch(env, items, p.(plans := p.plans + [plan])) && DistinctTargets(p.plans + [plan])
  {
    hide IsCopy;
  }

  lemma PlanOneKeepsMatch(env: Env, w: Window, items: seq<Item>, p: Progress)
    requires NoManagedCopies(env) && SingleClaims(env, items) && NamedIds(items)
    requires items != [] && ReservationsMatch(env, items[..|items| - 1], p) && DistinctTargets(p.plans)
    requires PlanOne(env, w, |items| - 1, p, items[|items| - 1]).Ok?
    ensures var q := PlanOne(env, w, |items| - 1, p, items[|items| - 1]).value;
      ReservationsMatch(env, items, q) && DistinctTargets(q.plans)
  {
    var item := items[|items| - 1];
    AddingKeepsMatch(env, items, p, DeletedPlan(env, item));
    assert ReservationsMatch(env, items, p) ==>
      ReservationsMatch(env, items, p.(deferred := p.deferred + [item]))
      && ReservationsMatch(env, items, p.(rolledBack := p.rolledBack + [item]));
    if !item.state.deleted {
      LivePlanIsNew(env, w, items, p);
      ReservingKeepsMatch(env, items, p, LivePlan(env, w, |items| - 1, p.reserved, item));
    }
    hide IsCopy, LivePlan, OwnedOutside, ReservationsMatch, IsRollback, DistinctTargets, SingleClaims, NoManagedCopies, NamedIds;
  }

  lemma {:induction false} PlanAllKeepsTargetsDistinct(env: Env, w: Window, items: seq<Item>)
    requires NoManagedCopies(env) && SingleClaims(env, items) && NamedIds(items)
    requires PlanAll(env, w, items).Ok?
    ensures var p := PlanAll(env, w, items).value;
      ReservationsMatch(env, items, p) && DistinctTargets(p.plans)
  {
    hide PlanOne, NoManagedCopies;
    if items != [] {
      var init := items[..|items| - 1];
      assert SingleClaims(env, init) && NamedIds(init);
      PlanAllKeepsTargetsDistinct(env, w, init);
      PlanOneKeepsMatch(env, w, items, PlanAll(env, w, init).value);
    }
  }

  /** Entries pulled together never end at the same path. */
  lemma LiveTargetsAreDistinct(env: Env, manifest: seq<Item>, defers: bool)
    requires Distinct(manifest) && NamedIds(manifest) && NoManagedCopies(env)
    requires PlanSpec(env, manifest, defers).Ok?
    ensures DistinctTargets(PlanSpec(env, manifest, defers).value.plans)
  {
    WinnersClaimAlone(env, manifest);
    PlanAllKeepsTargetsDistinct(env, WindowFor(env, Active(env, manifest), defers), Active(env, manifest));
  }

  /** A superseded item lost its managed path to a newer live item that stays active. */
  lemma SupersededLostToNewer(env: Env, manifest: seq<Item>, item: Item, defers: bool)
    requires Distinct(manifest) && NamedIds(manifest)
    requires PlanSpec(env, manifest, defers).Ok? && item in PlanSpec(env, manifest, defers).value.superseded
    ensures exists winner ::
      && winner in Active(env, manifest) && Contends(env, winner, item.metadata.path)
      && (item.state.deleted || Newer(winner, item))
  {
    var path := item.metadata.path;
    var accepted := Select(manifest, Accepts(env));
    SelectContains(accepted, Supersedes(env, accepted), item);
    WinnerIsNewest(env, accepted, path);
    var winner := Winner(env, accepted, path).value;
    SelectContains(accepted, Stays(env, accepted), winner);
    if !item.state.deleted {
      assert Contends(env, item, path);
      NewerIsTotal(winner, item);
    }
  }

  // ---------------------------------------------------------------- the view of a store

  ghost predicate OwnsLocally(entries: Table.Entries, id: EntryId, path: Path) {
    id in entries && LocalKey(entries[id]) == Some(path)
  }

  ghost predicate OwnsRemotely(entries: Table.Entries, id: EntryId, path: Path) {
    id in entries && RemoteKey(entries[id]) == Some(path)
  }

  /** The local key decides; the remote key only when the entry's local path is unknown or the same. */
  ghost function GetEntryByPath(entries: Table.Entries, path: Path): Option<EntryRow> {
    if exists id :: OwnsLocally(entries, id, path) then
      var id :| OwnsLocally(entries, id, path);
      ToCombinedRow(entries[id])
    else if exists id :: OwnsRemotely(entries, id, path) then
      var id :| OwnsRemotely(entries, id, path);
      if entries[id].local.Some? && entries[id].local.value.path != Some(path) then None
      else ToCombinedRow(entries[id])
    else None
  }

  ghost function View(entries: Table.Entries): Store {
    Store(id => Table.GetEntryById(entries, id), path => GetEntryByPath(entries, path),
      id => Table.GetDirtyMutation(entries, id))
  }

  lemma OwnerIsItsRow(entries: Table.Entries, path: Path)
    requires (forall id | id in entries :: entries[id].entryId == id) && GetEntryByPath(entries, path).Some?
    ensures Table.GetEntryById(entries, GetEntryByPath(entries, path).value.entryId) == GetEntryByPath(entries, path)
  {
    var id :| id in entries && ToCombinedRow(entries[id]) == GetEntryByPath(entries, path);
    hide GetEntryByPath;
    assert entries[id].entryId == id;
  }

  /** In every reachable store the metadata of each pending mutation opens, so judging an adoption never raises,
      and the owner of a path is the row of an existing entry. */
  lemma ReachableStoresOpen(entries: Table.Entries, history: Table.History)
    requires Table.Invariant(entries, history)
    ensures Opens(View(entries))
    ensures forall path :: var owner := View(entries).byPath(path);
      owner.Some? ==> View(entries).byId(owner.value.entryId) == owner
  {
    forall id | id in entries ensures entries[id].entryId == id {
      assert Table.GoodRecord(history, id, entries[id]);
    }
    forall id | id in entries && entries[id].pending.Some?
      ensures Open(entries[id].pending.value.metadata, MutationContext(entries[id].pending.value)).Some?
    {
      assert Table.GoodRecord(history, id, entries[id]);
    }
    forall path | GetEntryByPath(entries, path).Some?
      ensures Table.GetEntryById(entries, GetEntryByPath(entries, path).value.entryId) == GetEntryByPath(entries, path)
    {
      OwnerIsItsRow(entries, path);
    }
    hide Table.Invariant, Table.UniquePaths, GetEntryByPath, Table.GetEntryById;
  }
}

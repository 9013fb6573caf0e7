/**
 Comparing the files on disk with the store: which entries a scanned file continues, which files
 were renamed, restored or added, and which entries lost their file.
 */
module Reconcile {
  import opened Common
  import opened EntryRecords
  import opened EntryStore

  /** A scanned file; `hash` is what reading it would give. */
  datatype File = File(path: Path, hash: string, mtime: int, size: nat)

  /** The store's table with the order in which it lists its entries, the scan, the path rules, and the
      random ids, blob ids and the time the run would be given. */
  datatype Run = Run(table: Entries, order: seq<EntryId>, files: seq<File>, syncable: Path -> bool,
    mintEntry: nat -> EntryId, mint: nat -> MutationId, mintBlob: nat -> string, now: int)

  // ---------------------------------------------------------------- indexes

  /** The last element that satisfies the condition, as a map filled in order keeps it. */
  function LastOf(order: seq<EntryId>, holds: EntryId -> bool): (r: Option<EntryId>)
    ensures r.Some? ==> r.value in order && holds(r.value)
    ensures r.None? ==> forall id | id in order :: !holds(id)
  {
    if order == [] then None
    else if holds(order[|order| - 1]) then Some(order[|order| - 1])
    else LastOf(order[..|order| - 1], holds)
  }

  lemma LastOfIsLast(order: seq<EntryId>, holds: EntryId -> bool, i: nat)
    requires i < |order| && holds(order[i])
    ensures exists k :: i <= k < |order| && LastOf(order, holds) == Some(order[k])
  {
    if holds(order[|order| - 1]) {
      assert i <= |order| - 1 < |order|;
    } else {
      LastOfIsLast(order[..|order| - 1], holds, i);
      var k :| i <= k < |order| - 1 && LastOf(order[..|order| - 1], holds) == Some(order[..|order| - 1][k]);
      assert order[..|order| - 1][k] == order[k];
    }
  }

  function Filter(order: seq<EntryId>, holds: EntryId -> bool): (r: seq<EntryId>)
    ensures forall id :: id in r <==> id in order && holds(id)
  {
    if order == [] then []
    else Filter(order[..|order| - 1], holds) + if holds(order[|order| - 1]) then [order[|order| - 1]] else []
  }

  predicate Present(s: Option<string>) { s.Some? && s.value != "" }

  /** Entries at paths outside the rules are not compared. */
  predicate Retained(run: Run, id: EntryId) {
    id in run.table && (LocalKey(run.table[id]).Some? ==> run.syncable(LocalKey(run.table[id]).value))
  }

  predicate LivesAt(run: Run, id: EntryId, path: Path) {
    Retained(run, id) && LocalKey(run.table[id]) == Some(path)
  }

  function DeletedPath(record: EntryRecord): Option<Path> {
    if record.pending.None? || record.pending.value.op != Delete || record.local.None? then None
    else
      var content := Open(record.pending.value.metadata, MutationContext(record.pending.value));
      if content.None? then None else Some(content.value.path)
  }

  /** The entry has a pending delete of this path and a known local state. */
  predicate DeletesAt(run: Run, id: EntryId, path: Path) {
    Retained(run, id) && DeletedPath(run.table[id]) == Some(path)
  }

  predicate RemotelyAt(run: Run, id: EntryId, path: Path) {
    && Retained(run, id) && RemoteKey(run.table[id]) == Some(path)
    && (run.table[id].local.None? || run.table[id].local.value.path == Some(path))
  }

  function Living(run: Run, path: Path): EntryId -> bool { id => LivesAt(run, id, path) }
  function Deleting(run: Run, path: Path): EntryId -> bool { id => DeletesAt(run, id, path) }
  function Remote(run: Run, path: Path): EntryId -> bool { id => RemotelyAt(run, id, path) }

  function Existing(run: Run, path: Path): Option<EntryId> { LastOf(run.order, Living(run, path)) }
  function PendingDelete(run: Run, path: Path): Option<EntryId> { LastOf(run.order, Deleting(run, path)) }
  function VisibleRemote(run: Run, path: Path): Option<EntryId> { LastOf(run.order, Remote(run, path)) }

  predicate Scanned(files: seq<File>, path: Path) { exists k | 0 <= k < |files| :: files[k].path == path }

  /** The entry had a file that the scan no longer finds. */
  predicate Lost(run: Run, id: EntryId) {
    Retained(run, id) && LocalKey(run.table[id]).Some? && !Scanned(run.files, LocalKey(run.table[id]).value)
  }

  predicate RenameCandidate(run: Run, id: EntryId) { Lost(run, id) && Present(run.table[id].local.value.hash) }

  function Renamable(run: Run): EntryId -> bool { id => RenameCandidate(run, id) }

  function HasHash(run: Run, hash: string): EntryId -> bool {
    id => id in run.table && run.table[id].local.Some? && run.table[id].local.value.hash == Some(hash)
  }

  function FirstOf(ids: seq<EntryId>, holds: EntryId -> bool): (r: Option<EntryId>)
    ensures r.Some? ==> r.value in ids && holds(r.value)
    ensures r.None? ==> forall id | id in ids :: !holds(id)
  {
    if ids == [] then None else if holds(ids[0]) then Some(ids[0]) else FirstOf(ids[1..], holds)
  }

  // ---------------------------------------------------------------- the fate of a file

  /** How a file was matched to an entry. */
  datatype Origin = ByPath | Restored | Renamed | ByRemote | Added

  datatype Fate = Skip(id: EntryId) | Touch(id: EntryId) | Queue(id: EntryId, origin: Origin)

  /** Unchanged stamps let the recorded hash stand. */
  predicate CanSkipHash(local: LocalRow, file: File) {
    !local.deleted && Present(local.hash) && local.mtime == Some(file.mtime) && local.size == Some(file.size)
  }

  function FateOf(run: Run, candidates: seq<EntryId>, i: nat): Fate
    requires i < |run.files|
  {
    var file := run.files[i];
    var existing := Existing(run, file.path);
    var pendingDelete := PendingDelete(run, file.path);
    if existing.Some? then
      var local := run.table[existing.value].local.value;
      if pendingDelete == existing then Queue(existing.value, ByPath)
      else if CanSkipHash(local, file) then Skip(existing.value)
      else if local.hash == Some(file.hash) then Touch(existing.value)
      else Queue(existing.value, ByPath)
    else if pendingDelete.Some? then Queue(pendingDelete.value, Restored)
    else
      var matched := FirstOf(candidates, HasHash(run, file.hash));
      if matched.Some? then Queue(matched.value, Renamed)
      else
        var remote := VisibleRemote(run, file.path);
        if remote.Some? then Queue(remote.value, ByRemote) else Queue(run.mintEntry(i), Added)
  }

  predicate IsRename(fate: Fate) { fate.Queue? && fate.origin.Renamed? }

  function OtherThan(id: EntryId): EntryId -> bool { x => x != id }

  function WithoutId(ids: seq<EntryId>, id: EntryId): seq<EntryId> { Filter(ids, OtherThan(id)) }

  /** The rename candidates left before file `n`. */
  function Candidates(run: Run, n: nat): seq<EntryId>
    requires n <= |run.files|
  {
    if n == 0 then Filter(run.order, Renamable(run))
    else
      var before := Candidates(run, n - 1);
      var fate := FateOf(run, before, n - 1);
      if IsRename(fate) then WithoutId(before, fate.id) else before
  }

  function FateAt(run: Run, i: nat): Fate
    requires i < |run.files|
  {
    FateOf(run, Candidates(run, i), i)
  }

  // ---------------------------------------------------------------- what a run may rely on

  ghost predicate DistinctIds(ids: seq<EntryId>) { forall i, j | 0 <= i < j < |ids| :: ids[i] != ids[j] }

  /** Distinct, syncable, readable files. */
  ghost predicate GoodScan(run: Run) {
    && (forall i, j | 0 <= i < j < |run.files| :: run.files[i].path != run.files[j].path)
    && (forall i | 0 <= i < |run.files| ::
          run.files[i].path != "" && run.files[i].hash != "" && run.syncable(run.files[i].path))
  }

  /** An entry with a pending delete has lost its local path, or still is where the delete names it. */
  ghost predicate SettledDelete(run: Run, id: EntryId) {
    Retained(run, id) && DeletedPath(run.table[id]).Some? ==>
      || LocalKey(run.table[id]) == DeletedPath(run.table[id])
      || (run.table[id].local.value.deleted && !Present(run.table[id].local.value.path))
  }

  /** A file whose time and size are the recorded ones has the recorded content. */
  ghost predicate StampsTell(run: Run) {
    forall id, i | id in run.table && 0 <= i < |run.files| && LocalKey(run.table[id]) == Some(run.files[i].path)
      && CanSkipHash(run.table[id].local.value, run.files[i]) ::
      run.table[id].local.value.hash == Some(run.files[i].hash)
  }

  ghost predicate FreshIds(run: Run, history: History) {
    && (forall i: nat :: run.mintEntry(i) !in run.table)
    && (forall i: nat, j: nat | i < j :: run.mintEntry(i) != run.mintEntry(j))
    && (forall i: nat :: run.mint(i) !in history)
    && (forall i: nat, j: nat | i < j :: run.mint(i) != run.mint(j))
  }

  ghost predicate GoodRun(run: Run, history: History) {
    && Invariant(run.table, history)
    && DistinctIds(run.order) && (forall id :: id in run.table <==> id in run.order)
    && GoodScan(run) && FreshIds(run, history) && StampsTell(run)
    && Listed(run)
  }

  /** The listing names every entry; pending deletes are settled. */
  ghost predicate Listed(run: Run) { forall id | id in run.table :: id in run.order && SettledDelete(run, id) }

  // ---------------------------------------------------------------- each file claims its own entry

  ghost predicate Claims(run: Run, i: nat, fate: Fate)
    requires i < |run.files|
  {
    var path := run.files[i].path;
    if !fate.Queue? || fate.origin.ByPath? then LivesAt(run, fate.id, path)
    else
      match fate.origin
      case Restored => DeletesAt(run, fate.id, path) && LocalKey(run.table[fate.id]).None?
        && run.table[fate.id].local.Some? && !Present(run.table[fate.id].local.value.path)
      case Renamed => RenameCandidate(run, fate.id) && fate.id in Candidates(run, i)
      case ByRemote => RemotelyAt(run, fate.id, path) && LocalKey(run.table[fate.id]).None?
      case Added => fate.id == run.mintEntry(i) && fate.id !in run.table
      case ByPath => true
  }

  lemma CandidatesAreLost(run: Run, n: nat)
    requires n <= |run.files|
    ensures forall id | id in Candidates(run, n) :: RenameCandidate(run, id)
  {
  }

  lemma RestoredClaims(run: Run, path: Path)
    requires Existing(run, path).None? && PendingDelete(run, path).Some?
    requires Listed(run)
    ensures var id := PendingDelete(run, path).value;
      && DeletesAt(run, id, path) && LocalKey(run.table[id]).None?
      && run.table[id].local.Some? && !Present(run.table[id].local.value.path)
  {
    var id := PendingDelete(run, path).value;
    assert SettledDelete(run, id) && !LivesAt(run, id, path);
  }

  lemma RemoteClaims(run: Run, path: Path)
    requires Existing(run, path).None? && VisibleRemote(run, path).Some? && path != "" && Listed(run)
    ensures var id := VisibleRemote(run, path).value; RemotelyAt(run, id, path) && LocalKey(run.table[id]).None?
  {
    assert !LivesAt(run, VisibleRemote(run, path).value, path);
  }

  lemma ExistingLives(run: Run, path: Path)
    ensures Existing(run, path).Some? ==> LivesAt(run, Existing(run, path).value, path)
  {
  }

  lemma MatchedIsCandidate(run: Run, i: nat, hash: string)
    requires i <= |run.files|
    ensures var matched := FirstOf(Candidates(run, i), HasHash(run, hash));
      matched.Some? ==> matched.value in Candidates(run, i) && RenameCandidate(run, matched.value)
  {
    CandidatesAreLost(run, i);
  }

  lemma FateOfClaims(run: Run, i: nat)
    requires i < |run.files| && run.files[i].path != "" && run.mintEntry(i) !in run.table && Listed(run)
    ensures Claims(run, i, FateAt(run, i))
  {
    var file := run.files[i];
    hide Candidates, Listed, DeletesAt, RemotelyAt, RenameCandidate, PendingDelete, VisibleRemote, HasHash, CanSkipHash, FirstOf, Lost,
      Retained;
    ExistingLives(run, file.path);
    if Existing(run, file.path).None? {
      MatchedIsCandidate(run, i, file.hash);
      if PendingDelete(run, file.path).Some? {
        RestoredClaims(run, file.path);
      } else if VisibleRemote(run, file.path).Some? {
        RemoteClaims(run, file.path);
      }
    }
  }

  lemma FateClaims(run: Run, history: History, i: nat)
    requires GoodRun(run, history) && i < |run.files|
    ensures Claims(run, i, FateAt(run, i))
  {
    FateOfClaims(run, i);
  }

  lemma CandidatesShrink(run: Run, i: nat, j: nat)
    requires i <= j <= |run.files|
    ensures forall id | id in Candidates(run, j) :: id in Candidates(run, i)
    decreases j - i
  {
    if i < j { CandidatesShrink(run, i, j - 1); }
  }

  lemma RenamedLeaves(run: Run, i: nat)
    requires i < |run.files| && IsRename(FateAt(run, i))
    ensures FateAt(run, i).id !in Candidates(run, i + 1)
  {
    hide FateOf;
  }

  lemma RenamedIsTaken(run: Run, i: nat, j: nat)
    requires i < j <= |run.files| && IsRename(FateAt(run, i))
    ensures FateAt(run, i).id !in Candidates(run, j)
  {
    RenamedLeaves(run, i);
    hide FateAt, Candidates;
    CandidatesShrink(run, i + 1, j);
  }

  lemma SameKeyMeansSame(table: Entries, history: History, a: EntryId, b: EntryId)
    requires Invariant(table, history) && a in table && b in table
    ensures LocalKey(table[a]).Some? && LocalKey(table[a]) == LocalKey(table[b]) ==> a == b
    ensures RemoteKey(table[a]).Some? && RemoteKey(table[a]) == RemoteKey(table[b]) ==> a == b
  {
  }

  lemma ClaimsAreDistinct(run: Run, history: History, i: nat, f: Fate, j: nat, g: Fate)
    requires Invariant(run.table, history) && i < j < |run.files| && run.files[i].path != run.files[j].path
    requires Claims(run, i, f) && Claims(run, j, g) && run.mintEntry(i) != run.mintEntry(j)
    requires Scanned(run.files, run.files[i].path) && Scanned(run.files, run.files[j].path)
    ensures (IsRename(f) && IsRename(g)) || f.id != g.id
  {
    hide Invariant, Candidates, Scanned;
  }

  /** No two files are matched to the same entry. */
  lemma FatesAreDistinct(run: Run, history: History, i: nat, j: nat)
    requires GoodRun(run, history) && i < j < |run.files|
    ensures FateAt(run, i).id != FateAt(run, j).id
  {
    FateClaims(run, history, i);
    FateClaims(run, history, j);
    if IsRename(FateAt(run, i)) { RenamedIsTaken(run, i, j); }
    assert Scanned(run.files, run.files[i].path) && Scanned(run.files, run.files[j].path);
    assert run.files[i].path != run.files[j].path && run.mintEntry(i) != run.mintEntry(j);
    assert IsRename(FateAt(run, j)) ==> FateAt(run, j).id in Candidates(run, j);
    hide FateAt, GoodRun, Candidates, Scanned, Claims;
    ClaimsAreDistinct(run, history, i, FateAt(run, i), j, FateAt(run, j));
  }

  // ---------------------------------------------------------------- updates

  function RemoteContent(remote: Option<RemoteRow>): Option<Content> {
    if remote.Some? then Some(Content(remote.value.revision, remote.value.deleted, remote.value.blobId, remote.value.hash)) else None
  }

  function LocalContent(local: Option<LocalRow>): Option<Content> {
    if local.Some? then Some(Content(0, local.value.deleted, local.value.blobId, local.value.hash)) else None
  }

  function KnownRemote(run: Run, id: EntryId): Option<RemoteRow> { GetRemoteState(run.table, id) }

  /** The local content an upsert continues: that of the entry the file was matched to. */
  function Previous(run: Run, fate: Fate): Option<LocalRow>
    requires fate.Queue?
  {
    if fate.origin.ByRemote? || fate.origin.Added? then None else GetLocalState(run.table, fate.id)
  }

  function UpsertMutation(run: Run, i: nat, fate: Fate): Mutation
    requires i < |run.files| && fate.Queue?
  {
    BuildLocalUpsert(run.files[i].path, fate.id, RemoteContent(KnownRemote(run, fate.id)), LocalContent(Previous(run, fate)),
      run.files[i].hash, run.mint(i), run.mintBlob(i), run.now)
  }

  /** None when the file is as recorded. */
  function FileUpdate(run: Run, i: nat): Option<Update>
    requires i < |run.files|
  {
    var file, fate := run.files[i], FateAt(run, i);
    match fate
    case Skip(_) => None
    case Touch(id) =>
      var local := if id in run.table then run.table[id].local else None;
      if local.None? then None
      else Some(Update(id, Some(local.value.(mtime := Some(file.mtime), size := Some(file.size))), None, false, false))
    case Queue(id, _) =>
      var m := UpsertMutation(run, i, fate);
      Some(Update(id, Some(LocalRow(id, Some(file.path), m.blobId, Some(file.hash), false, run.now, Some(file.mtime), Some(file.size))),
        Some(m), false, false))
  }

  function RenamedIds(run: Run): set<EntryId> { set i | 0 <= i < |run.files| && IsRename(FateAt(run, i)) :: FateAt(run, i).id }

  /** The server has never accepted the entry. */
  predicate NeverAccepted(run: Run, id: EntryId) {
    KnownRemote(run, id).None? || KnownRemote(run, id).value.revision == 0
  }

  predicate Vanished(run: Run, id: EntryId) { Lost(run, id) && id !in RenamedIds(run) }

  function VanishedUpdate(run: Run, k: nat): Option<Update>
    requires k < |run.order|
  {
    var id := run.order[k];
    if !Vanished(run, id) then None
    else if NeverAccepted(run, id) then Some(Update(id, None, None, true, true))
    else
      var m := BuildLocalDelete(id, RemoteContent(KnownRemote(run, id)).value, LocalKey(run.table[id]).value,
        run.mint(|run.files| + k), run.now);
      Some(Update(id, Some(LocalRow(id, None, None, None, true, run.now, None, None)), Some(m), false, false))
  }

  predicate Outside(run: Run, id: EntryId) { id in run.table && !Retained(run, id) }

  function CleanupUpdate(run: Run, k: nat): Option<Update>
    requires k < |run.order|
  {
    var id := run.order[k];
    if !Outside(run, id) then None else Some(Update(id, None, None, true, NeverAccepted(run, id)))
  }

  function ToSeq<T>(o: Option<T>): seq<T> { if o.Some? then [o.value] else [] }

  function Cleanups(run: Run, n: nat): seq<Update>
    requires n <= |run.order|
  {
    if n == 0 then [] else Cleanups(run, n - 1) + ToSeq(CleanupUpdate(run, n - 1))
  }

  function FileUpdates(run: Run, n: nat): seq<Update>
    requires n <= |run.files|
  {
    if n == 0 then [] else FileUpdates(run, n - 1) + ToSeq(FileUpdate(run, n - 1))
  }

  function VanishedUpdates(run: Run, n: nat): seq<Update>
    requires n <= |run.order|
  {
    if n == 0 then [] else VanishedUpdates(run, n - 1) + ToSeq(VanishedUpdate(run, n - 1))
  }

  function Updates(run: Run): seq<Update> {
    Cleanups(run, |run.order|) + FileUpdates(run, |run.files|) + VanishedUpdates(run, |run.order|)
  }

  // ---------------------------------------------------------------- one update each

  ghost predicate FromCleanup(run: Run, u: Update) {
    exists k :: 0 <= k < |run.order| && CleanupUpdate(run, k) == Some(u)
  }

  ghost predicate FromFile(run: Run, u: Update) {
    exists i :: 0 <= i < |run.files| && FileUpdate(run, i) == Some(u)
  }

  ghost predicate FromVanished(run: Run, u: Update) {
    exists k :: 0 <= k < |run.order| && VanishedUpdate(run, k) == Some(u)
  }

  ghost predicate OneEach(updates: seq<Update>) {
    forall i, j | 0 <= i < j < |updates| :: updates[i].entryId != updates[j].entryId
  }

  lemma OneMore(updates: seq<Update>, o: Option<Update>)
    requires OneEach(updates) && (o.Some? ==> forall u | u in updates :: u.entryId != o.value.entryId)
    ensures OneEach(updates + ToSeq(o))
  {
  }

  lemma CleanupUpdateId(run: Run, k: nat)
    requires k < |run.order|
    ensures CleanupUpdate(run, k).Some? ==> CleanupUpdate(run, k).value.entryId == run.order[k] && Outside(run, run.order[k])
    ensures Outside(run, run.order[k]) ==> CleanupUpdate(run, k).Some?
  {
  }

  lemma VanishedUpdateId(run: Run, k: nat)
    requires k < |run.order|
    ensures VanishedUpdate(run, k).Some? ==> VanishedUpdate(run, k).value.entryId == run.order[k] && Vanished(run, run.order[k])
    ensures Vanished(run, run.order[k]) ==> VanishedUpdate(run, k).Some?
  {
    hide Lost, RenamedIds;
  }

  lemma CleanupsAreFrom(run: Run, n: nat)
    requires n <= |run.order|
    ensures forall u | u in Cleanups(run, n) :: exists k :: 0 <= k < n && CleanupUpdate(run, k) == Some(u)
    ensures forall k | 0 <= k < n && CleanupUpdate(run, k).Some? :: CleanupUpdate(run, k).value in Cleanups(run, n)
  {
    hide CleanupUpdate;
    if n > 0 { CleanupsAreFrom(run, n - 1); }
  }

  lemma CleanupsAreOneEach(run: Run, n: nat)
    requires n <= |run.order| && DistinctIds(run.order)
    ensures OneEach(Cleanups(run, n))
  {
    hide CleanupUpdate, OneEach;
    if n > 0 {
      CleanupsAreOneEach(run, n - 1);
      CleanupsAreFrom(run, n - 1);
      CleanupUpdateId(run, n - 1);
      forall u | u in Cleanups(run, n - 1) ensures u.entryId != run.order[n - 1] {
        var k :| 0 <= k < n - 1 && CleanupUpdate(run, k) == Some(u);
        CleanupUpdateId(run, k);
      }
      OneMore(Cleanups(run, n - 1), CleanupUpdate(run, n - 1));
    } else {
      NoneIsOneEach();
    }
  }

  lemma NoneIsOneEach()
    ensures OneEach([])
  {
  }

  lemma VanishedAreFrom(run: Run, n: nat)
    requires n <= |run.order|
    ensures forall u | u in VanishedUpdates(run, n) :: exists k :: 0 <= k < n && VanishedUpdate(run, k) == Some(u)
    ensures forall k | 0 <= k < n && VanishedUpdate(run, k).Some? :: VanishedUpdate(run, k).value in VanishedUpdates(run, n)
  {
    hide VanishedUpdate;
    if n > 0 { VanishedAreFrom(run, n - 1); }
  }

  lemma VanishedAreOneEach(run: Run, n: nat)
    requires n <= |run.order| && DistinctIds(run.order)
    ensures OneEach(VanishedUpdates(run, n))
  {
    hide VanishedUpdate, OneEach;
    if n > 0 {
      VanishedAreOneEach(run, n - 1);
      VanishedAreFrom(run, n - 1);
      VanishedUpdateId(run, n - 1);
      forall u | u in VanishedUpdates(run, n - 1) ensures u.entryId != run.order[n - 1] {
        var k :| 0 <= k < n - 1 && VanishedUpdate(run, k) == Some(u);
        VanishedUpdateId(run, k);
      }
      OneMore(VanishedUpdates(run, n - 1), VanishedUpdate(run, n - 1));
    } else {
      NoneIsOneEach();
    }
  }

  lemma FileUpdateId(run: Run, i: nat)
    requires i < |run.files|
    ensures FileUpdate(run, i).Some? ==> FileUpdate(run, i).value.entryId == FateAt(run, i).id
  {
  }

  lemma FilesAreFrom(run: Run, n: nat)
    requires n <= |run.files|
    ensures forall u | u in FileUpdates(run, n) :: exists i :: 0 <= i < n && FileUpdate(run, i) == Some(u)
    ensures forall i | 0 <= i < n && FileUpdate(run, i).Some? :: FileUpdate(run, i).value in FileUpdates(run, n)
  {
    hide FileUpdate;
    if n > 0 { FilesAreFrom(run, n - 1); }
  }

  lemma EarlierFileDiffers(run: Run, history: History, n: nat, u: Update)
    requires 0 < n <= |run.files| && GoodRun(run, history) && u in FileUpdates(run, n - 1)
    ensures u.entryId != FateAt(run, n - 1).id
  {
    hide FileUpdate, FileUpdates, FateAt, GoodRun;
    FilesAreFrom(run, n - 1);
    var i :| 0 <= i < n - 1 && FileUpdate(run, i) == Some(u);
    FileUpdateId(run, i);
    FatesAreDistinct(run, history, i, n - 1);
  }

  lemma FilesAreOneEach(run: Run, history: History, n: nat)
    requires n <= |run.files| && GoodRun(run, history)
    ensures OneEach(FileUpdates(run, n))
  {
    if n > 0 {
      FilesAreOneEach(run, history, n - 1);
      FileUpdateId(run, n - 1);
      forall u | u in FileUpdates(run, n - 1) ensures u.entryId != FateAt(run, n - 1).id {
        EarlierFileDiffers(run, history, n, u);
      }
      hide FileUpdate, FateAt, GoodRun, OneEach;
      OneMore(FileUpdates(run, n - 1), FileUpdate(run, n - 1));
    }
  }

  /** Which entries the files are matched to: retained ones that have not vanished, or new ones. */
  lemma MatchedIsNeitherLostNorOutside(run: Run, history: History, i: nat)
    requires GoodRun(run, history) && i < |run.files|
    ensures var id := FateAt(run, i).id; !Vanished(run, id) && !Outside(run, id)
  {
    FateClaims(run, history, i);
    assert Scanned(run.files, run.files[i].path);
    if IsRename(FateAt(run, i)) { assert FateAt(run, i).id in RenamedIds(run); }
    hide FateAt, GoodRun, Candidates, RenamedIds, Scanned;
  }

  lemma CleanupIsOutside(run: Run, u: Update)
    requires u in Cleanups(run, |run.order|)
    ensures FromCleanup(run, u) && Outside(run, u.entryId)
  {
    hide CleanupUpdate, Cleanups;
    CleanupsAreFrom(run, |run.order|);
    var k :| 0 <= k < |run.order| && CleanupUpdate(run, k) == Some(u);
    CleanupUpdateId(run, k);
  }

  lemma VanishedIsVanished(run: Run, u: Update)
    requires u in VanishedUpdates(run, |run.order|)
    ensures FromVanished(run, u) && Vanished(run, u.entryId)
  {
    hide VanishedUpdate, VanishedUpdates;
    VanishedAreFrom(run, |run.order|);
    var k :| 0 <= k < |run.order| && VanishedUpdate(run, k) == Some(u);
    VanishedUpdateId(run, k);
  }

  lemma FileIsMatched(run: Run, history: History, u: Update)
    requires GoodRun(run, history) && u in FileUpdates(run, |run.files|)
    ensures FromFile(run, u) && !Vanished(run, u.entryId) && !Outside(run, u.entryId)
  {
    hide FileUpdate, FileUpdates, FateAt, GoodRun;
    FilesAreFrom(run, |run.files|);
    var i :| 0 <= i < |run.files| && FileUpdate(run, i) == Some(u);
    FileUpdateId(run, i);
    MatchedIsNeitherLostNorOutside(run, history, i);
  }

  /** Every entry gets at most one update. */
  lemma EachEntryHasOneUpdate(run: Run, history: History)
    requires GoodRun(run, history)
    ensures OneEach(Updates(run))
    ensures forall u | u in Updates(run) :: FromCleanup(run, u) || FromFile(run, u) || FromVanished(run, u)
  {
    assert DistinctIds(run.order);
    assert forall id :: Vanished(run, id) ==> !Outside(run, id);
    hide Cleanups, FileUpdates, VanishedUpdates, Vanished, Outside, FromCleanup, FromFile, FromVanished, GoodRun, OneEach;
    var a, b, c := Cleanups(run, |run.order|), FileUpdates(run, |run.files|), VanishedUpdates(run, |run.order|);
    CleanupsAreOneEach(run, |run.order|);
    FilesAreOneEach(run, history, |run.files|);
    VanishedAreOneEach(run, |run.order|);
    forall u | u in a ensures FromCleanup(run, u) && Outside(run, u.entryId) { CleanupIsOutside(run, u); }
    forall u | u in b ensures FromFile(run, u) && !Vanished(run, u.entryId) && !Outside(run, u.entryId) {
      FileIsMatched(run, history, u);
    }
    forall u | u in c ensures FromVanished(run, u) && Vanished(run, u.entryId) { VanishedIsVanished(run, u); }
    ThreeParts(run, a, b, c);
  }

  lemma ThreeParts(run: Run, a: seq<Update>, b: seq<Update>, c: seq<Update>)
    requires OneEach(a) && OneEach(b) && OneEach(c)
    requires forall u | u in a :: Outside(run, u.entryId)
    requires forall u | u in b :: !Vanished(run, u.entryId) && !Outside(run, u.entryId)
    requires forall u | u in c :: Vanished(run, u.entryId)
    requires forall id :: Vanished(run, id) ==> !Outside(run, id)
    ensures OneEach(a + b + c)
  {
    hide Vanished, Outside;
    var all := a + b + c;
    forall i, j | 0 <= i < j < |all| ensures all[i].entryId != all[j].entryId {
      assert i < |a| ==> all[i] == a[i] && a[i] in a;
      assert |a| <= i < |a| + |b| ==> all[i] == b[i - |a|] && b[i - |a|] in b;
      assert |a| + |b| <= i ==> all[i] == c[i - |a| - |b|] && c[i - |a| - |b|] in c;
      assert j < |a| ==> all[j] == a[j] && a[j] in a;
      assert |a| <= j < |a| + |b| ==> all[j] == b[j - |a|] && b[j - |a|] in b;
      assert |a| + |b| <= j ==> all[j] == c[j - |a| - |b|] && c[j - |a| - |b|] in c;
    }
  }

  // ---------------------------------------------------------------- applying updates to the table

  ghost predicate OwnKeys(table: Entries) { forall id | id in table :: table[id].entryId == id }

  /** The row an update leaves, unless it deletes. */
  function RowAfter(table: Entries, u: Update): EntryRecord { Updated(GetOrCreate(table, u.entryId), u) }

  predicate SameKey(a: Option<Path>, b: Option<Path>) { a.Some? && a == b }

  /** The row's path keys are held by no other entry of the table. */
  ghost predicate KeySafe(table: Entries, u: Update) {
    u.deleteEntry || forall id | id in table && id != u.entryId ::
      !SameKey(LocalKey(RowAfter(table, u)), LocalKey(table[id])) && !SameKey(RemoteKey(RowAfter(table, u)), RemoteKey(table[id]))
  }

  /** Two updates leave different path keys. */
  ghost predicate PairSafe(table: Entries, u: Update, v: Update) {
    u.deleteEntry || v.deleteEntry
    || (!SameKey(LocalKey(RowAfter(table, u)), LocalKey(RowAfter(table, v)))
        && !SameKey(RemoteKey(RowAfter(table, u)), RemoteKey(RowAfter(table, v))))
  }

  ghost predicate Safe(table: Entries, updates: seq<Update>) {
    && (forall k | 0 <= k < |updates| :: KeySafe(table, updates[k]))
    && (forall j, k | 0 <= j < k < |updates| :: PairSafe(table, updates[j], updates[k]))
  }

  /** Each updated entry has its new row or is gone, and every other entry is as before. */
  ghost predicate Effect(table: Entries, updates: seq<Update>, after: Entries) {
    && (forall k {:trigger updates[k]} | 0 <= k < |updates| ::
          if updates[k].deleteEntry then updates[k].entryId !in after
          else updates[k].entryId in after && after[updates[k].entryId] == RowAfter(table, updates[k]))
    && (forall id | (forall k | 0 <= k < |updates| :: updates[k].entryId != id) :: SameRow(table, after, id))
  }

  ghost predicate SameRow(table: Entries, after: Entries, id: EntryId) {
    (id in after <==> id in table) && (id in table ==> after[id] == table[id])
  }

  lemma UpdateFits(table: Entries, updates: seq<Update>, before: Entries)
    requires updates != [] && OneEach(updates) && Safe(table, updates) && OwnKeys(table)
    requires Effect(table, updates[..|updates| - 1], before) && !updates[|updates| - 1].deleteEntry
    ensures var u := updates[|updates| - 1];
      && Updated(GetOrCreate(before, u.entryId), u) == RowAfter(table, u) && RowAfter(table, u).entryId == u.entryId
      && !Collides(before, RowAfter(table, u))
  {
    var n := |updates| - 1;
    var u, init := updates[n], updates[..n];
    assert forall k | 0 <= k < n :: init[k] == updates[k] && init[k].entryId != u.entryId;
    assert SameRow(table, before, u.entryId);
    var row := RowAfter(table, u);
    assert KeySafe(table, u);
    forall id | id in before && id != u.entryId
      ensures !SameKey(RemoteKey(row), RemoteKey(before[id])) && !SameKey(LocalKey(row), LocalKey(before[id]))
    {
      if k :| 0 <= k < n && init[k].entryId == id {
        assert PairSafe(table, updates[k], u);
      } else {
        assert SameRow(table, before, id);
      }
    }
  }

  lemma EffectGrows(table: Entries, updates: seq<Update>, before: Entries, after: Entries)
    requires updates != [] && OneEach(updates) && Effect(table, updates[..|updates| - 1], before)
    requires var u := updates[|updates| - 1];
      after == if u.deleteEntry then before - {u.entryId} else before[u.entryId := RowAfter(table, u)]
    ensures Effect(table, updates, after)
  {
    var n := |updates| - 1;
    var init := updates[..n];
    hide RowAfter;
    forall k {:trigger updates[k]} | 0 <= k < |updates|
      ensures if updates[k].deleteEntry then updates[k].entryId !in after
        else updates[k].entryId in after && after[updates[k].entryId] == RowAfter(table, updates[k])
    {
      if k < n { assert init[k] == updates[k]; }
    }
    forall id | forall k | 0 <= k < |updates| :: updates[k].entryId != id ensures SameRow(table, after, id) {
      assert updates[n].entryId != id;
      assert forall k | 0 <= k < n :: init[k] == updates[k];
      assert SameRow(table, before, id);
    }
  }

  lemma PrefixIsSafe(table: Entries, updates: seq<Update>)
    requires updates != [] && OneEach(updates) && Safe(table, updates)
    ensures OneEach(updates[..|updates| - 1]) && Safe(table, updates[..|updates| - 1])
  {
    hide KeySafe, PairSafe;
  }

  lemma {:induction false} ReconcileAllSucceeds(table: Entries, updates: seq<Update>)
    requires OneEach(updates) && Safe(table, updates) && OwnKeys(table)
    ensures ReconcileAll(table, updates).Some? && Effect(table, updates, ReconcileAll(table, updates).value)
  {
    hide OneEach, Safe, OwnKeys, RowAfter;
    if updates == [] {
      assert Effect(table, updates, table);
    } else {
      hide Effect;
      var n := |updates| - 1;
      PrefixIsSafe(table, updates);
      ReconcileAllSucceeds(table, updates[..n]);
      var before := ReconcileAll(table, updates[..n]).value;
      if !updates[n].deleteEntry { UpdateFits(table, updates, before); }
      EffectGrows(table, updates, before, ReconcileAll(table, updates).value);
    }
  }

  // ---------------------------------------------------------------- a run's updates never collide

  lemma RemoteKeyStays(table: Entries, u: Update)
    ensures RemoteKey(RowAfter(table, u)) == RemoteKey(GetOrCreate(table, u.entryId))
  {
  }

  /** The local path an update leaves: the file's, none, or an unsynced one that stays. */
  ghost predicate KeySource(run: Run, u: Update, key: Option<Path>) {
    || key.None?
    || (exists i :: 0 <= i < |run.files| && FateAt(run, i).id == u.entryId && key == Some(run.files[i].path))
    || (Outside(run, u.entryId) && key == LocalKey(run.table[u.entryId]))
  }

  lemma FileKey(run: Run, history: History, i: nat)
    requires GoodRun(run, history) && i < |run.files|
    ensures FileUpdate(run, i).Some? ==> LocalKey(RowAfter(run.table, FileUpdate(run, i).value)) == Some(run.files[i].path)
  {
    FateClaims(run, history, i);
    assert run.files[i].path != "";
    hide FateAt, GoodRun, Candidates;
  }

  lemma UpdateKeySource(run: Run, history: History, u: Update)
    requires GoodRun(run, history) && (FromCleanup(run, u) || FromFile(run, u) || FromVanished(run, u)) && !u.deleteEntry
    ensures KeySource(run, u, LocalKey(RowAfter(run.table, u)))
  {
    if FromFile(run, u) {
      var i :| 0 <= i < |run.files| && FileUpdate(run, i) == Some(u);
      FileKey(run, history, i);
      FileUpdateId(run, i);
    } else if FromCleanup(run, u) {
      var k :| 0 <= k < |run.order| && CleanupUpdate(run, k) == Some(u);
    } else {
      var k :| 0 <= k < |run.order| && VanishedUpdate(run, k) == Some(u);
    }
    hide FateAt, GoodRun;
  }

  /** Whoever holds a scanned path is matched to that file. */
  lemma HolderIsMatched(run: Run, history: History, i: nat, id: EntryId)
    requires GoodRun(run, history) && i < |run.files| && id in run.table && LocalKey(run.table[id]) == Some(run.files[i].path)
    ensures FateAt(run, i).id == id
  {
    var path := run.files[i].path;
    assert run.syncable(path) && LivesAt(run, id, path);
    ExistingLives(run, path);
    assert Existing(run, path).Some?;
    SameKeyMeansSame(run.table, history, id, Existing(run, path).value);
    hide GoodRun, Candidates, PendingDelete, Existing;
  }

  lemma KeySourceIsSafe(run: Run, history: History, u: Update, key: Option<Path>, id: EntryId)
    requires GoodRun(run, history) && KeySource(run, u, key) && id in run.table && id != u.entryId
    ensures !SameKey(key, LocalKey(run.table[id]))
  {
    if SameKey(key, LocalKey(run.table[id])) {
      if Outside(run, u.entryId) && key == LocalKey(run.table[u.entryId]) {
        SameKeyMeansSame(run.table, history, u.entryId, id);
      } else {
        var i :| 0 <= i < |run.files| && FateAt(run, i).id == u.entryId && key == Some(run.files[i].path);
        HolderIsMatched(run, history, i, id);
      }
    }
  }

  lemma KeySourcesDiffer(run: Run, history: History, u: Update, a: Option<Path>, v: Update, b: Option<Path>)
    requires GoodRun(run, history) && KeySource(run, u, a) && KeySource(run, v, b) && u.entryId != v.entryId
    ensures !SameKey(a, b)
  {
    if a.Some? && b.Some? {
      if Outside(run, v.entryId) && b == LocalKey(run.table[v.entryId]) {
        KeySourceIsSafe(run, history, u, a, v.entryId);
      } else if Outside(run, u.entryId) && a == LocalKey(run.table[u.entryId]) {
        KeySourceIsSafe(run, history, v, b, u.entryId);
      } else {
        var i :| 0 <= i < |run.files| && FateAt(run, i).id == u.entryId && a == Some(run.files[i].path);
        var j :| 0 <= j < |run.files| && FateAt(run, j).id == v.entryId && b == Some(run.files[j].path);
        assert i != j;
        assert run.files[i].path != run.files[j].path;
      }
    }
  }

  lemma RemoteKeysDiffer(table: Entries, history: History, a: EntryId, b: EntryId)
    requires Invariant(table, history) && a != b
    ensures !SameKey(RemoteKey(GetOrCreate(table, a)), RemoteKey(GetOrCreate(table, b)))
  {
    if a in table && b in table { SameKeyMeansSame(table, history, a, b); }
  }

  ghost predicate Known(run: Run, u: Update) { FromCleanup(run, u) || FromFile(run, u) || FromVanished(run, u) }

  lemma KnownIsKeySafe(run: Run, history: History, u: Update)
    requires GoodRun(run, history) && Known(run, u)
    ensures KeySafe(run.table, u)
  {
    if !u.deleteEntry {
      UpdateKeySource(run, history, u);
      RemoteKeyStays(run.table, u);
      forall id | id in run.table && id != u.entryId
        ensures !SameKey(LocalKey(RowAfter(run.table, u)), LocalKey(run.table[id]))
        ensures !SameKey(RemoteKey(RowAfter(run.table, u)), RemoteKey(run.table[id]))
      {
        KeySourceIsSafe(run, history, u, LocalKey(RowAfter(run.table, u)), id);
        RemoteKeysDiffer(run.table, history, u.entryId, id);
      }
    }
  }

  lemma KnownArePairSafe(run: Run, history: History, u: Update, v: Update)
    requires GoodRun(run, history) && Known(run, u) && Known(run, v) && u.entryId != v.entryId
    ensures PairSafe(run.table, u, v)
  {
    if !u.deleteEntry && !v.deleteEntry {
      UpdateKeySource(run, history, u);
      UpdateKeySource(run, history, v);
      RemoteKeyStays(run.table, u);
      RemoteKeyStays(run.table, v);
      KeySourcesDiffer(run, history, u, LocalKey(RowAfter(run.table, u)), v, LocalKey(RowAfter(run.table, v)));
      RemoteKeysDiffer(run.table, history, u.entryId, v.entryId);
    }
  }

  /** The store takes every update of a run: no path key is ever taken by another entry on the way. */
  lemma UpdatesApply(run: Run, history: History)
    requires GoodRun(run, history)
    ensures ReconcileAll(run.table, Updates(run)).Some?
    ensures Effect(run.table, Updates(run), ReconcileAll(run.table, Updates(run)).value)
  {
    var updates := Updates(run);
    EachEntryHasOneUpdate(run, history);
    assert OwnKeys(run.table) by {
      forall id | id in run.table ensures run.table[id].entryId == id { assert GoodRecord(history, id, run.table[id]); }
    }
    hide Updates, GoodRun, FromCleanup, FromFile, FromVanished, KeySafe, PairSafe;
    forall k | 0 <= k < |updates| ensures KeySafe(run.table, updates[k]) {
      assert updates[k] in updates;
      KnownIsKeySafe(run, history, updates[k]);
    }
    forall j, k | 0 <= j < k < |updates| ensures PairSafe(run.table, updates[j], updates[k]) {
      assert updates[j] in updates && updates[k] in updates;
      KnownArePairSafe(run, history, updates[j], updates[k]);
    }
    ReconcileAllSucceeds(run.table, updates);
  }

  // ---------------------------------------------------------------- a run is exact

  ghost function After(run: Run): Entries
    requires ReconcileAll(run.table, Updates(run)).Some?
  {
    ReconcileAll(run.table, Updates(run)).value
  }

  /** The local row of an entry that records a file as it is. */
  ghost predicate Records(local: Option<LocalRow>, file: File) {
    local.Some? && !local.value.deleted && local.value.path == Some(file.path) && local.value.hash == Some(file.hash)
    && local.value.mtime == Some(file.mtime) && local.value.size == Some(file.size)
  }

  lemma UpdateTakesEffect(run: Run, history: History, u: Update)
    requires GoodRun(run, history) && u in Updates(run) && ReconcileAll(run.table, Updates(run)).Some?
    ensures if u.deleteEntry then u.entryId !in After(run)
      else u.entryId in After(run) && After(run)[u.entryId] == RowAfter(run.table, u)
  {
    UpdatesApply(run, history);
    var k :| 0 <= k < |Updates(run)| && Updates(run)[k] == u;
    hide Updates, GoodRun;
  }

  lemma UntouchedStays(run: Run, history: History, id: EntryId)
    requires GoodRun(run, history) && ReconcileAll(run.table, Updates(run)).Some?
    requires forall u | u in Updates(run) :: u.entryId != id
    ensures SameRow(run.table, After(run), id)
  {
    UpdatesApply(run, history);
    hide Updates, GoodRun;
  }

  lemma FileUpdateIsListed(run: Run, i: nat)
    requires i < |run.files| && FileUpdate(run, i).Some?
    ensures FileUpdate(run, i).value in Updates(run)
  {
    FilesAreFrom(run, |run.files|);
    hide FileUpdate, FileUpdates, Cleanups, VanishedUpdates;
  }

  /** An entry gets an update only as a matched, vanished or outside entry. */
  lemma NoUpdateFor(run: Run, history: History, id: EntryId)
    requires GoodRun(run, history) && !Vanished(run, id) && !Outside(run, id)
    requires forall i | 0 <= i < |run.files| && FateAt(run, i).id == id :: FileUpdate(run, i).None?
    ensures forall u | u in Updates(run) :: u.entryId != id
  {
    hide GoodRun, FateAt, FileUpdate, CleanupUpdate, VanishedUpdate, Updates, Vanished, Outside;
    EachEntryHasOneUpdate(run, history);
    forall u | u in Updates(run) ensures u.entryId != id {
      if FromFile(run, u) {
        var i :| 0 <= i < |run.files| && FileUpdate(run, i) == Some(u);
        FileUpdateId(run, i);
      } else if FromCleanup(run, u) {
        var k :| 0 <= k < |run.order| && CleanupUpdate(run, k) == Some(u);
        CleanupUpdateId(run, k);
      } else {
        var k :| 0 <= k < |run.order| && VanishedUpdate(run, k) == Some(u);
        VanishedUpdateId(run, k);
      }
    }
  }

  lemma OnlyThisFile(run: Run, history: History, i: nat, j: nat)
    requires GoodRun(run, history) && i < |run.files| && j < |run.files| && FateAt(run, i).id == FateAt(run, j).id
    ensures i == j
  {
    hide GoodRun, FateAt;
    if i < j { FatesAreDistinct(run, history, i, j); }
    if j < i { FatesAreDistinct(run, history, j, i); }
  }

  lemma SkippedIsUntouched(run: Run, history: History, i: nat)
    requires GoodRun(run, history) && i < |run.files| && FateAt(run, i).Skip?
    requires ReconcileAll(run.table, Updates(run)).Some?
    ensures SameRow(run.table, After(run), FateAt(run, i).id)
  {
    assert FileUpdate(run, i).None?;
    hide GoodRun, FateAt, Updates, ReconcileAll, FileUpdate;
    var id := FateAt(run, i).id;
    MatchedIsNeitherLostNorOutside(run, history, i);
    forall j | 0 <= j < |run.files| && FateAt(run, j).id == id ensures FileUpdate(run, j).None? {
      OnlyThisFile(run, history, i, j);
    }
    NoUpdateFor(run, history, id);
    UntouchedStays(run, history, id);
  }

  lemma SkippedRecords(run: Run, history: History, i: nat)
    requires GoodRun(run, history) && i < |run.files| && FateAt(run, i).Skip?
    ensures FateAt(run, i).id in run.table && Records(run.table[FateAt(run, i).id].local, run.files[i])
  {
    var file, id := run.files[i], FateAt(run, i).id;
    FateClaims(run, history, i);
    ExistingLives(run, file.path);
    assert CanSkipHash(run.table[id].local.value, file);
    assert StampsTell(run);
    hide Existing, PendingDelete, VisibleRemote, Candidates, Invariant, FreshIds;
  }

  lemma UpdateRecords(run: Run, history: History, i: nat)
    requires GoodRun(run, history) && i < |run.files| && !FateAt(run, i).Skip?
    ensures FileUpdate(run, i).Some? && !FileUpdate(run, i).value.deleteEntry
    ensures Records(RowAfter(run.table, FileUpdate(run, i).value).local, run.files[i])
  {
    FateClaims(run, history, i);
    ExistingLives(run, run.files[i].path);
    hide GoodRun, Candidates, Existing, PendingDelete, VisibleRemote, HasHash;
  }

  /** Afterwards each scanned file is recorded by the entry it was matched to. */
  lemma EveryFileIsRecorded(run: Run, history: History, i: nat)
    requires GoodRun(run, history) && i < |run.files|
    ensures ReconcileAll(run.table, Updates(run)).Some?
    ensures var id := FateAt(run, i).id; id in After(run) && Records(After(run)[id].local, run.files[i])
  {
    UpdatesApply(run, history);
    if FateAt(run, i).Skip? {
      SkippedIsUntouched(run, history, i);
      SkippedRecords(run, history, i);
    } else {
      UpdateRecords(run, history, i);
      FileUpdateIsListed(run, i);
      FileUpdateId(run, i);
      hide GoodRun, FateAt, Updates, FileUpdate;
      UpdateTakesEffect(run, history, FileUpdate(run, i).value);
    }
  }

  lemma VanishedIsUpdated(run: Run, history: History, id: EntryId)
    requires GoodRun(run, history) && Vanished(run, id) && ReconcileAll(run.table, Updates(run)).Some?
    ensures id in After(run) ==> LocalKey(After(run)[id]).None?
  {
    var k :| 0 <= k < |run.order| && run.order[k] == id;
    VanishedAreFrom(run, |run.order|);
    VanishedUpdateId(run, k);
    var u := VanishedUpdate(run, k).value;
    assert u in Updates(run);
    assert u.deleteEntry || u.local.value.path.None?;
    hide GoodRun, Updates, VanishedUpdates, VanishedUpdate, Vanished;
    UpdateTakesEffect(run, history, u);
  }

  lemma OutsideStaysOutside(run: Run, history: History, id: EntryId)
    requires GoodRun(run, history) && Outside(run, id) && ReconcileAll(run.table, Updates(run)).Some?
    ensures id in After(run) ==> LocalKey(After(run)[id]) == LocalKey(run.table[id])
  {
    var k :| 0 <= k < |run.order| && run.order[k] == id;
    CleanupsAreFrom(run, |run.order|);
    var u := CleanupUpdate(run, k).value;
    assert u in Updates(run);
    hide GoodRun, Updates, Cleanups;
    UpdateTakesEffect(run, history, u);
  }

  /** Afterwards every synced local path is a scanned file: with EveryFileIsRecorded, the store's visible
      synced paths are exactly the files on disk, with their contents. */
  lemma EveryRecordHasItsFile(run: Run, history: History, id: EntryId)
    requires GoodRun(run, history)
    ensures ReconcileAll(run.table, Updates(run)).Some?
    ensures id in After(run) && LocalKey(After(run)[id]).Some? && run.syncable(LocalKey(After(run)[id]).value) ==>
      exists i :: 0 <= i < |run.files| && FateAt(run, i).id == id && LocalKey(After(run)[id]) == Some(run.files[i].path)
  {
    UpdatesApply(run, history);
    if id in After(run) && LocalKey(After(run)[id]).Some? && run.syncable(LocalKey(After(run)[id]).value) {
      if i :| 0 <= i < |run.files| && FateAt(run, i).id == id {
        EveryFileIsRecorded(run, history, i);
        assert run.files[i].path != "";
      } else if Vanished(run, id) {
        VanishedIsUpdated(run, history, id);
      } else if Outside(run, id) {
        OutsideStaysOutside(run, history, id);
      } else {
        NoUpdateFor(run, history, id);
        UntouchedStays(run, history, id);
        NotLostIsMatched(run, history, id);
      }
    }
  }

  lemma NotLostIsMatched(run: Run, history: History, id: EntryId)
    requires GoodRun(run, history) && id in run.table && Retained(run, id) && !Vanished(run, id) && LocalKey(run.table[id]).Some?
    ensures exists i :: 0 <= i < |run.files| && FateAt(run, i).id == id
  {
    if Lost(run, id) {
      assert id in RenamedIds(run);
    } else {
      var i :| 0 <= i < |run.files| && run.files[i].path == LocalKey(run.table[id]).value;
      HolderIsMatched(run, history, i, id);
    }
  }

  // ---------------------------------------------------------------- the store stays good

  /** Updates whose mutations are well built and under fresh, different ids are legal. */
  ghost predicate FreshUpdates(history: History, updates: seq<Update>) {
    && (forall k | 0 <= k < |updates| :: FreshUpdate(history, updates[k]))
    && (forall j, k | 0 <= j < k < |updates| :: DifferentMutations(updates[j], updates[k]))
  }

  ghost predicate FreshUpdate(history: History, u: Update) {
    && (u.local.Some? ==> u.local.value.entryId == u.entryId)
    && (u.dirty.Some? ==>
          u.dirty.value.entryId == u.entryId && WellBound(u.dirty.value) && u.dirty.value.mutationId !in history)
  }

  ghost predicate DifferentMutations(u: Update, v: Update) {
    u.dirty.Some? && v.dirty.Some? ==> u.dirty.value.mutationId != v.dirty.value.mutationId
  }

  lemma {:induction false} FreshUpdatesAreLegal(history: History, updates: seq<Update>)
    requires FreshUpdates(history, updates)
    ensures LegalUpdates(history, updates)
    ensures forall id | id in AfterUpdates(history, updates) && id !in history ::
      exists k :: 0 <= k < |updates| && updates[k].dirty.Some? && updates[k].dirty.value.mutationId == id
  {
    if updates != [] {
      var n := |updates| - 1;
      var init, last := updates[..n], updates[n];
      assert forall k | 0 <= k < n :: init[k] == updates[k];
      FreshUpdatesAreLegal(history, init);
      assert FreshUpdate(history, last);
      if last.dirty.Some? {
        var m := last.dirty.value;
        assert m.mutationId !in AfterUpdates(history, init) by {
          forall k | 0 <= k < n && init[k].dirty.Some? ensures init[k].dirty.value.mutationId != m.mutationId {
            assert DifferentMutations(updates[k], updates[n]);
          }
        }
      }
      hide WellBound;
      forall id | id in AfterUpdates(history, updates) && id !in history
        ensures exists k :: 0 <= k < |updates| && updates[k].dirty.Some? && updates[k].dirty.value.mutationId == id
      {
        if id in AfterUpdates(history, init) {
          var k :| 0 <= k < n && init[k].dirty.Some? && init[k].dirty.value.mutationId == id;
          assert updates[k].dirty.Some?;
        } else {
          assert updates[n].dirty.Some?;
        }
      }
    }
  }

  /** The number of an update's mutation id. */
  ghost predicate Minted(run: Run, u: Update, n: nat) {
    u.dirty.Some? ==> u.dirty.value.mutationId == run.mint(n)
  }

  lemma FileUpdateIsFresh(run: Run, history: History, i: nat)
    requires GoodRun(run, history) && i < |run.files| && FileUpdate(run, i).Some?
    ensures FreshUpdate(history, FileUpdate(run, i).value) && Minted(run, FileUpdate(run, i).value, i)
  {
    FateClaims(run, history, i);
    var id := FateAt(run, i).id;
    assert run.mint(i) !in history;
    if id in run.table { assert GoodRecord(history, id, run.table[id]); }
    hide GoodRun, FateAt, Candidates, WellBound;
  }

  lemma VanishedUpdateIsFresh(run: Run, history: History, k: nat)
    requires GoodRun(run, history) && k < |run.order| && VanishedUpdate(run, k).Some?
    ensures FreshUpdate(history, VanishedUpdate(run, k).value) && Minted(run, VanishedUpdate(run, k).value, |run.files| + k)
  {
    assert run.mint(|run.files| + k) !in history;
    hide GoodRun, RenamedIds, WellBound;
  }

  lemma KnownIsFresh(run: Run, history: History, u: Update) returns (n: nat)
    requires GoodRun(run, history) && Known(run, u)
    ensures FreshUpdate(history, u) && Minted(run, u, n)
    ensures u.dirty.Some? ==>
      || (n < |run.files| && FileUpdate(run, n) == Some(u))
      || (|run.files| <= n < |run.files| + |run.order| && VanishedUpdate(run, n - |run.files|) == Some(u))
  {
    hide GoodRun, FreshUpdate;
    if FromFile(run, u) {
      var i :| 0 <= i < |run.files| && FileUpdate(run, i) == Some(u);
      FileUpdateIsFresh(run, history, i);
      n := i;
    } else if FromVanished(run, u) {
      var k :| 0 <= k < |run.order| && VanishedUpdate(run, k) == Some(u);
      VanishedUpdateIsFresh(run, history, k);
      n := |run.files| + k;
    } else {
      var k :| 0 <= k < |run.order| && CleanupUpdate(run, k) == Some(u);
      CleanupIsFresh(run, history, k);
      n := 0;
    }
  }

  lemma CleanupIsFresh(run: Run, history: History, k: nat)
    requires k < |run.order| && CleanupUpdate(run, k).Some?
    ensures FreshUpdate(history, CleanupUpdate(run, k).value) && CleanupUpdate(run, k).value.dirty.None?
  {
  }

  lemma MintsDiffer(run: Run, history: History, m: nat, n: nat)
    requires FreshIds(run, history) && m != n
    ensures run.mint(m) != run.mint(n)
  {
    if m > n { MintsDiffer(run, history, n, m); }
  }

  lemma KnownHaveDifferentMutations(run: Run, history: History, u: Update, v: Update)
    requires GoodRun(run, history) && Known(run, u) && Known(run, v) && u.entryId != v.entryId
    ensures DifferentMutations(u, v)
  {
    assert FreshIds(run, history);
    hide GoodRun, FileUpdate, VanishedUpdate, FreshIds, FreshUpdate, Known;
    var m := KnownIsFresh(run, history, u);
    var n := KnownIsFresh(run, history, v);
    if u.dirty.Some? && v.dirty.Some? {
      assert m != n;
      MintsDiffer(run, history, m, n);
    }
  }

  /** Applying a run keeps the store's invariant: new mutations are bound, path keys unique. */
  lemma RunKeepsInvariant(run: Run, history: History)
    requires GoodRun(run, history)
    ensures LegalUpdates(history, Updates(run)) && ReconcileAll(run.table, Updates(run)).Some?
    ensures Invariant(After(run), AfterUpdates(history, Updates(run)))
  {
    var updates := Updates(run);
    EachEntryHasOneUpdate(run, history);
    UpdatesApply(run, history);
    assert Invariant(run.table, history);
    hide GoodRun, Updates, FromCleanup, FromFile, FromVanished, FreshUpdate, DifferentMutations, Invariant;
    forall k | 0 <= k < |updates| ensures FreshUpdate(history, updates[k]) {
      assert updates[k] in updates;
      var _ := KnownIsFresh(run, history, updates[k]);
    }
    forall j, k | 0 <= j < k < |updates| ensures DifferentMutations(updates[j], updates[k]) {
      assert updates[j] in updates && updates[k] in updates;
      KnownHaveDifferentMutations(run, history, updates[j], updates[k]);
    }
    FreshUpdatesAreLegal(history, updates);
    ReconcileKeepsInvariant(run.table, history, updates);
  }

  // ---------------------------------------------------------------- a second run finds nothing to do

  /** Entries listed before keep their order. */
  ghost predicate KeepsOrder(before: seq<EntryId>, after: seq<EntryId>) {
    forall i, j, k, l | 0 <= i < j < |before| && 0 <= k < |after| && 0 <= l < |after| && before[i] == after[k] && before[j] == after[l] ::
      k < l
  }

  /** The second run scans the same disk and lists the store as the first one left it. */
  ghost predicate Follows(first: Run, second: Run) {
    && ReconcileAll(first.table, Updates(first)).Some? && second.table == After(first)
    && second.files == first.files && second.syncable == first.syncable
    && (forall id :: id in second.table <==> id in second.order)
    && KeepsOrder(first.order, second.order)
  }

  lemma MatchedLivesInSecond(first: Run, history: History, second: Run, i: nat)
    requires GoodRun(first, history) && Follows(first, second) && i < |first.files|
    ensures var id := FateAt(first, i).id;
      && LivesAt(second, id, first.files[i].path) && Existing(second, first.files[i].path) == Some(id)
      && CanSkipHash(second.table[id].local.value, first.files[i])
  {
    var file, id := first.files[i], FateAt(first, i).id;
    EveryFileIsRecorded(first, history, i);
    RunKeepsInvariant(first, history);
    assert file.path != "" && file.hash != "" && first.syncable(file.path);
    assert LivesAt(second, id, file.path);
    ExistingLives(second, file.path);
    assert id in second.order;
    assert Existing(second, file.path).Some?;
    SameKeyMeansSame(second.table, AfterUpdates(history, Updates(first)), id, Existing(second, file.path).value);
    hide GoodRun, FateAt, Updates, Invariant, Existing;
  }

  /** An entry that deletes a scanned path elsewhere is not touched by the run. */
  lemma OverlaidDeleteIsUntouched(run: Run, history: History, i: nat, x: EntryId)
    requires GoodRun(run, history) && i < |run.files| && DeletesAt(run, x, run.files[i].path) && FateAt(run, i).id != x
    requires LivesAt(run, FateAt(run, i).id, run.files[i].path) && ReconcileAll(run.table, Updates(run)).Some?
    ensures LocalKey(run.table[x]).None? && SameRow(run.table, After(run), x)
  {
    var id := FateAt(run, i).id;
    SameKeyMeansSame(run.table, history, id, x);
    assert SettledDelete(run, x);
    assert LocalKey(run.table[x]).None?;
    forall j | 0 <= j < |run.files| ensures FateAt(run, j).id != x {
      FateClaims(run, history, j);
      assert run.files[j].path != "";
      assert j != i ==> run.files[j].path != run.files[i].path;
      DeleterIsNotMatched(run, j, FateAt(run, j), x, run.files[i].path, i);
    }
    hide GoodRun, FateAt, Updates;
    NoUpdateFor(run, history, x);
    UntouchedStays(run, history, x);
  }

  lemma DeleterIsNotMatched(run: Run, j: nat, fate: Fate, x: EntryId, path: Path, i: nat)
    requires j < |run.files| && Claims(run, j, fate) && run.files[j].path != "" && x in run.table
    requires DeletesAt(run, x, path) && LocalKey(run.table[x]).None? && !Present(run.table[x].local.value.path)
    requires j != i ==> run.files[j].path != path
    requires j == i ==> fate.id != x
    ensures fate.id != x
  {
    hide Candidates;
  }

  lemma KeepsPending(first: Run, history: History, i: nat)
    requires GoodRun(first, history) && i < |first.files| && ReconcileAll(first.table, Updates(first)).Some?
    ensures var id := FateAt(first, i).id;
      id in After(first)
      && (FateAt(first, i).Queue? ==> After(first)[id].pending.Some? && After(first)[id].pending.value.op == Upsert)
      && (!FateAt(first, i).Queue? ==> id in first.table && After(first)[id].pending == first.table[id].pending)
  {
    var id := FateAt(first, i).id;
    EveryFileIsRecorded(first, history, i);
    FateClaims(first, history, i);
    if FateAt(first, i).Skip? {
      SkippedIsUntouched(first, history, i);
    } else {
      UpdateRecords(first, history, i);
      FileUpdateIsListed(first, i);
      FileUpdateId(first, i);
      UpdateTakesEffect(first, history, FileUpdate(first, i).value);
      hide GoodRun, Updates, FateAt;
    }
  }

  /** A file's entry whose mutation was kept is still overlaid by the later pending delete, if it has one at all. */
  lemma NotItsOwnPendingDelete(first: Run, history: History, second: Run, i: nat)
    requires GoodRun(first, history) && Follows(first, second) && i < |first.files|
    ensures PendingDelete(second, first.files[i].path) != Some(FateAt(first, i).id)
  {
    var path, id := first.files[i].path, FateAt(first, i).id;
    KeepsPending(first, history, i);
    if !FateAt(first, i).Queue? && DeletedPath(first.table[id]) == Some(path) {
      OverlaidStaysOverlaid(first, history, second, i);
    } else {
      if !FateAt(first, i).Queue? { KeptHasNoDeleteHere(first, history, second, i); }
      assert id in second.table && DeletedPath(second.table[id]) != Some(path);
      hide GoodRun, FateAt, Updates, Candidates, Retained, DeletedPath, Follows;
    }
  }

  lemma KeptHasNoDeleteHere(first: Run, history: History, second: Run, i: nat)
    requires GoodRun(first, history) && Follows(first, second) && i < |first.files| && !FateAt(first, i).Queue?
    requires var id := FateAt(first, i).id;
      id in first.table && id in second.table && second.table[id].pending == first.table[id].pending
      && DeletedPath(first.table[id]) != Some(first.files[i].path)
    ensures DeletedPath(second.table[FateAt(first, i).id]) != Some(first.files[i].path)
  {
    FateClaims(first, history, i);
    SamePendingSamePath(first.table[FateAt(first, i).id], second.table[FateAt(first, i).id], first.files[i].path);
    hide GoodRun, FateAt, Updates, Candidates, Retained, DeletedPath, Follows;
  }

  lemma OverlaidStaysOverlaid(first: Run, history: History, second: Run, i: nat)
    requires GoodRun(first, history) && Follows(first, second) && i < |first.files| && !FateAt(first, i).Queue?
    requires FateAt(first, i).id in first.table && DeletedPath(first.table[FateAt(first, i).id]) == Some(first.files[i].path)
    ensures PendingDelete(second, first.files[i].path) != Some(FateAt(first, i).id)
  {
    var path, id := first.files[i].path, FateAt(first, i).id;
    OverlaidBySomeone(first, history, i);
    var x := PendingDelete(first, path).value;
    hide GoodRun, FateAt, Updates, PendingDelete, LivesAt, DeletedPath;
    OverlaidDeleteIsUntouched(first, history, i, x);
    DeletesInSecond(first, second, path, x);
    assert x in second.order;
    var p, q :| 0 <= p < q < |first.order| && first.order[p] == id && first.order[q] == x;
    StillOverlaid(first.order, second, path, id, x, p, q);
  }

  lemma SamePendingSamePath(a: EntryRecord, b: EntryRecord, path: Path)
    requires a.pending == b.pending && DeletedPath(a) != Some(path) && (a.local.Some? || b.local.None?)
    ensures DeletedPath(b) != Some(path)
  {
  }

  /** A skipped or touched entry with its own pending delete of the path was overlaid by a later one. */
  lemma OverlaidBySomeone(run: Run, history: History, i: nat)
    requires GoodRun(run, history) && i < |run.files| && !FateAt(run, i).Queue?
    requires DeletedPath(run.table[FateAt(run, i).id]) == Some(run.files[i].path)
    ensures var path, id := run.files[i].path, FateAt(run, i).id;
      && DeletesAt(run, id, path) && LivesAt(run, id, path)
      && PendingDelete(run, path).Some? && PendingDelete(run, path).value != id && DeletesAt(run, PendingDelete(run, path).value, path)
      && exists p, q :: 0 <= p < q < |run.order| && run.order[p] == id && run.order[q] == PendingDelete(run, path).value
  {
    var path, id := run.files[i].path, FateAt(run, i).id;
    FateClaims(run, history, i);
    ExistingLives(run, path);
    assert DeletesAt(run, id, path) && id in run.order;
    var p :| 0 <= p < |run.order| && run.order[p] == id;
    LastOfIsLast(run.order, Deleting(run, path), p);
    hide GoodRun, Candidates, Existing;
  }

  lemma DeletesInSecond(first: Run, second: Run, path: Path, x: EntryId)
    requires DeletesAt(first, x, path) && SameRow(first.table, second.table, x) && second.syncable == first.syncable
    ensures DeletesAt(second, x, path)
  {
  }

  lemma StillOverlaid(first: seq<EntryId>, second: Run, path: Path, id: EntryId, x: EntryId, p: nat, q: nat)
    requires KeepsOrder(first, second.order) && DeletesAt(second, x, path) && x in second.order
    requires p < q < |first| && first[p] == id && first[q] == x
    ensures PendingDelete(second, path) != Some(id)
  {
    var l :| 0 <= l < |second.order| && second.order[l] == x;
    LastOfIsLast(second.order, Deleting(second, path), l);
    var k :| l <= k < |second.order| && PendingDelete(second, path) == Some(second.order[k]);
    hide PendingDelete, DeletesAt;
    assert second.order[k] != id;
  }

  /** Reconciling is idempotent: on the same disk a second run skips every file and finds no entry without
      its file, so it queues no upsert and no delete. */
  lemma SecondRunSkipsEveryFile(first: Run, history: History, second: Run, i: nat)
    requires GoodRun(first, history) && Follows(first, second) && i < |first.files|
    ensures FateAt(second, i) == Skip(FateAt(first, i).id)
  {
    MatchedLivesInSecond(first, history, second, i);
    NotItsOwnPendingDelete(first, history, second, i);
    hide GoodRun, Follows, Existing, PendingDelete, Candidates, CanSkipHash;
    SkipWhenKnown(second, i, FateAt(first, i).id);
  }

  lemma SkipWhenKnown(run: Run, i: nat, id: EntryId)
    requires i < |run.files| && Existing(run, run.files[i].path) == Some(id) && PendingDelete(run, run.files[i].path) != Some(id)
    requires LivesAt(run, id, run.files[i].path) && CanSkipHash(run.table[id].local.value, run.files[i])
    ensures FateAt(run, i) == Skip(id)
  {
    hide Existing, PendingDelete, Candidates, CanSkipHash;
  }

  lemma SecondRunFindsNothingLost(first: Run, history: History, second: Run, id: EntryId)
    requires GoodRun(first, history) && Follows(first, second)
    ensures !Lost(second, id)
  {
    if Lost(second, id) {
      EveryRecordHasItsFile(first, history, id);
    }
  }

  lemma SkipNeedsNoUpdate(run: Run, i: nat)
    requires i < |run.files| && FateAt(run, i).Skip?
    ensures FileUpdate(run, i).None?
  {
  }

  lemma CleanupQueuesNothing(run: Run, k: nat)
    requires k < |run.order| && CleanupUpdate(run, k).Some?
    ensures CleanupUpdate(run, k).value.dirty.None? && CleanupUpdate(run, k).value.local.None?
  {
  }

  lemma SecondRunUpdatesNoFile(first: Run, history: History, second: Run)
    requires GoodRun(first, history) && Follows(first, second)
    ensures FileUpdates(second, |second.files|) == []
  {
    assert second.files == first.files;
    hide FileUpdate, Follows, GoodRun, FateAt;
    forall i | 0 <= i < |second.files| ensures FileUpdate(second, i).None? {
      SecondRunSkipsEveryFile(first, history, second, i);
      SkipNeedsNoUpdate(second, i);
    }
    NoFileUpdates(second, |second.files|);
  }

  lemma SecondRunDeletesNothing(first: Run, history: History, second: Run)
    requires GoodRun(first, history) && Follows(first, second)
    ensures VanishedUpdates(second, |second.order|) == []
  {
    hide VanishedUpdate, Follows, GoodRun, Vanished;
    forall k | 0 <= k < |second.order| ensures VanishedUpdate(second, k).None? {
      SecondRunFindsNothingLost(first, history, second, second.order[k]);
      VanishedIsLost(second, second.order[k]);
      VanishedUpdateId(second, k);
    }
    NoVanishedUpdates(second, |second.order|);
  }

  lemma SecondRunQueuesNothing(first: Run, history: History, second: Run)
    requires GoodRun(first, history) && Follows(first, second)
    ensures FileUpdates(second, |second.files|) == [] && VanishedUpdates(second, |second.order|) == []
    ensures forall u | u in Updates(second) :: u.dirty.None? && u.local.None?
  {
    SecondRunUpdatesNoFile(first, history, second);
    SecondRunDeletesNothing(first, history, second);
    hide GoodRun, Follows, FileUpdates, VanishedUpdates, Cleanups, CleanupUpdate;
    forall u | u in Updates(second) ensures u.dirty.None? && u.local.None? {
      CleanupsAreFrom(second, |second.order|);
      var k :| 0 <= k < |second.order| && CleanupUpdate(second, k) == Some(u);
      CleanupQueuesNothing(second, k);
    }
  }

  lemma VanishedIsLost(run: Run, id: EntryId)
    ensures Vanished(run, id) ==> Lost(run, id)
  {
  }

  lemma NoFileUpdates(run: Run, n: nat)
    requires n <= |run.files| && forall i | 0 <= i < |run.files| :: FileUpdate(run, i).None?
    ensures FileUpdates(run, n) == []
  {
  }

  lemma NoVanishedUpdates(run: Run, n: nat)
    requires n <= |run.order| && forall k | 0 <= k < |run.order| :: VanishedUpdate(run, k).None?
    ensures VanishedUpdates(run, n) == []
  {
  }
}

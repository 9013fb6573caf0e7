/** The reconcile run as the service performs it: index maps, rename buckets, and chunked writes. */
module ReconcileService {
  import opened Common
  import opened EntryRecords
  import opened EntryStore
  import opened Reconcile
  import opened ReconcileOutcome
  import opened SyncStoreClass

  // ---------------------------------------------------------------- index maps

  /** The map holds, for every key, the last entry that satisfies the condition. */
  ghost predicate Indexes(order: seq<EntryId>, f: Path -> (EntryId -> bool), index: map<Path, EntryId>) {
    forall p {:trigger LastOf(order, f(p))} ::
      (p in index <==> LastOf(order, f(p)).Some?) && (p in index ==> LastOf(order, f(p)) == Some(index[p]))
  }

  lemma IndexStep(order: seq<EntryId>, k: nat, f: Path -> (EntryId -> bool), index: map<Path, EntryId>, key: Option<Path>)
    requires k < |order| && Indexes(order[..k], f, index)
    requires forall p :: f(p)(order[k]) <==> key == Some(p)
    ensures Indexes(order[..k + 1], f, if key.Some? then index[key.value := order[k]] else index)
  {
    assert order[..k + 1][..k] == order[..k];
    forall p ensures LastOf(order[..k + 1], f(p)) == if f(p)(order[k]) then Some(order[k]) else LastOf(order[..k], f(p)) {
    }
  }

  function LivingIn(run: Run): Path -> (EntryId -> bool) { p => Living(run, p) }
  function DeletingIn(run: Run): Path -> (EntryId -> bool) { p => Deleting(run, p) }
  function RemoteIn(run: Run): Path -> (EntryId -> bool) { p => Remote(run, p) }

  method IndexLocalEntriesByPath(run: Run) returns (index: map<Path, EntryId>)
    ensures Indexes(run.order, LivingIn(run), index)
  {
    index := map[];
    for k := 0 to |run.order|
      invariant Indexes(run.order[..k], LivingIn(run), index)
    {
      var id := run.order[k];
      var key := if Retained(run, id) then LocalKey(run.table[id]) else None;
      IndexStep(run.order, k, LivingIn(run), index, key);
      if key.Some? {
        index := index[key.value := id];
      }
    }
    assert run.order[..|run.order|] == run.order;
  }

  method IndexPendingDeleteEntriesByPath(run: Run) returns (index: map<Path, EntryId>)
    ensures Indexes(run.order, DeletingIn(run), index)
  {
    index := map[];
    for k := 0 to |run.order|
      invariant Indexes(run.order[..k], DeletingIn(run), index)
    {
      var id := run.order[k];
      var key := if Retained(run, id) then DeletedPath(run.table[id]) else None;
      IndexStep(run.order, k, DeletingIn(run), index, key);
      if key.Some? {
        index := index[key.value := id];
      }
    }
    assert run.order[..|run.order|] == run.order;
  }

  method IndexVisibleRemoteEntriesByPath(run: Run) returns (index: map<Path, EntryId>)
    ensures Indexes(run.order, RemoteIn(run), index)
  {
    index := map[];
    for k := 0 to |run.order|
      invariant Indexes(run.order[..k], RemoteIn(run), index)
    {
      var id := run.order[k];
      var key := if Retained(run, id) && RemoteKey(run.table[id]).Some?
          && (run.table[id].local.None? || run.table[id].local.value.path == RemoteKey(run.table[id]))
        then RemoteKey(run.table[id]) else None;
      IndexStep(run.order, k, RemoteIn(run), index, key);
      if key.Some? {
        index := index[key.value := id];
      }
    }
    assert run.order[..|run.order|] == run.order;
  }

  // ---------------------------------------------------------------- rename buckets

  type Buckets = map<string, seq<EntryId>>

  function Bucket(buckets: Buckets, hash: string): seq<EntryId> { if hash in buckets then buckets[hash] else [] }

  /** Each bucket holds the candidates with its hash, in order. */
  ghost predicate Sorted(run: Run, candidates: seq<EntryId>, buckets: Buckets) {
    forall hash {:trigger Bucket(buckets, hash)} :: Bucket(buckets, hash) == Filter(candidates, HasHash(run, hash))
  }

  lemma FilterAppend(ids: seq<EntryId>, id: EntryId, f: EntryId -> bool)
    ensures Filter(ids + [id], f) == Filter(ids, f) + if f(id) then [id] else []
  {
    assert (ids + [id])[..|ids|] == ids;
  }

  function Maybe(keep: bool, id: EntryId): seq<EntryId> { if keep then [id] else [] }

  lemma FilterMaybe(ids: seq<EntryId>, keep: bool, id: EntryId, f: EntryId -> bool)
    ensures Filter(ids + Maybe(keep, id), f) == Filter(ids, f) + Maybe(keep && f(id), id)
  {
    if keep { FilterAppend(ids, id, f); } else { assert ids + [] == ids; }
  }

  lemma SplitLast(ids: seq<EntryId>)
    requires ids != []
    ensures ids == ids[..|ids| - 1] + Maybe(true, ids[|ids| - 1])
  {
  }

  lemma FilterOne(x: EntryId, f: EntryId -> bool)
    ensures Filter([x], f) == Maybe(f(x), x) && Filter([], f) == []
  {
    assert [x][..0] == [];
  }

  lemma {:induction false} FilterPrepend(x: EntryId, rest: seq<EntryId>, f: EntryId -> bool)
    ensures Filter([x] + rest, f) == Maybe(f(x), x) + Filter(rest, f)
  {
    FilterOne(x, f);
    hide Filter, Maybe;
    if rest == [] {
      assert [x] + rest == [x];
    } else {
      var init, last := rest[..|rest| - 1], rest[|rest| - 1];
      FilterPrepend(x, init, f);
      FilterMaybe([x] + init, true, last, f);
      FilterMaybe(init, true, last, f);
      SplitLast(rest);
      assert [x] + rest == [x] + init + Maybe(true, last);
    }
  }

  lemma FilterFront(ids: seq<EntryId>, f: EntryId -> bool)
    requires ids != []
    ensures Filter(ids, f) == Maybe(f(ids[0]), ids[0]) + Filter(ids[1..], f)
  {
    FilterPrepend(ids[0], ids[1..], f);
    hide Filter;
    assert ids == [ids[0]] + ids[1..];
  }

  lemma FirstIsFiltered(ids: seq<EntryId>, f: EntryId -> bool)
    ensures FirstOf(ids, f) == if Filter(ids, f) == [] then None else Some(Filter(ids, f)[0])
  {
    if ids != [] {
      FilterFront(ids, f);
      FirstIsFiltered(ids[1..], f);
    }
  }

  lemma FilterKeepsDistinct(ids: seq<EntryId>, f: EntryId -> bool)
    requires DistinctIds(ids)
    ensures DistinctIds(Filter(ids, f))
  {
    if ids != [] {
      var init, last := ids[..|ids| - 1], ids[|ids| - 1];
      FilterKeepsDistinct(init, f);
      assert last !in Filter(init, f);
    }
  }

  lemma {:induction false} FiltersCommute(ids: seq<EntryId>, f: EntryId -> bool, id: EntryId)
    ensures Filter(WithoutId(ids, id), f) == WithoutId(Filter(ids, f), id)
  {
    if ids != [] {
      var init, last := ids[..|ids| - 1], ids[|ids| - 1];
      var other := OtherThan(id);
      FiltersCommute(init, f, id);
      SplitLast(ids);
      FilterMaybe(init, true, last, f);
      FilterMaybe(init, true, last, other);
      FilterMaybe(Filter(init, other), other(last), last, f);
      FilterMaybe(Filter(init, f), f(last), last, other);
      hide Filter, Maybe, OtherThan;
      assert (true && f(last)) == f(last) && (true && other(last)) == other(last);
      assert (other(last) && f(last)) == (f(last) && other(last));
    }
  }

  lemma WithoutAbsent(ids: seq<EntryId>, id: EntryId)
    requires id !in ids
    ensures WithoutId(ids, id) == ids
  {
    if ids != [] {
      WithoutAbsent(ids[..|ids| - 1], id);
      assert ids == ids[..|ids| - 1] + [ids[|ids| - 1]];
    }
  }

  lemma WithoutFirst(ids: seq<EntryId>)
    requires ids != [] && DistinctIds(ids)
    ensures WithoutId(ids, ids[0]) == ids[1..]
  {
    FilterFront(ids, OtherThan(ids[0]));
    WithoutAbsent(ids[1..], ids[0]);
  }

  method IndexRenameCandidates(run: Run) returns (buckets: Buckets)
    ensures Sorted(run, Filter(run.order, Renamable(run)), buckets)
  {
    buckets := map[];
    for k := 0 to |run.order|
      invariant Sorted(run, Filter(run.order[..k], Renamable(run)), buckets)
    {
      var id := run.order[k];
      ghost var before := Filter(run.order[..k], Renamable(run));
      assert run.order[..k + 1] == run.order[..k] + [id];
      FilterAppend(run.order[..k], id, Renamable(run));
      hide Filter, Sorted;
      if RenameCandidate(run, id) {
        var hash := run.table[id].local.value.hash.value;
        AppendToBucket(run, before, buckets, id, hash);
        buckets := buckets[hash := Bucket(buckets, hash) + [id]];
      } else {
        assert before + [] == before;
      }
    }
    assert run.order[..|run.order|] == run.order;
  }

  lemma AppendToBucket(run: Run, candidates: seq<EntryId>, buckets: Buckets, id: EntryId, hash: string)
    requires Sorted(run, candidates, buckets) && id in run.table && run.table[id].local.Some?
    requires run.table[id].local.value.hash == Some(hash)
    ensures Sorted(run, candidates + [id], buckets[hash := Bucket(buckets, hash) + [id]])
  {
    var after := buckets[hash := Bucket(buckets, hash) + [id]];
    assert (candidates + [id])[..|candidates|] == candidates;
    forall h ensures Bucket(after, h) == Filter(candidates + [id], HasHash(run, h)) {
      assert Bucket(buckets, h) == Filter(candidates, HasHash(run, h));
    }
  }

  /** Takes the oldest candidate of a bucket; an emptied bucket is dropped. */
  method TakeRenameCandidate(run: Run, ghost candidates: seq<EntryId>, buckets: Buckets, hash: string)
    returns (matched: Option<EntryId>, left: Buckets)
    requires Sorted(run, candidates, buckets) && DistinctIds(candidates)
    ensures matched == FirstOf(candidates, HasHash(run, hash))
    ensures Sorted(run, if matched.Some? then WithoutId(candidates, matched.value) else candidates, left)
  {
    FirstIsFiltered(candidates, HasHash(run, hash));
    var bucket := Bucket(buckets, hash);
    assert bucket == Filter(candidates, HasHash(run, hash));
    if |bucket| == 0 {
      return None, buckets;
    }
    matched := Some(bucket[0]);
    TakeFromBucket(run, candidates, buckets, hash);
    left := if |bucket| == 1 then buckets - {hash} else buckets[hash := bucket[1..]];
  }

  lemma TakenBucket(run: Run, candidates: seq<EntryId>, buckets: Buckets, hash: string)
    requires Sorted(run, candidates, buckets) && DistinctIds(candidates) && Bucket(buckets, hash) != []
    ensures Filter(WithoutId(candidates, Bucket(buckets, hash)[0]), HasHash(run, hash)) == Bucket(buckets, hash)[1..]
  {
    var bucket := Bucket(buckets, hash);
    assert bucket == Filter(candidates, HasHash(run, hash));
    FilterKeepsDistinct(candidates, HasHash(run, hash));
    FiltersCommute(candidates, HasHash(run, hash), bucket[0]);
    WithoutFirst(bucket);
    hide Filter, Sorted;
  }

  lemma OtherBucket(run: Run, candidates: seq<EntryId>, buckets: Buckets, hash: string, other: string)
    requires Sorted(run, candidates, buckets) && Bucket(buckets, hash) != [] && other != hash
    ensures Filter(WithoutId(candidates, Bucket(buckets, hash)[0]), HasHash(run, other)) == Bucket(buckets, other)
  {
    var id := Bucket(buckets, hash)[0];
    assert Bucket(buckets, hash) == Filter(candidates, HasHash(run, hash));
    assert Bucket(buckets, other) == Filter(candidates, HasHash(run, other));
    assert id in Bucket(buckets, hash);
    FiltersCommute(candidates, HasHash(run, other), id);
    WithoutAbsent(Bucket(buckets, other), id);
  }

  lemma TakeFromBucket(run: Run, candidates: seq<EntryId>, buckets: Buckets, hash: string)
    requires Sorted(run, candidates, buckets) && DistinctIds(candidates) && Bucket(buckets, hash) != []
    ensures var bucket := Bucket(buckets, hash);
      var left := if |bucket| == 1 then buckets - {hash} else buckets[hash := bucket[1..]];
      Sorted(run, WithoutId(candidates, bucket[0]), left)
  {
    var bucket := Bucket(buckets, hash);
    var left := if |bucket| == 1 then buckets - {hash} else buckets[hash := bucket[1..]];
    hide Filter;
    forall h ensures Bucket(left, h) == Filter(WithoutId(candidates, bucket[0]), HasHash(run, h)) {
      if h == hash {
        TakenBucket(run, candidates, buckets, hash);
      } else {
        OtherBucket(run, candidates, buckets, hash, h);
      }
    }
  }

  // ---------------------------------------------------------------- one run

  /** The index maps of a run and the paths found on disk. */
  datatype Indexed = Indexed(local: map<Path, EntryId>, deletes: map<Path, EntryId>, remotes: map<Path, EntryId>)

  ghost predicate GoodIndexes(run: Run, x: Indexed) {
    Indexes(run.order, LivingIn(run), x.local) && Indexes(run.order, DeletingIn(run), x.deletes)
    && Indexes(run.order, RemoteIn(run), x.remotes)
  }

  function At(index: map<Path, EntryId>, p: Path): Option<EntryId> { if p in index then Some(index[p]) else None }

  lemma LookupsAgree(run: Run, x: Indexed, p: Path)
    requires GoodIndexes(run, x)
    ensures At(x.local, p) == Existing(run, p) && At(x.deletes, p) == PendingDelete(run, p) && At(x.remotes, p) == VisibleRemote(run, p)
  {
    assert LivingIn(run)(p) == Living(run, p) && DeletingIn(run)(p) == Deleting(run, p) && RemoteIn(run)(p) == Remote(run, p);
  }

  /** Decides one file; the hash is looked at only when the stamps differ or a delete is pending. */
  method DecideFile(run: Run, x: Indexed, buckets: Buckets, i: nat) returns (fate: Fate, left: Buckets)
    requires i < |run.files| && GoodIndexes(run, x) && DistinctIds(run.order) && Sorted(run, Candidates(run, i), buckets)
    ensures fate == FateAt(run, i) && Sorted(run, Candidates(run, i + 1), left)
  {
    var file := run.files[i];
    LookupsAgree(run, x, file.path);
    CandidatesAreDistinct(run, i);
    ExistingLives(run, file.path);
    hide GoodIndexes, Indexes, Existing, PendingDelete, VisibleRemote, Sorted, LivesAt;
    var existing, pendingDelete := At(x.local, file.path), At(x.deletes, file.path);
    left := buckets;
    if existing.Some? {
      ExistingIsKnown(run, file.path);
      var local := run.table[existing.value].local.value;
      if pendingDelete == existing {
        fate := Queue(existing.value, ByPath);
      } else if CanSkipHash(local, file) {
        fate := Skip(existing.value);
      } else if local.hash == Some(file.hash) {
        fate := Touch(existing.value);
      } else {
        fate := Queue(existing.value, ByPath);
      }
    } else if pendingDelete.Some? {
      fate := Queue(pendingDelete.value, Restored);
    } else {
      var matched;
      matched, left := TakeRenameCandidate(run, Candidates(run, i), buckets, file.hash);
      if matched.Some? {
        fate := Queue(matched.value, Renamed);
      } else {
        var remote := At(x.remotes, file.path);
        fate := if remote.Some? then Queue(remote.value, ByRemote) else Queue(run.mintEntry(i), Added);
      }
    }
    NextCandidates(run, i);
  }

  lemma ExistingIsKnown(run: Run, path: Path)
    requires Existing(run, path).Some?
    ensures Existing(run, path).value in run.table && run.table[Existing(run, path).value].local.Some?
  {
    ExistingLives(run, path);
  }

  lemma NextCandidates(run: Run, i: nat)
    requires i < |run.files|
    ensures Candidates(run, i + 1)
      == if IsRename(FateAt(run, i)) then WithoutId(Candidates(run, i), FateAt(run, i).id) else Candidates(run, i)
  {
    hide FateOf;
  }

  lemma CandidatesAreDistinct(run: Run, n: nat)
    requires n <= |run.files| && DistinctIds(run.order)
    ensures DistinctIds(Candidates(run, n))
  {
    if n == 0 {
      FilterKeepsDistinct(run.order, Renamable(run));
    } else {
      CandidatesAreDistinct(run, n - 1);
      NextCandidates(run, n - 1);
      if IsRename(FateAt(run, n - 1)) {
        FilterKeepsDistinct(Candidates(run, n - 1), OtherThan(FateAt(run, n - 1).id));
      }
      hide Candidates, FateAt;
    }
  }

  /** How many of the first `n` files are queued for upsert. */
  function QueuedFiles(run: Run, n: nat): nat
    requires n <= |run.files|
  {
    if n == 0 then 0 else QueuedFiles(run, n - 1) + if FateAt(run, n - 1).Queue? then 1 else 0
  }

  /** How many of the first `n` listed entries are queued for delete. */
  function QueuedDeletes(run: Run, n: nat): nat
    requires n <= |run.order|
  {
    if n == 0 then 0
    else
      var u := VanishedUpdate(run, n - 1);
      QueuedDeletes(run, n - 1) + if u.Some? && u.value.dirty.Some? then 1 else 0
  }

  method CleanUp(run: Run) returns (updates: seq<Update>)
    ensures updates == Cleanups(run, |run.order|)
  {
    updates := [];
    for k := 0 to |run.order|
      invariant updates == Cleanups(run, k)
    {
      var id := run.order[k];
      if id in run.table && !Retained(run, id) {
        updates := updates + [Update(id, None, None, true, NeverAccepted(run, id))];
      }
    }
  }

  lemma NextFile(run: Run, i: nat)
    requires i < |run.files|
    ensures FileUpdates(run, i + 1) == FileUpdates(run, i) + ToSeq(FileUpdate(run, i))
    ensures QueuedFiles(run, i + 1) == QueuedFiles(run, i) + if FateAt(run, i).Queue? then 1 else 0
    ensures RenamedBefore(run, i + 1) == RenamedBefore(run, i) + if IsRename(FateAt(run, i)) then {FateAt(run, i).id} else {}
  {
    hide FileUpdate, FateAt;
  }

  method QueueFiles(run: Run, x: Indexed, candidates: Buckets) returns (updates: seq<Update>, reused: set<EntryId>, upserts: nat)
    requires GoodIndexes(run, x) && DistinctIds(run.order) && Sorted(run, Filter(run.order, Renamable(run)), candidates)
    ensures updates == FileUpdates(run, |run.files|) && reused == RenamedIds(run) && upserts == QueuedFiles(run, |run.files|)
  {
    hide GoodIndexes, Sorted, FateAt, FileUpdate, DistinctIds, FileUpdates, QueuedFiles, RenamedBefore, Candidates, RenamedIds, Filter,
      Renamable;
    updates, reused, upserts := [], {}, 0;
    var buckets := candidates;
    NoFilesYet(run);
    for i := 0 to |run.files|
      invariant Sorted(run, Candidates(run, i), buckets)
      invariant updates == FileUpdates(run, i) && upserts == QueuedFiles(run, i) && reused == RenamedBefore(run, i)
    {
      NextFile(run, i);
      var fate;
      fate, buckets := DecideFile(run, x, buckets, i);
      updates := updates + ToSeq(FileUpdate(run, i));
      if fate.Queue? {
        upserts := upserts + 1;
      }
      if IsRename(fate) {
        reused := reused + {fate.id};
      }
    }
    AllRenamed(run);
  }

  lemma NoFilesYet(run: Run)
    ensures FileUpdates(run, 0) == [] && QueuedFiles(run, 0) == 0 && RenamedBefore(run, 0) == {}
    ensures Candidates(run, 0) == Filter(run.order, Renamable(run))
  {
  }

  lemma AllRenamed(run: Run)
    ensures RenamedBefore(run, |run.files|) == RenamedIds(run)
  {
    hide FateAt;
  }

  ghost function RenamedBefore(run: Run, n: nat): set<EntryId>
    requires n <= |run.files|
  {
    set i | 0 <= i < n && IsRename(FateAt(run, i)) :: FateAt(run, i).id
  }

  /** What happens to a listed entry whose file is gone and that no file was renamed from. */
  method DecideVanished(run: Run, localPaths: set<Path>, reused: set<EntryId>, k: nat) returns (update: Option<Update>)
    requires reused == RenamedIds(run) && (forall p :: p in localPaths <==> Scanned(run.files, p)) && k < |run.order|
    ensures update == VanishedUpdate(run, k)
  {
    hide RenamedIds, Scanned;
    var id := run.order[k];
    if !(Retained(run, id) && LocalKey(run.table[id]).Some? && LocalKey(run.table[id]).value !in localPaths && id !in reused) {
      return None;
    }
    var remote := KnownRemote(run, id);
    if remote.None? || remote.value.revision == 0 {
      return Some(Update(id, None, None, true, true));
    }
    var m := BuildLocalDelete(id, RemoteContent(remote).value, LocalKey(run.table[id]).value, run.mint(|run.files| + k), run.now);
    return Some(Update(id, Some(LocalRow(id, None, None, None, true, run.now, None, None)), Some(m), false, false));
  }

  method QueueVanished(run: Run, localPaths: set<Path>, reused: set<EntryId>) returns (updates: seq<Update>, deletes: nat)
    requires reused == RenamedIds(run) && forall p :: p in localPaths <==> Scanned(run.files, p)
    ensures updates == VanishedUpdates(run, |run.order|) && deletes == QueuedDeletes(run, |run.order|)
  {
    hide RenamedIds, Scanned, VanishedUpdate;
    updates, deletes := [], 0;
    for k := 0 to |run.order|
      invariant updates == VanishedUpdates(run, k) && deletes == QueuedDeletes(run, k)
    {
      var update := DecideVanished(run, localPaths, reused, k);
      if update.Some? {
        updates := updates + [update.value];
        if update.value.dirty.Some? {
          deletes := deletes + 1;
        }
      } else {
        assert VanishedUpdates(run, k) + [] == VanishedUpdates(run, k);
      }
    }
  }

  method ScanPaths(files: seq<File>) returns (paths: set<Path>)
    ensures forall p :: p in paths <==> Scanned(files, p)
  {
    paths := {};
    for i := 0 to |files|
      invariant forall p :: p in paths <==> exists k :: 0 <= k < i && files[k].path == p
    {
      paths := paths + {files[i].path};
    }
  }

  /** Computes a run's updates and what it reports. */
  method PlanRun(run: Run) returns (updates: seq<Update>, upserts: nat, deletes: nat)
    requires DistinctIds(run.order)
    ensures updates == Updates(run)
    ensures upserts == QueuedFiles(run, |run.files|) && deletes == QueuedDeletes(run, |run.order|)
  {
    hide Sorted, Indexes, RenamedIds, Scanned;
    var localPaths := ScanPaths(run.files);
    var cleanups := CleanUp(run);
    var local := IndexLocalEntriesByPath(run);
    var remotes := IndexVisibleRemoteEntriesByPath(run);
    var pendingDeletes := IndexPendingDeleteEntriesByPath(run);
    var candidates := IndexRenameCandidates(run);
    var files, reused;
    files, reused, upserts := QueueFiles(run, Indexed(local, pendingDeletes, remotes), candidates);
    var vanished;
    vanished, deletes := QueueVanished(run, localPaths, reused);
    updates := cleanups + files + vanished;
  }

  lemma {:induction false} UpsertsAreCounted(run: Run, history: History, n: nat)
    requires GoodRun(run, history) && n <= |run.files|
    ensures QueuedFiles(run, n) == |set i | 0 <= i < n && !IsRecorded(run, i)|
  {
    hide GoodRun, FateAt, IsRecorded;
    if n > 0 {
      UpsertsAreCounted(run, history, n - 1);
      RecordedExactly(run, history, n - 1);
      var before, now := set i | 0 <= i < n - 1 && !IsRecorded(run, i), set i | 0 <= i < n && !IsRecorded(run, i);
      assert now == if IsRecorded(run, n - 1) then before else before + {n - 1};
    }
  }

  lemma {:induction false} DeletesAreCounted(run: Run, history: History, n: nat)
    requires GoodRun(run, history) && n <= |run.order| && ReconcileAll(run.table, Updates(run)).Some?
    ensures QueuedDeletes(run, n) == |WaitingBefore(run, Reconcile.After(run), n)|
  {
    hide GoodRun, DeleteWaits, VanishedUpdate, Updates, ReconcileAll, Reconcile.After, WaitingBefore, DistinctIds;
    if n == 0 {
      NoneWaits(run, Reconcile.After(run));
    } else {
      OrderIsDistinct(run, history);
      DeletesAreCounted(run, history, n - 1);
      DeleteWaitsExactly(run, history, n - 1);
      WaitingStep(run, Reconcile.After(run), n - 1);
    }
  }

  /** What a run reports: the files the store did not record, and the entries the server is to delete. */
  lemma RunCounts(run: Run, history: History)
    requires GoodRun(run, history)
    ensures ReconcileAll(run.table, Updates(run)).Some?
    ensures QueuedFiles(run, |run.files|) == |set i | 0 <= i < |run.files| && !IsRecorded(run, i)|
    ensures QueuedDeletes(run, |run.order|) == |set id | id in run.table && DeleteWaits(run, Reconcile.After(run), id)|
  {
    UpdatesApply(run, history);
    UpsertsAreCounted(run, history, |run.files|);
    DeletesAreCounted(run, history, |run.order|);
    assert forall id :: id in run.table <==> id in run.order;
    hide GoodRun, DeleteWaits, Updates, ReconcileAll, Reconcile.After, IsRecorded;
    assert WaitingBefore(run, Reconcile.After(run), |run.order|) == set id | id in run.table && DeleteWaits(run, Reconcile.After(run), id);
  }

  // ---------------------------------------------------------------- writing in chunks

  const RECONCILE_UPDATE_CHUNK_SIZE := 500

  lemma {:induction false} ReconcileInParts(table: Entries, a: seq<Update>, b: seq<Update>)
    requires ReconcileAll(table, a).Some?
    ensures ReconcileAll(table, a + b) == ReconcileAll(ReconcileAll(table, a).value, b)
  {
    if b == [] {
      assert a + b == a;
    } else {
      assert (a + b)[..|a + b| - 1] == a + b[..|b| - 1];
      ReconcileInParts(table, a, b[..|b| - 1]);
    }
  }

  lemma {:induction false} LegalInParts(history: History, a: seq<Update>, b: seq<Update>)
    requires LegalUpdates(history, a + b)
    ensures LegalUpdates(history, a) && LegalUpdates(AfterUpdates(history, a), b)
    ensures AfterUpdates(history, a + b) == AfterUpdates(AfterUpdates(history, a), b)
    decreases |b|
  {
    if b == [] {
      assert a + b == a;
    } else {
      assert (a + b)[..|a + b| - 1] == a + b[..|b| - 1];
      LegalInParts(history, a, b[..|b| - 1]);
    }
  }

  lemma PrefixReconciles(table: Entries, updates: seq<Update>, n: nat)
    requires n <= |updates| && ReconcileAll(table, updates).Some?
    ensures ReconcileAll(table, updates[..n]).Some?
  {
    if ReconcileAll(table, updates[..n]).None? { ReconcileFailsOnce(table, updates, n); }
  }

  /** Each chunk is one transaction; together they have the effect of the whole list. */
  method ApplyReconcileUpdatesInChunks(store: SyncStore, updates: seq<Update>)
    requires store.Valid() && LegalUpdates(store.history, updates) && ReconcileAll(store.entries, updates).Some?
    modifies store
    ensures store.Valid() && store.history == AfterUpdates(old(store.history), updates)
    ensures Some(store.entries) == ReconcileAll(old(store.entries), updates)
  {
    hide Invariant, ReconcileAll, LegalUpdates, AfterUpdates;
    ghost var table, history := store.entries, store.history;
    StartOfUpdates(table, history);
    var index := 0;
    while index < |updates|
      invariant 0 <= index <= |updates| && store.Valid()
      invariant store.history == AfterUpdates(history, updates[..index])
      invariant Some(store.entries) == ReconcileAll(table, updates[..index])
      decreases |updates| - index
    {
      var next := Min(index + RECONCILE_UPDATE_CHUNK_SIZE, |updates|);
      var chunk := updates[index..next];
      ChunkFits(table, history, updates, index, next);
      var ok := store.ApplyReconcileEntryUpdates(chunk);
      index := next;
    }
    assert updates[..|updates|] == updates;
  }

  lemma StartOfUpdates(table: Entries, history: History)
    ensures ReconcileAll(table, []) == Some(table) && AfterUpdates(history, []) == history
  {
  }

  lemma ChunkFits(table: Entries, history: History, updates: seq<Update>, index: nat, next: nat)
    requires index <= next <= |updates| && LegalUpdates(history, updates) && ReconcileAll(table, updates).Some?
    ensures ReconcileAll(table, updates[..index]).Some?
    ensures LegalUpdates(AfterUpdates(history, updates[..index]), updates[index..next])
    ensures AfterUpdates(AfterUpdates(history, updates[..index]), updates[index..next]) == AfterUpdates(history, updates[..next])
    ensures ReconcileAll(ReconcileAll(table, updates[..index]).value, updates[index..next]) == ReconcileAll(table, updates[..next])
    ensures ReconcileAll(table, updates[..next]).Some?
  {
    PrefixReconciles(table, updates, index);
    PrefixReconciles(table, updates, next);
    assert updates == updates[..next] + updates[next..];
    LegalInParts(history, updates[..next], updates[next..]);
    assert updates[..next] == updates[..index] + updates[index..next];
    LegalInParts(history, updates[..index], updates[index..next]);
    ReconcileInParts(table, updates[..index], updates[index..next]);
    hide LegalUpdates, ReconcileAll, AfterUpdates;
  }

  /** A whole run on the shared store: afterwards the synced local paths are the files on disk, with their contents. */
  method ReconcileOnce(store: SyncStore, run: Run) returns (upserts: nat, deletes: nat)
    requires store.Valid() && store.entries == run.table && GoodRun(run, store.history)
    modifies store
    ensures store.Valid() && Some(store.entries) == ReconcileAll(run.table, Updates(run))
    ensures RunOutcome(run, store.entries)
    ensures upserts == |set i | 0 <= i < |run.files| && !IsRecorded(run, i)|
    ensures deletes == |set id | id in run.table && DeleteWaits(run, store.entries, id)|
    ensures forall i | 0 <= i < |run.files| ::
      exists id :: id in store.entries && Records(store.entries[id].local, run.files[i])
    ensures forall id | id in store.entries && LocalKey(store.entries[id]).Some? && run.syncable(LocalKey(store.entries[id]).value) ::
      Scanned(run.files, LocalKey(store.entries[id]).value)
  {
    ghost var history := store.history;
    assert DistinctIds(run.order);
    RunKeepsInvariant(run, history);
    RunOutcomes(run, history);
    RunCounts(run, history);
    hide GoodRun, Invariant, Updates, ReconcileAll, LegalUpdates, AfterUpdates, DistinctIds, FateAt, RunOutcome, DeleteWaits,
      IsRecorded;
    var updates;
    updates, upserts, deletes := PlanRun(run);
    ApplyReconcileUpdatesInChunks(store, updates);
    forall i | 0 <= i < |run.files| ensures exists id :: id in store.entries && Records(store.entries[id].local, run.files[i]) {
      EveryFileIsRecorded(run, history, i);
      assert FateAt(run, i).id in store.entries;
    }
    forall id | id in store.entries && LocalKey(store.entries[id]).Some? && run.syncable(LocalKey(store.entries[id]).value)
      ensures Scanned(run.files, LocalKey(store.entries[id]).value)
    {
      EveryRecordHasItsFile(run, history, id);
    }
  }
}

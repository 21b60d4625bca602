/** What Execute and Restore of internal/app/cleanup_service.go add up to when nothing fails. */
module RoundTrip {
  import opened Paths
  import opened Transactions
  import opened FileTree
  import opened Disks
  import opened QuarantineSpec
  import opened QuarantineEngine
  import opened Protocol
  import opened Repository
  import opened CleanupService

  /** A directory on the way to a quarantine slot or a manifest. */
  ghost predicate LeadsToQuarantine(items: seq<Item>, k: Path) {
    exists i | 0 <= i < |items| :: k <= items[i].quarantinePath || k <= items[i].manifestPath
  }

  /** The disk as it was, but for manifests and for new directories leading to quarantine. */
  ghost predicate BackAgain(items: seq<Item>, fs0: FS, fs: FS) {
    forall k | !IsManifest(items, k) && !SameAt(fs0, fs, k) ::
      k !in fs0 && fs[k].Directory? && LeadsToQuarantine(items, k)
  }

  /** What Restore makes of an item after Execute: what was rejected stays SKIPPED, what did not exist stays FAILED, and
      all else is RESTORED. */
  function Returned(item: Item, fs0: FS): ItemStatus {
    if item.status == Skipped then Skipped else if item.originalPath in fs0 then Restored else Failed
  }

  ghost predicate AllReturned(items: seq<Item>, now: seq<Item>, fs0: FS) {
    |now| == |items| && forall i | 0 <= i < |items| :: now[i].status == Returned(items[i], fs0)
  }

  /** New items, with empty slots and nothing in the way of their moves; what exists of them exists in a directory. */
  ghost predicate Ready(items: seq<Item>, fs: FS) {
    Layout(items) && Passable(items, fs) &&
    forall i | 0 <= i < |items| ::
      items[i].status in {Pending, Skipped} && Vacant(fs, items[i].quarantinePath) &&
      (items[i].status == Pending && items[i].originalPath in fs ==> DirsExist(fs, Dir(items[i].originalPath)))
  }

  /** Nor is anything in the way of their manifests. */
  ghost predicate Clear(items: seq<Item>, fs: FS) {
    Ready(items, fs) && ManifestsApart(items) && Writable(items, fs)
  }

  /** Every item that was to be moved and exists is MOVED. */
  ghost predicate AllMoved(items: seq<Item>, now: seq<Item>, fs0: FS) {
    |now| == |items| &&
    forall i | 0 <= i < |items| && items[i].status == Pending && items[i].originalPath in fs0 :: now[i].status == Moved
  }

  lemma ExecutedTells(id: string, fs0: FS, items: seq<Item>, before: Record, f: FS, i: nat)
    requires Layout(items) && Executed(id, fs0, f, items, before) && i < |items|
    requires items[i].status in {Pending, Skipped}
    requires items[i].status == Pending && items[i].originalPath in fs0 ==> before.items[i].status == Moved
    ensures SamePlace(items[i], before.items[i]) && Truthful(fs0, f, before.items[i])
    ensures before.items[i].status == if Returned(items[i], fs0) == Restored then Moved else Returned(items[i], fs0)
    ensures before.items[i].status != Moved ==> AtOriginal(fs0, f, items[i])
  {
    hide Safe, Changes, Finishes, AtOriginal, InQuarantine, Layout, Passable, ReachOf;
    assert MoveStep(items[i], before.items[i]) && TruthfulAfterMove(fs0, f, before.items[i]);
    SamePlaceSameFate(fs0, f, items[i], before.items[i]);
  }

  /** Restore, with no system call failing, undoes an Execute with no system call failing: every item that was moved is
      back, and so is every path. */
  lemma RestoreUndoesExecute(id: string, fs0: FS, items: seq<Item>, before: Record, f: FS, after: seq<Item>, f': FS,
                             trace: seq<FS>, n: nat)
    requires Ready(items, fs0) && Executed(id, fs0, f, items, before) && AllMoved(items, before.items, fs0)
    requires RestoreProgress(before.items, after, f, f', trace, n, |before.items|, true)
    requires SafeRestore(id, fs0, before.items, after, f, f', trace, n, |before.items|)
    ensures AllReturned(items, after, fs0)
    ensures BackAgain(items, fs0, f')
  {
    var moved := before.items;
    hide Layout, Passable, Safe, Changes, ChangesTrace, IsManifest, Truthful, AtOriginal, InQuarantine, Finishes,
         RelocatedTrace, Vacant, SafeTrace, DirsExist, OnlyDirs, NothingToRestore, ReachOf;
    forall i | 0 <= i < |items|
      ensures SamePlace(items[i], moved[i]) && Truthful(fs0, f, moved[i])
      ensures moved[i].status == if Returned(items[i], fs0) == Restored then Moved else Returned(items[i], fs0)
      ensures moved[i].status != Moved ==> AtOriginal(fs0, f, items[i])
    {
      ExecutedTells(id, fs0, items, before, f, i);
    }
    LayoutOfSamePlaces(items, moved);
    PassableOfSamePlaces(items, moved, f);
    var r := ReachOf(moved, after, false);
    forall i | 0 <= i < |items|
      ensures after[i].status == Returned(items[i], fs0) && AtOriginal(fs0, f', items[i])
      ensures i in r.tried ==> Returned(items[i], fs0) == Restored
    {
      ItemComesBack(id, fs0, items, before, f, after, f', trace, n, i);
    }
    SamePlacesSymmetric(items, moved);
    ChangesOfSamePlaces(moved, items, r, false, f, f');
    forall k | !IsManifest(items, k) && !SameAt(fs0, f', k)
      ensures k !in fs0 && f'[k].Directory? && LeadsToQuarantine(items, k)
    {
      OnlyDirectoriesRemain(fs0, f, f', items, ReachOf(items, moved, true), r, k);
    }
  }

  lemma ItemComesBack(id: string, fs0: FS, items: seq<Item>, before: Record, f: FS, after: seq<Item>, f': FS,
                      trace: seq<FS>, n: nat, i: nat)
    requires |items| == |before.items| && i < |items| && items[i].status in {Pending, Skipped}
    requires SamePlace(items[i], before.items[i]) && Truthful(fs0, f, before.items[i])
    requires before.items[i].status == if Returned(items[i], fs0) == Restored then Moved else Returned(items[i], fs0)
    requires before.items[i].status != Moved ==> AtOriginal(fs0, f, items[i])
    requires Layout(before.items) && Passable(before.items, f)
    requires RestoreProgress(before.items, after, f, f', trace, n, |before.items|, true)
    requires AllTruthful(fs0, f', after)
    ensures |after| == |items| && after[i].status == Returned(items[i], fs0) && AtOriginal(fs0, f', items[i])
    ensures i in ReachOf(before.items, after, false).tried ==> Returned(items[i], fs0) == Restored
  {
    var moved := before.items;
    assert RestoreStep(moved[i], after[i]) && Truthful(fs0, f', after[i]);
    hide Layout, Passable, Safe, Changes, ChangesTrace, RelocatedTrace, OnlyDirs, NothingToRestore, AllBack;
    if moved[i].status == Moved {
      MovedComesBack(fs0, moved, after, f, f', trace, n, i);
      SamePlaceSameFate(fs0, f', items[i], after[i]);
    } else {
      assert Vacant(f, moved[i].quarantinePath);
      assert EmptyStays(moved, after, f, |moved|);
      assert i !in ReachOf(moved, after, false).done;
      assert Undisturbed(f, f', moved[i]);
      IntactWhenUndisturbed(fs0, f, f', moved[i]);
      SamePlaceSameFate(fs0, f, items[i], moved[i]);
      SamePlaceSameFate(fs0, f', items[i], moved[i]);
    }
  }

  lemma OnlyDirectoriesRemain(fs0: FS, f: FS, f': FS, items: seq<Item>, out: Reach, back: Reach, k: Path)
    requires Changes(items, out, true, fs0, f) && Changes(items, back, false, f, f')
    requires forall i | 0 <= i < |items| :: AtOriginal(fs0, f', items[i]) && Vacant(fs0, items[i].quarantinePath)
    requires forall i | 0 <= i < |items| && i in back.tried :: DirsExist(fs0, Dir(items[i].originalPath))
    requires !IsManifest(items, k) && !SameAt(fs0, f', k)
    ensures k !in fs0 && f'[k].Directory? && LeadsToQuarantine(items, k)
  {
    hide IsManifest, AtOriginal, Vacant, DirsExist;
    forall i | 0 <= i < |items|
      ensures items[i].originalPath <= k ==> SameAt(fs0, f', k)
      ensures i in back.tried && k < items[i].originalPath && k != [] ==> k in fs0
      ensures items[i].quarantinePath <= k ==> k !in fs0 && k !in f'
    {
      AsBefore(fs0, f', items[i], k);
    }
    assert !AtSource(items, out, true, k) && !AtSource(items, back, false, k);
    if k in f {
      assert k !in fs0 && f[k] == f'[k];
      LeadsThere(items, out, k);
    } else {
      assert k !in fs0 && k in f' && AboveTarget(items, back, false, k);
      var i :| 0 <= i < |items| && ((i in back.tried && k <= items[i].originalPath) || k <= items[i].manifestPath);
      assert k <= items[i].manifestPath;
    }
  }

  lemma AsBefore(fs0: FS, f': FS, item: Item, k: Path)
    requires AtOriginal(fs0, f', item) && Vacant(fs0, item.quarantinePath)
    ensures item.originalPath <= k ==> SameAt(fs0, f', k)
    ensures DirsExist(fs0, Dir(item.originalPath)) && k < item.originalPath && k != [] ==> k in fs0
    ensures item.quarantinePath <= k ==> k !in fs0 && k !in f'
  {
    if item.originalPath <= k {
      RestoredAt(fs0, f', item, k);
    }
    if k < item.originalPath && k != [] {
      assert k == Dir(item.originalPath)[..|k|];
    }
  }

  lemma LeadsThere(items: seq<Item>, r: Reach, k: Path)
    requires AboveTarget(items, r, true, k)
    ensures LeadsToQuarantine(items, k)
  {
  }

  lemma RestoredAt(fs0: FS, fs: FS, item: Item, k: Path)
    requires AtOriginal(fs0, fs, item) && item.originalPath <= k
    ensures SameAt(fs0, fs, k)
  {
    var p, s := item.originalPath, k[|item.originalPath|..];
    assert p + s == k;
    SameTreeSameNode(fs0, fs, p, s);
  }

  lemma SameTreeSameNode(a: FS, b: FS, p: Path, s: Path)
    requires TreeAt(a, p) == TreeAt(b, p)
    ensures SameAt(a, b, p + s)
  {
    assert s in TreeAt(a, p) <==> s in TreeAt(b, p);
  }

  /** Execute and then Restore, on a disk and a repository that refuse nothing. */
  method ExecuteThenRestore(disk: Disk, repository: TransactionRepository, engine: Engine, id: string,
                            plan: seq<PlanItem>, accepts: PlanItem -> bool, now: int, later: int)
      returns (record: Record)
    requires disk.Valid() && disk.Reliable() && repository.Reliable() && id !in repository.records
    requires Clear(PlacedItems(engine, id, plan, accepts), disk.files)
    modifies disk, repository
    ensures disk.Valid() && repository.records == old(repository.records)[id := record]
    ensures AllReturned(PlacedItems(engine, id, plan, accepts), record.items, old(disk.files))
    ensures Finishes(record.items, true, record.status)
    ensures BackAgain(PlacedItems(engine, id, plan, accepts), old(disk.files), disk.files)
  {
    ghost var fs0, items, rows := disk.files, PlacedItems(engine, id, plan, accepts), repository.records;
    hide *;
    var first := ExecuteCleanly(disk, repository, engine, id, plan, accepts, now);
    ghost var f, n := disk.files, |disk.trace|;
    ClearGives(items, fs0);
    ExecutedIsRestorable(id, fs0, f, items, first);
    var second := CleanupService.Restore(disk, repository, id, later, fs0);
    record := second.record;
    Overwritten(rows, id, first, record);
    RestoreUndoesExecute(id, fs0, items, first, f, record.items, disk.files, disk.trace, n);
  }

  method ExecuteCleanly(disk: Disk, repository: TransactionRepository, engine: Engine, id: string, plan: seq<PlanItem>,
                        accepts: PlanItem -> bool, now: int) returns (record: Record)
    requires disk.Valid() && disk.Reliable() && repository.Reliable() && id !in repository.records
    requires Clear(PlacedItems(engine, id, plan, accepts), disk.files)
    modifies disk, repository
    ensures disk.Valid() && repository.records == old(repository.records)[id := record]
    ensures Executed(id, old(disk.files), disk.files, PlacedItems(engine, id, plan, accepts), record)
    ensures AllMoved(PlacedItems(engine, id, plan, accepts), record.items, old(disk.files))
  {
    hide Layout, ManifestsApart, Writable, Passable, Vacant, DirsExist, PlacedItems, CrashSafe, AtOriginal, Executed;
    var first := Execute(disk, repository, engine, id, plan, accepts, now);
    record := first.record;
    ExecutedAsMany(id, old(disk.files), disk.files, PlacedItems(engine, id, plan, accepts), record);
  }

  lemma ExecutedAsMany(id: string, fs0: FS, fs: FS, items: seq<Item>, record: Record)
    requires Executed(id, fs0, fs, items, record)
    ensures |record.items| == |items|
  {
    hide Safe, Changes, Passable, Finishes, ReachOf;
  }

  lemma Overwritten<K, V>(m: map<K, V>, k: K, v: V, v': V)
    ensures m[k := v][k := v'] == m[k := v']
  {
  }

  lemma ClearGives(items: seq<Item>, fs: FS)
    requires Clear(items, fs)
    ensures Ready(items, fs) && Layout(items)
  {
    hide Layout, ManifestsApart, Writable, Passable, Vacant, DirsExist;
  }

  lemma ExecutedIsRestorable(id: string, fs0: FS, f: FS, items: seq<Item>, record: Record)
    requires Layout(items) && Executed(id, fs0, f, items, record)
    ensures record.id == id && Layout(record.items) && Safe(id, fs0, f, record.items) && |record.items| == |items|
    ensures SamePlaces(items, record.items)
  {
    hide Layout, Safe, Changes, Finishes, TruthfulAfterMove, Passable, ReachOf;
    assert forall i | 0 <= i < |items| :: MoveStep(items[i], record.items[i]);
    LayoutOfSamePlaces(items, record.items);
    SafeOfSamePlaces(id, fs0, f, items, record.items);
  }
}

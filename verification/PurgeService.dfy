/** internal/app/purge_service.go: the only code that deletes. */
module PurgeService {
  import opened Wrappers
  import opened Paths
  import opened Transactions
  import opened FileTree
  import opened Disks
  import opened QuarantineSpec
  import opened QuarantineEngine
  import opened Repository

  /** The evidence without which no tree is deleted: it lies strictly below the items directory next to the
      item's manifest, and that manifest, of this very transaction, lists it there. */
  ghost predicate PurgeAllowed(id: string, fs: FS, item: Item) {
    ProperlyInside(item.quarantinePath, Dir(item.manifestPath) + ["items"]) &&
    item.manifestPath != [] && item.manifestPath in fs &&
    fs[item.manifestPath].File? && fs[item.manifestPath].data.ManifestData? &&
    var m := fs[item.manifestPath].data.manifest;
    m.schemaVersion == MANIFEST_VERSION && m.transactionID == id &&
    exists j | 0 <= j < |m.items| :: m.items[j].id == item.id && m.items[j].quarantinePath == item.quarantinePath
  }

  /** The paths of the item are proper, so its manifest gets read. */
  predicate Examined(item: Item) {
    item.quarantinePath != [] && item.manifestPath != [] &&
    ProperlyInside(item.quarantinePath, Dir(item.manifestPath) + ["items"])
  }

  method ValidatePurgeItem(disk: Disk, id: string, item: Item) returns (ok: bool)
    requires disk.Valid()
    modifies disk`tick
    ensures ok <==> PurgeAllowed(id, disk.files, item) && disk.grants(old(disk.tick))
    ensures disk.tick == old(disk.tick) + if Examined(item) then 1 else 0
  {
    if item.quarantinePath == [] || item.manifestPath == [] {
      return false;
    }
    var itemsDirectory := Dir(item.manifestPath) + ["items"];
    if !SameOrChild(item.quarantinePath, itemsDirectory) {
      return false;
    }
    if item.quarantinePath == itemsDirectory {
      return false;
    }
    var read := disk.ReadFile(item.manifestPath);
    if read.ReadError? || !read.data.ManifestData? {
      return false;
    }
    var manifest := read.data.manifest;
    if manifest.schemaVersion != MANIFEST_VERSION || manifest.transactionID != id {
      return false;
    }
    for j := 0 to |manifest.items|
      invariant forall k | 0 <= k < j ::
                  !(manifest.items[k].id == item.id && manifest.items[k].quarantinePath == item.quarantinePath)
    {
      if manifest.items[j].id == item.id && manifest.items[j].quarantinePath == item.quarantinePath {
        return true;
      }
    }
    return false;
  }

  /** An item that Prepare placed and a safe disk records is one that validation lets pass. */
  lemma RecordedItemsPass(engine: Engine, id: string, fs: FS, created: Item, item: Item)
    requires SamePlace(engine.Placed(id, created), item) && RecordedOnDisk(id, fs, item)
    ensures PurgeAllowed(id, fs, item)
  {
    var root := engine.Root(item.originalPath, id);
    assert item.manifestPath == root + ["manifest.json"] && Dir(item.manifestPath) == root;
    assert item.quarantinePath == (root + ["items"]) + [engine.slotName(item.id, item.originalPath)];
    var m := fs[item.manifestPath].data.manifest;
    var j :| 0 <= j < |m.items| && SamePlace(m.items[j], item);
    assert m.items[j].id == item.id && m.items[j].quarantinePath == item.quarantinePath;
  }

  predicate RealTreeAt(fs: FS, p: Path) {
    p in fs && !fs[p].Link?
  }

  /** What a purge that starts now would delete: the tree of a MOVED item that validation lets pass, and no link. */
  ghost predicate Purgeable(id: string, fs: FS, item: Item) {
    item.status == Moved && PurgeAllowed(id, fs, item) && RealTreeAt(fs, item.quarantinePath)
  }

  /** Confinement: whatever is gone was in the slot of one of the first n items, one whose tree the disk state a
      allowed to be deleted; nothing else changed. */
  ghost predicate PurgesOnly(id: string, items: seq<Item>, n: nat, a: FS, b: FS)
    requires n <= |items|
  {
    (forall k | k in b :: k in a && b[k] == a[k]) &&
    (forall k | k in a && k !in b :: InPurgedSlot(id, items, n, a, k))
  }

  ghost predicate InPurgedSlot(id: string, items: seq<Item>, n: nat, a: FS, k: Path)
    requires n <= |items|
  {
    exists i | 0 <= i < n :: Purgeable(id, a, items[i]) && items[i].quarantinePath <= k
  }

  lemma AllowedBefore(id: string, a: FS, b: FS, item: Item)
    requires forall k | k in b :: k in a && b[k] == a[k]
    requires PurgeAllowed(id, b, item)
    ensures PurgeAllowed(id, a, item) && (Purgeable(id, b, item) ==> Purgeable(id, a, item))
  {
  }

  lemma PurgeOneMore(id: string, items: seq<Item>, i: nat, a: FS, b: FS, c: FS)
    requires i < |items| && PurgesOnly(id, items, i, a, b)
    requires Purgeable(id, b, items[i]) && RemovesUnder(b, c, items[i].quarantinePath)
    ensures PurgesOnly(id, items, i + 1, a, c)
  {
    AllowedBefore(id, a, b, items[i]);
    hide PurgeAllowed;
    forall k | k in a && k !in c
      ensures InPurgedSlot(id, items, i + 1, a, k)
    {
      if k !in b {
        assert InPurgedSlot(id, items, i, a, k);
      }
    }
  }

  lemma PurgesOnlyGrows(id: string, items: seq<Item>, n: nat, n': nat, a: FS, b: FS)
    requires n <= n' <= |items| && PurgesOnly(id, items, n, a, b)
    ensures PurgesOnly(id, items, n', a, b)
  {
    hide PurgeAllowed;
    forall k | k in a && k !in b
      ensures InPurgedSlot(id, items, n', a, k)
    {
      assert InPurgedSlot(id, items, n, a, k);
    }
  }

  /** With nothing nested, purging some items leaves the slot and the manifest of any other as they were. */
  lemma OthersUntouched(id: string, items: seq<Item>, n: nat, a: FS, b: FS, j: nat)
    requires n <= j < |items| && Layout(items) && PurgesOnly(id, items, n, a, b)
    ensures SameAt(a, b, items[j].manifestPath) && SameAt(a, b, items[j].quarantinePath)
  {
    hide PurgeAllowed;
    forall i | 0 <= i < n
      ensures !(items[i].quarantinePath <= items[j].manifestPath)
      ensures !(items[i].quarantinePath <= items[j].quarantinePath)
    {
      assert OffLimits(items[i], items[j].manifestPath);
    }
    assert !InPurgedSlot(id, items, n, a, items[j].manifestPath);
    assert !InPurgedSlot(id, items, n, a, items[j].quarantinePath);
  }

  /** Deleting slots takes no manifest away. */
  lemma PurgesOnlyKeepsNames(id: string, items: seq<Item>, a: FS, b: FS)
    requires Layout(items) && PurgesOnly(id, items, |items|, a, b)
    ensures StaysNamed(id, items, a, b)
  {
    forall j | 0 <= j < |items| && RecordedOnDisk(id, a, items[j])
      ensures RecordedOnDisk(id, b, items[j])
    {
      ManifestNotPurged(id, items, a, b, j);
    }
  }

  lemma ManifestNotPurged(id: string, items: seq<Item>, a: FS, b: FS, j: nat)
    requires j < |items| && Layout(items) && PurgesOnly(id, items, |items|, a, b)
    ensures SameAt(a, b, items[j].manifestPath)
  {
    hide Purgeable;
    forall i | 0 <= i < |items|
      ensures !(items[i].quarantinePath <= items[j].manifestPath)
    {
      assert OffLimits(items[i], items[j].manifestPath);
    }
    assert !InPurgedSlot(id, items, |items|, a, items[j].manifestPath);
  }

  predicate PurgeStep(a: Item, b: Item) {
    SamePlace(a, b) && if a.status == Moved then b.status in {Failed, Purged} else b.status == a.status
  }

  /** What holds after n rounds of the deleting loop. */
  ghost predicate PurgeProgress(id: string, items: seq<Item>, now: seq<Item>, a: FS, b: FS, trace: seq<FS>, from: nat,
                                n: nat, reliable: bool) {
    n <= |items| == |now| && from <= |trace| &&
    (forall j | 0 <= j < n :: PurgeStep(items[j], now[j])) &&
    (forall j | n <= j < |items| :: now[j] == items[j]) &&
    PurgesOnly(id, items, n, a, b) && (forall t | from <= t < |trace| :: PurgesOnly(id, items, n, a, trace[t])) &&
    (forall j | 0 <= j < n && items[j].status == Moved && now[j].status == Purged ::
       Purgeable(id, a, items[j]) && Vacant(b, items[j].quarantinePath)) &&
    (reliable && Layout(items) ==> forall j | 0 <= j < n && Purgeable(id, a, items[j]) :: now[j].status == Purged) &&
    (Layout(items) ==> PurgedMeansGone(id, items, now, n, a, b))
  }

  /** Of what could be deleted, exactly what is PURGED is gone. */
  ghost predicate PurgedMeansGone(id: string, items: seq<Item>, now: seq<Item>, n: nat, a: FS, b: FS)
    requires n <= |items| == |now|
  {
    forall j | 0 <= j < n && Purgeable(id, a, items[j]) ::
      now[j].status == Purged <==> Vacant(b, items[j].quarantinePath)
  }

  /** An environment that refuses the calls before number tick + n, grants three, and refuses the rest: the manifest is
      read, the slot looked up, and one deletion goes ahead. */
  ghost predicate Singled(grants: nat -> bool, tick: nat, n: nat) {
    (forall m | tick <= m < tick + n :: !grants(m)) &&
    grants(tick + n) && grants(tick + n + 1) && grants(tick + n + 2) && forall m | tick + n + 2 < m :: !grants(m)
  }

  /** How many of the first n items get their manifest read. */
  function Examinations(items: seq<Item>, n: nat): nat
    requires n <= |items|
  {
    if n == 0 then 0
    else Examinations(items, n - 1) + if items[n - 1].status == Moved && Examined(items[n - 1]) then 1 else 0
  }

  /** Item k may be deleted and has a tree of several nodes, nothing is PURGED yet, and the environment grants no more
      than the examination of this item and one deletion. */
  ghost predicate Exposed(grants: nat -> bool, tick: nat, id: string, items: seq<Item>, a: FS, k: nat)
    requires k < |items|
  {
    Purgeable(id, a, items[k]) && Branches(a, items[k].quarantinePath) &&
    Singled(grants, tick, Examinations(items, k)) && forall j | 0 <= j < |items| :: items[j].status != Purged
  }

  /** Then, after i rounds: nothing has happened before the turn of item k, and no more than that deletion after it. */
  ghost predicate Picking(tick: nat, items: seq<Item>, now: seq<Item>, a: FS, b: FS, tick': nat, i: nat, k: nat)
    requires i <= |items| && k < |items|
  {
    (forall j | 0 <= j < |now| :: now[j].status != Purged) &&
    if i <= k then b == a && tick' == tick + Examinations(items, i)
    else OneGone(a, b, items[k].quarantinePath) && tick' > tick + Examinations(items, k) + 2
  }

  lemma PickingStarts(grants: nat -> bool, tick: nat, id: string, items: seq<Item>, a: FS, k: nat)
    requires k < |items| && Exposed(grants, tick, id, items, a, k)
    ensures Picking(tick, items, items, a, a, tick, 0, k)
  {
    hide Purgeable, Branches;
  }

  lemma PickingSkips(grants: nat -> bool, tick: nat, id: string, items: seq<Item>, now: seq<Item>, a: FS, b: FS,
                     tick': nat, i: nat, k: nat)
    requires k < |items| && Exposed(grants, tick, id, items, a, k) && i < |items| && items[i].status != Moved
    requires Picking(tick, items, now, a, b, tick', i, k)
    ensures Picking(tick, items, now, a, b, tick', i + 1, k)
  {
    hide PurgeAllowed, RealTreeAt, Branches, Singled, OneGone;
  }

  lemma PickingNext(grants: nat -> bool, tick: nat, id: string, items: seq<Item>, now: seq<Item>, now': seq<Item>,
                    a: FS, b: FS, c: FS, start: nat, tick': nat, i: nat, k: nat)
    requires k < |items| && Exposed(grants, tick, id, items, a, k) && i < |items| == |now| && items[i].status == Moved
    requires Picking(tick, items, now, a, b, start, i, k)
    requires |now'| == |now| && now' == now[i := now'[i]]
    requires !(Examined(items[i]) && grants(start)) ==>
               c == b && now'[i].status == Failed && tick' == start + if Examined(items[i]) then 1 else 0
    requires Purgeable(id, b, items[i]) && Branches(b, items[i].quarantinePath) && Singled(grants, start, 0) ==>
               now'[i].status == Failed && OneGone(b, c, items[i].quarantinePath) && tick' > start + 2
    ensures Picking(tick, items, now', a, c, tick', i + 1, k)
  {
    hide Purgeable, Branches, OneGone;
    ExaminationsGrow(items, i, k);
    if i == k {
      assert start == tick + Examinations(items, k);
    }
  }

  lemma PickingEnds(tick: nat, items: seq<Item>, now: seq<Item>, a: FS, b: FS, tick': nat, k: nat)
    requires k < |items| && Picking(tick, items, now, a, b, tick', |items|, k)
    ensures OneGone(a, b, items[k].quarantinePath)
    ensures forall j | 0 <= j < |now| :: now[j].status != Purged
  {
    hide OneGone;
  }

  lemma {:induction false} ExaminationsGrow(items: seq<Item>, i: nat, k: nat)
    requires i < |items| && k < |items|
    ensures i < k ==>
              Examinations(items, i) + (if items[i].status == Moved && Examined(items[i]) then 1 else 0) <=
              Examinations(items, k)
  {
    hide Examined;
    if i + 1 < k {
      ExaminationsGrow(items, i, k - 1);
    }
  }

  method PurgeItem(disk: Disk, id: string, item: Item) returns (status: ItemStatus, candidate: bool)
    requires disk.Valid() && item.status == Moved
    modifies disk
    ensures disk.Valid() && old(disk.trace) <= disk.trace
    ensures status in {Failed, Purged}
    ensures candidate ==> PurgeAllowed(id, old(disk.files), item)
    ensures disk.Reliable() && PurgeAllowed(id, old(disk.files), item) ==> candidate
    ensures !Purgeable(id, old(disk.files), item) ==>
              disk.files == old(disk.files) && disk.trace == old(disk.trace) && status == Failed
    ensures RemovesUnder(old(disk.files), disk.files, item.quarantinePath)
    ensures forall t | |old(disk.trace)| <= t < |disk.trace| ::
              RemovesUnder(old(disk.files), disk.trace[t], item.quarantinePath)
    ensures status == Purged ==> Vacant(disk.files, item.quarantinePath)
    ensures disk.Reliable() && Purgeable(id, old(disk.files), item) ==> status == Purged
    ensures Purgeable(id, old(disk.files), item) ==> (status == Purged <==> Vacant(disk.files, item.quarantinePath))
    ensures !(Examined(item) && disk.grants(old(disk.tick))) ==>
              disk.files == old(disk.files) && status == Failed &&
              disk.tick == old(disk.tick) + if Examined(item) then 1 else 0
    ensures Purgeable(id, old(disk.files), item) && Branches(old(disk.files), item.quarantinePath) &&
            Singled(disk.grants, old(disk.tick), 0) ==>
              status == Failed && OneGone(old(disk.files), disk.files, item.quarantinePath) &&
              disk.tick > old(disk.tick) + 2
  {
    hide PurgeAllowed, Vacant, RemovedBy, Branches, OneGone;
    AllowedIsExamined(id, disk.files, item);
    candidate := ValidatePurgeItem(disk, id, item);
    status := Failed;
    Occupied(disk.files, item.quarantinePath);
    if candidate {
      var found := disk.Lstat(item.quarantinePath);
      if found.Found? && !found.node.Link? {
        ghost var files, start := disk.files, disk.tick;
        var ok := disk.RemoveAll(item.quarantinePath);
        if Branches(files, item.quarantinePath) && Singled(disk.grants, old(disk.tick), 0) {
          FirstGoes(disk.grants, start, files, item.quarantinePath, ok, disk.files, disk.tick);
        }
        if ok {
          status := Purged;
        }
      }
    }
  }

  lemma Occupied(fs: FS, p: Path)
    ensures RealTreeAt(fs, p) ==> !Vacant(fs, p)
  {
  }

  lemma AllowedIsExamined(id: string, fs: FS, item: Item)
    ensures PurgeAllowed(id, fs, item) ==> Examined(item)
  {
  }

  method PurgeItems(disk: Disk, id: string, items: seq<Item>) returns (now: seq<Item>, candidates: seq<Path>)
    requires disk.Valid()
    modifies disk
    ensures disk.Valid() && old(disk.trace) <= disk.trace
    ensures PurgeProgress(id, items, now, old(disk.files), disk.files, disk.trace, |old(disk.trace)|, |items|,
                          disk.Reliable())
    ensures forall p | p in candidates :: ToPurge(id, items, |items|, old(disk.files), p)
    ensures disk.Reliable() && Layout(items) ==>
              forall p | ToPurge(id, items, |items|, old(disk.files), p) :: p in candidates
    ensures forall k | 0 <= k < |items| && Exposed(disk.grants, old(disk.tick), id, items, old(disk.files), k) ::
              OneGone(old(disk.files), disk.files, items[k].quarantinePath) &&
              forall j | 0 <= j < |now| :: now[j].status != Purged
  {
    hide PurgeProgress, PurgeAllowed, RemovesUnder, Vacant, Layout, ToPurge, Exposed, Picking, Examined, Branches,
         OneGone, Singled;
    ghost var a, from := disk.files, |disk.trace|;
    ghost var all := disk.Reliable() && Layout(items);
    ToPurgeStarts(id, items, a);
    now, candidates := items, [];
    ghost var tick := disk.tick;
    forall k | 0 <= k < |items| && Exposed(disk.grants, tick, id, items, a, k)
      ensures Picking(tick, items, now, a, a, tick, 0, k)
    {
      PickingStarts(disk.grants, tick, id, items, a, k);
    }
    PurgeStarts(id, items, a, disk.trace, disk.Reliable());
    for i := 0 to |items|
      invariant |now| == |items|
      invariant disk.Valid() && old(disk.trace) <= disk.trace
      invariant PurgeProgress(id, items, now, a, disk.files, disk.trace, from, i, disk.Reliable())
      invariant Candidates(id, items, i, a, candidates, all)
      invariant forall k | 0 <= k < |items| && Exposed(disk.grants, tick, id, items, a, k) ::
                  Picking(tick, items, now, a, disk.files, disk.tick, i, k)
    {
      ghost var start := disk.tick;
      hide Candidates;
      PurgePending(id, items, now, a, disk.files, disk.trace, from, i, disk.Reliable());
      if now[i].status == Moved {
        ghost var before, b, trace := now, disk.files, disk.trace;
        var status, candidate := PurgeItem(disk, id, now[i]);
        if candidate {
          AllowedBefore(id, a, b, items[i]);
        }
        CandidatesNext(id, items, i, a, candidates, all, candidate);
        if candidate {
          candidates := candidates + [now[i].quarantinePath];
        }
        now := now[i := now[i].(status := status)];
        forall k | 0 <= k < |items| && Exposed(disk.grants, tick, id, items, a, k)
          ensures Picking(tick, items, now, a, disk.files, disk.tick, i + 1, k)
        {
          PickingNext(disk.grants, tick, id, items, before, now, a, b, disk.files, start, disk.tick, i, k);
        }
        PurgeAdvances(id, items, before, now, a, b, disk.files, trace, disk.trace, from, i, disk.Reliable());
      } else {
        CandidatesNext(id, items, i, a, candidates, all, false);
        forall k | 0 <= k < |items| && Exposed(disk.grants, tick, id, items, a, k)
          ensures Picking(tick, items, now, a, disk.files, disk.tick, i + 1, k)
        {
          PickingSkips(disk.grants, tick, id, items, now, a, disk.files, disk.tick, i, k);
        }
        PurgeSkips(id, items, now, a, disk.files, disk.trace, from, i, disk.Reliable());
      }
    }
    forall k | 0 <= k < |items| && Exposed(disk.grants, tick, id, items, a, k)
      ensures OneGone(a, disk.files, items[k].quarantinePath) && forall j | 0 <= j < |now| :: now[j].status != Purged
    {
      PickingEnds(tick, items, now, a, disk.files, disk.tick, k);
    }
  }

  /** The slot of one of the first n items that may and should be purged. */
  ghost predicate ToPurge(id: string, items: seq<Item>, n: nat, a: FS, p: Path)
    requires n <= |items|
  {
    exists j | 0 <= j < n :: items[j].quarantinePath == p && items[j].status == Moved && PurgeAllowed(id, a, items[j])
  }

  lemma ToPurgeStarts(id: string, items: seq<Item>, a: FS)
    ensures forall p :: !ToPurge(id, items, 0, a, p)
  {
  }

  lemma ToPurgeNext(id: string, items: seq<Item>, i: nat, a: FS, p: Path)
    requires i < |items|
    ensures ToPurge(id, items, i + 1, a, p) <==>
              ToPurge(id, items, i, a, p) ||
              (p == items[i].quarantinePath && items[i].status == Moved && PurgeAllowed(id, a, items[i]))
  {
    hide PurgeAllowed;
    if ToPurge(id, items, i, a, p) {
      var j :| 0 <= j < i && items[j].quarantinePath == p && items[j].status == Moved && PurgeAllowed(id, a, items[j]);
      assert items[j].quarantinePath == p;
    }
    assert items[i].quarantinePath == items[i].quarantinePath;
  }

  /** The candidates so far: only slots that may be purged, and if all is set, every one. */
  ghost predicate Candidates(id: string, items: seq<Item>, n: nat, a: FS, candidates: seq<Path>, all: bool)
    requires n <= |items|
  {
    (forall p | p in candidates :: ToPurge(id, items, n, a, p)) &&
    (all ==> forall p | ToPurge(id, items, n, a, p) :: p in candidates)
  }

  lemma CandidatesNext(id: string, items: seq<Item>, i: nat, a: FS, candidates: seq<Path>, all: bool, taken: bool)
    requires i < |items| && Candidates(id, items, i, a, candidates, all)
    requires taken ==> items[i].status == Moved && PurgeAllowed(id, a, items[i])
    requires all && items[i].status == Moved && PurgeAllowed(id, a, items[i]) ==> taken
    ensures Candidates(id, items, i + 1, a, if taken then candidates + [items[i].quarantinePath] else candidates, all)
  {
    hide ToPurge, PurgeAllowed;
    var slot := items[i].quarantinePath;
    var next := if taken then candidates + [slot] else candidates;
    forall p
      ensures p in next ==> ToPurge(id, items, i + 1, a, p)
      ensures all && ToPurge(id, items, i + 1, a, p) ==> p in next
    {
      ToPurgeNext(id, items, i, a, p);
      assert p in next <==> p in candidates || (taken && p == slot);
    }
  }

  lemma PurgeStarts(id: string, items: seq<Item>, a: FS, trace: seq<FS>, reliable: bool)
    ensures PurgeProgress(id, items, items, a, a, trace, |trace|, 0, reliable)
  {
  }

  lemma PurgePending(id: string, items: seq<Item>, now: seq<Item>, a: FS, b: FS, trace: seq<FS>, from: nat, i: nat,
                     reliable: bool)
    requires PurgeProgress(id, items, now, a, b, trace, from, i, reliable) && i < |items|
    ensures now[i] == items[i]
    ensures forall k | k in b :: k in a && b[k] == a[k]
    ensures Layout(items) && PurgeAllowed(id, a, items[i]) ==> PurgeAllowed(id, b, items[i])
  {
    hide PurgeAllowed, Layout, PurgeStep;
    if Layout(items) && PurgeAllowed(id, a, items[i]) {
      OthersUntouched(id, items, i, a, b, i);
      StillAllowed(id, a, b, items[i]);
    }
  }

  lemma PurgeSkips(id: string, items: seq<Item>, now: seq<Item>, a: FS, b: FS, trace: seq<FS>, from: nat, i: nat,
                   reliable: bool)
    requires PurgeProgress(id, items, now, a, b, trace, from, i, reliable) && i < |items| && now[i].status != Moved
    ensures PurgeProgress(id, items, now, a, b, trace, from, i + 1, reliable)
  {
    hide PurgeAllowed, Layout, Vacant, PurgesOnly;
    assert PurgeStep(items[i], now[i]);
    assert !Purgeable(id, a, items[i]);
    PurgesOnlyGrows(id, items, i, i + 1, a, b);
    forall t | from <= t < |trace|
      ensures PurgesOnly(id, items, i + 1, a, trace[t])
    {
      PurgesOnlyGrows(id, items, i, i + 1, a, trace[t]);
    }
  }

  lemma PurgeAdvances(id: string, items: seq<Item>, now: seq<Item>, now': seq<Item>, a: FS, b: FS, c: FS,
                      trace: seq<FS>, trace': seq<FS>, from: nat, i: nat, reliable: bool)
    requires PurgeProgress(id, items, now, a, b, trace, from, i, reliable) && i < |items| && trace <= trace'
    requires now[i].status == Moved && |now'| == |now| && now'[i].status in {Failed, Purged}
    requires now' == now[i := now[i].(status := now'[i].status)]
    requires !Purgeable(id, b, items[i]) ==> c == b && trace' == trace && now'[i].status == Failed
    requires RemovesUnder(b, c, items[i].quarantinePath)
    requires forall t | |trace| <= t < |trace'| :: RemovesUnder(b, trace'[t], items[i].quarantinePath)
    requires now'[i].status == Purged ==> Vacant(c, items[i].quarantinePath)
    requires reliable && Purgeable(id, b, items[i]) ==> now'[i].status == Purged
    requires Purgeable(id, b, items[i]) ==> (now'[i].status == Purged <==> Vacant(c, items[i].quarantinePath))
    ensures PurgeProgress(id, items, now', a, c, trace', from, i + 1, reliable)
  {
    hide Purgeable, Layout, RemovesUnder, PurgesOnly, Vacant, PurgedMeansGone;
    if Layout(items) {
      GoneAdvances(id, items, now, now', a, b, c, i);
    }
    AdvanceConfinement(id, items, a, b, c, trace, trace', from, i);
    forall j | 0 <= j < i + 1 && items[j].status == Moved && now'[j].status == Purged
      ensures Purgeable(id, a, items[j]) && Vacant(c, items[j].quarantinePath)
    {
      if j == i {
        PurgeableBefore(id, items, i, a, b);
      } else {
        assert now'[j] == now[j] && Purgeable(id, a, items[j]) && Vacant(b, items[j].quarantinePath);
        StaysVacant(b, c, items[i].quarantinePath, items[j].quarantinePath);
      }
    }
    if reliable && Layout(items) && Purgeable(id, a, items[i]) {
      StillPurgeable(id, items, i, a, b);
    }
    assert PurgeStep(items[i], now'[i]);
  }

  lemma GoneAdvances(id: string, items: seq<Item>, now: seq<Item>, now': seq<Item>, a: FS, b: FS, c: FS, i: nat)
    requires |items| == |now| == |now'| && i < |items| && Layout(items) && PurgesOnly(id, items, i, a, b)
    requires PurgedMeansGone(id, items, now, i, a, b) && now' == now[i := now'[i]]
    requires RemovesUnder(b, c, items[i].quarantinePath)
    requires Purgeable(id, b, items[i]) ==> (now'[i].status == Purged <==> Vacant(c, items[i].quarantinePath))
    ensures PurgedMeansGone(id, items, now', i + 1, a, c)
  {
    hide Purgeable, Vacant, RemovesUnder, PurgesOnly;
    forall j | 0 <= j < i + 1 && Purgeable(id, a, items[j])
      ensures now'[j].status == Purged <==> Vacant(c, items[j].quarantinePath)
    {
      if j == i {
        StillPurgeable(id, items, i, a, b);
      } else {
        SlotsApart(items, i, j);
        RemoveKeepsTree(b, c, items[i].quarantinePath, items[j].quarantinePath);
      }
    }
  }

  lemma SlotsApart(items: seq<Item>, i: nat, j: nat)
    requires Layout(items) && i < |items| && j < |items| && i != j
    ensures !Nested(items[i].quarantinePath, items[j].quarantinePath)
  {
  }

  lemma StaysVacant(a: FS, b: FS, p: Path, q: Path)
    requires RemovesUnder(a, b, p) && Vacant(a, q)
    ensures Vacant(b, q)
  {
  }

  lemma PurgeableBefore(id: string, items: seq<Item>, i: nat, a: FS, b: FS)
    requires i < |items| && PurgesOnly(id, items, i, a, b) && Purgeable(id, b, items[i])
    ensures Purgeable(id, a, items[i])
  {
    AllowedBefore(id, a, b, items[i]);
  }

  lemma StillPurgeable(id: string, items: seq<Item>, i: nat, a: FS, b: FS)
    requires i < |items| && Layout(items) && PurgesOnly(id, items, i, a, b) && Purgeable(id, a, items[i])
    ensures Purgeable(id, b, items[i])
  {
    OthersUntouched(id, items, i, a, b, i);
    StillAllowed(id, a, b, items[i]);
  }

  lemma StillAllowed(id: string, a: FS, b: FS, item: Item)
    requires PurgeAllowed(id, a, item) && SameAt(a, b, item.manifestPath)
    ensures PurgeAllowed(id, b, item)
  {
  }

  lemma AdvanceConfinement(id: string, items: seq<Item>, a: FS, b: FS, c: FS, trace: seq<FS>, trace': seq<FS>,
                           from: nat, i: nat)
    requires i < |items| && items[i].status == Moved && from <= |trace| && trace <= trace'
    requires PurgesOnly(id, items, i, a, b) && forall t | from <= t < |trace| :: PurgesOnly(id, items, i, a, trace[t])
    requires !Purgeable(id, b, items[i]) ==> c == b && trace' == trace
    requires RemovesUnder(b, c, items[i].quarantinePath)
    requires forall t | |trace| <= t < |trace'| :: RemovesUnder(b, trace'[t], items[i].quarantinePath)
    ensures PurgesOnly(id, items, i + 1, a, c)
    ensures forall t | from <= t < |trace'| :: PurgesOnly(id, items, i + 1, a, trace'[t])
  {
    hide Purgeable, PurgesOnly, RemovesUnder;
    forall t | from <= t < |trace'|
      ensures PurgesOnly(id, items, i + 1, a, trace'[t])
    {
      if t < |trace| {
        assert trace'[t] == trace[t];
        PurgesOnlyGrows(id, items, i, i + 1, a, trace[t]);
      } else {
        PurgeOneMore(id, items, i, a, b, trace'[t]);
      }
    }
    if Purgeable(id, b, items[i]) {
      PurgeOneMore(id, items, i, a, b, c);
    } else {
      PurgesOnlyGrows(id, items, i, i + 1, a, b);
    }
  }

  datatype PurgeOutcome =
    | Rejected
    | DryRun(previewed: seq<Path>)
    | NothingPurged
    | NotRecorded(record: Record)
    | Recorded(record: Record, candidates: seq<Path>)

  method Preview(disk: Disk, id: string, items: seq<Item>) returns (candidates: seq<Path>)
    requires disk.Valid()
    modifies disk`tick
    ensures forall p | p in candidates :: ToPurge(id, items, |items|, disk.files, p)
    ensures disk.Reliable() ==> forall p | ToPurge(id, items, |items|, disk.files, p) :: p in candidates
  {
    hide PurgeAllowed, ToPurge;
    ghost var a, all := disk.files, disk.Reliable();
    candidates := [];
    ToPurgeStarts(id, items, a);
    for i := 0 to |items|
      invariant Candidates(id, items, i, a, candidates, all)
    {
      hide Candidates;
      if items[i].status == Moved {
        var ok := ValidatePurgeItem(disk, id, items[i]);
        CandidatesNext(id, items, i, a, candidates, all, ok);
        if ok {
          candidates := candidates + [items[i].quarantinePath];
        }
      } else {
        CandidatesNext(id, items, i, a, candidates, all, false);
      }
    }
  }

  /** Removing the manifests of a purged transaction takes no more than those files and, where nothing is left in
      them, their directories. */
  ghost predicate TidiesOnly(items: seq<Item>, a: FS, b: FS) {
    (forall k | k in b :: k in a && b[k] == a[k]) &&
    (forall k | k in a && k !in b ::
       exists i | 0 <= i < |items| :: k == items[i].manifestPath || k == Dir(items[i].manifestPath))
  }

  lemma TidyMore(items: seq<Item>, i: nat, a: FS, b: FS, c: FS)
    requires i < |items| && TidiesOnly(items, a, b)
    requires forall k | k in c :: k in b && c[k] == b[k]
    requires forall k | k in b && k !in c :: k == items[i].manifestPath || k == Dir(items[i].manifestPath)
    ensures TidiesOnly(items, a, c)
  {
  }

  /** Nothing lies below p. */
  ghost predicate Lone(fs: FS, p: Path) {
    forall k | k in fs && p <= k :: k == p
  }

  /** Nothing that is left has lost a directory above it. */
  ghost predicate KeepsParents(a: FS, b: FS) {
    forall k, x | k in b && x in a :: x <= k ==> x in b
  }

  /** What holds while the manifests in todo are still to be removed. */
  ghost predicate Tidying(items: seq<Item>, a: FS, b: FS, todo: set<Path>, reliable: bool) {
    TidiesOnly(items, a, b) && KeepsParents(a, b) &&
    (forall p | p in todo :: exists j | 0 <= j < |items| :: items[j].manifestPath == p) &&
    (reliable ==>
       forall j | 0 <= j < |items| && items[j].manifestPath != [] && items[j].manifestPath !in todo &&
                  Lone(a, items[j].manifestPath) ::
         items[j].manifestPath !in b)
  }

  /** Every manifest that nothing lay below is gone. */
  ghost predicate ManifestsGone(items: seq<Item>, a: FS, b: FS) {
    forall j | 0 <= j < |items| && items[j].manifestPath != [] && Lone(a, items[j].manifestPath) ::
      items[j].manifestPath !in b
  }

  lemma TidyNext(items: seq<Item>, a: FS, b: FS, c: FS, todo: set<Path>, p: Path, reliable: bool)
      returns (i: nat)
    requires Tidying(items, a, b, todo, reliable) && p in todo
    requires RemovesUnder(b, c, p) && (c == b || (c == b - {p} && Lone(b, p)))
    requires reliable && (forall k | k in b && p <= k :: k == p) ==> p !in c
    ensures Tidying(items, a, c, todo - {p}, reliable) && TidiesOnly(items, a, c)
    ensures i < |items| && items[i].manifestPath == p
  {
    hide RemovesUnder;
    i :| 0 <= i < |items| && items[i].manifestPath == p;
    assert forall k | k in c :: k in b && c[k] == b[k];
    TidyMore(items, i, a, b, c);
    ParentsStay(a, b, c, p);
  }

  lemma ParentsStay(a: FS, b: FS, c: FS, p: Path)
    requires KeepsParents(a, b) && (c == b || (c == b - {p} && Lone(b, p)))
    ensures KeepsParents(a, c)
  {
  }

  lemma TidyDirectory(items: seq<Item>, a: FS, b: FS, c: FS, todo: set<Path>, p: Path, reliable: bool,
                      i: nat)
    requires Tidying(items, a, b, todo, reliable)
    requires i < |items| && items[i].manifestPath == p && (c == b || (c == b - {Dir(p)} && Lone(b, Dir(p))))
    ensures Tidying(items, a, c, todo, reliable) && TidiesOnly(items, a, c)
  {
    assert forall k | k in c :: k in b && c[k] == b[k];
    TidyMore(items, i, a, b, c);
    ParentsStay(a, b, c, Dir(p));
  }

  method Tidy(disk: Disk, items: seq<Item>)
    requires disk.Valid()
    modifies disk
    ensures disk.Valid() && old(disk.trace) <= disk.trace
    ensures TidiesOnly(items, old(disk.files), disk.files) && KeepsParents(old(disk.files), disk.files)
    ensures forall t | |old(disk.trace)| <= t < |disk.trace| :: TidiesOnly(items, old(disk.files), disk.trace[t])
    ensures disk.Reliable() ==> ManifestsGone(items, old(disk.files), disk.files)
  {
    hide TidiesOnly, RemovesUnder, Tidying, ManifestsGone, KeepsParents;
    ghost var a, from := disk.files, |disk.trace|;
    var manifestPaths := ManifestsToRemove(items);
    TidyingStarts(items, a, manifestPaths, disk.Reliable());
    while manifestPaths != {}
      invariant disk.Valid() && old(disk.trace) <= disk.trace
      invariant Tidying(items, a, disk.files, manifestPaths, disk.Reliable())
      invariant forall t | from <= t < |disk.trace| :: TidiesOnly(items, a, disk.trace[t])
      decreases |manifestPaths|
    {
      var p :| p in manifestPaths;
      ghost var b, reliable := disk.files, disk.Reliable();
      disk.Remove(p);
      ghost var isManifest := TidyNext(items, a, b, disk.files, manifestPaths, p, reliable);
      b := disk.files;
      disk.Remove(Dir(p));
      TidyDirectory(items, a, b, disk.files, manifestPaths - {p}, p, reliable, isManifest);
      manifestPaths := manifestPaths - {p};
    }
    TidyingEnds(items, a, disk.files, disk.Reliable());
  }

  lemma TidyingStarts(items: seq<Item>, a: FS, todo: set<Path>, reliable: bool)
    requires forall p :: p in todo <==> p != [] && exists j | 0 <= j < |items| :: items[j].manifestPath == p
    ensures Tidying(items, a, a, todo, reliable)
  {
    hide Lone;
  }

  lemma TidyingEnds(items: seq<Item>, a: FS, b: FS, reliable: bool)
    requires Tidying(items, a, b, {}, reliable)
    ensures TidiesOnly(items, a, b) && KeepsParents(a, b) && (reliable ==> ManifestsGone(items, a, b))
  {
    hide Lone;
  }

  method ManifestsToRemove(items: seq<Item>) returns (manifestPaths: set<Path>)
    ensures forall p :: p in manifestPaths <==> p != [] && exists j | 0 <= j < |items| :: items[j].manifestPath == p
  {
    manifestPaths := {};
    for i := 0 to |items|
      invariant forall p :: p in manifestPaths <==> p != [] && exists j | 0 <= j < i :: items[j].manifestPath == p
    {
      if items[i].manifestPath != [] {
        manifestPaths := manifestPaths + {items[i].manifestPath};
      }
    }
  }

  /** What a Purge that got as far as deleting left of the file system it found. */
  ghost predicate Confined(id: string, items: seq<Item>, a: FS, b: FS) {
    (forall k | k in b :: k in a && b[k] == a[k]) &&
    (forall k | k in a && k !in b ::
       InPurgedSlot(id, items, |items|, a, k) ||
       exists i | 0 <= i < |items| :: k == items[i].manifestPath || k == Dir(items[i].manifestPath))
  }

  /** Quarantined, and for long enough. */
  predicate Due(record: Record, quarantineDays: int, now: int) {
    record.status in {Quarantined, PartiallyQuarantined} &&
    record.finishedAt.Some? && record.finishedAt.value <= now - 86400 * quarantineDays
  }

  /** A purge that is cut short at one item records nothing, and that item has lost a node. */
  ghost predicate CutShort(grants: nat -> bool, tick: nat, before: Record, a: FS, b: FS, outcome: PurgeOutcome) {
    forall k | 0 <= k < |before.items| && Exposed(grants, tick, before.id, before.items, a, k) ::
      outcome.NothingPurged? && OneGone(a, b, before.items[k].quarantinePath)
  }

  /** Everything a purge that got as far as deleting guarantees. In state number update it has done its deletions, and
      tries to record them; what it does after that is tidying, and only when it has recorded PURGED. */
  ghost predicate PurgeLeaves(before: Record, outcome: PurgeOutcome, grants: nat -> bool, tick: nat, a: FS, b: FS,
                              trace: seq<FS>, from: nat, update: nat, reliable: bool)
  {
    (outcome.NothingPurged? || outcome.NotRecorded? || outcome.Recorded?) &&
    from <= update + 1 <= |trace| && b == trace[|trace| - 1] &&
    (update + 1 < |trace| ==> outcome.Recorded? && outcome.record.status == AllPurged) &&
    PurgesOnly(before.id, before.items, |before.items|, a, trace[update]) && KeepsParents(trace[update], b) &&
    (forall t | from <= t < update :: PurgesOnly(before.id, before.items, |before.items|, a, trace[t])) &&
    (forall t | update <= t < |trace| :: Confined(before.id, before.items, a, trace[t])) &&
    (outcome.NotRecorded? || outcome.Recorded? ==>
       forall t | update <= t < |trace| :: PurgeRecorded(before, outcome.record, a, trace[t], reliable)) &&
    (outcome.NothingPurged? && reliable ==>
       !Layout(before.items) || forall j | 0 <= j < |before.items| :: !Purgeable(before.id, a, before.items[j])) &&
    (outcome.NothingPurged? && Layout(before.items) ==>
       forall j | 0 <= j < |before.items| && Purgeable(before.id, a, before.items[j]) ::
         !Vacant(b, before.items[j].quarantinePath)) &&
    CutShort(grants, tick, before, a, b, outcome)
  }

  method PurgeNow(disk: Disk, repository: TransactionRepository, before: Record, now: int)
      returns (outcome: PurgeOutcome, ghost update: nat)
    requires disk.Valid()
    modifies disk, repository
    ensures disk.Valid() && old(disk.trace) <= disk.trace
    ensures PurgeLeaves(before, outcome, disk.grants, old(disk.tick), old(disk.files), disk.files, disk.trace,
                        |old(disk.trace)|, update, disk.Reliable())
    ensures outcome.Recorded? ==>
              (forall p | p in outcome.candidates ::
                 ToPurge(before.id, before.items, |before.items|, old(disk.files), p)) &&
              (disk.Reliable() && Layout(before.items) ==>
                 forall p | ToPurge(before.id, before.items, |before.items|, old(disk.files), p) ::
                   p in outcome.candidates)
    ensures outcome.Recorded? && outcome.record.status == AllPurged && disk.Reliable() ==>
              ManifestsGone(before.items, old(disk.files), disk.files)
    ensures outcome.NotRecorded? || outcome.Recorded? ==> outcome.record.finishedAt == Some(now)
    ensures outcome.NotRecorded? || outcome.Recorded? ==>
              repository.tick == old(repository.tick) + 1 &&
              (outcome.Recorded? <==>
                 repository.grants(old(repository.tick)) && outcome.record.id in old(repository.records))
    ensures repository.records ==
              if outcome.Recorded? then old(repository.records)[outcome.record.id := outcome.record]
              else old(repository.records)
  {
    hide PurgeAllowed, PurgeProgress, Confined, TidiesOnly, PurgeRecorded, Vacant, ToPurge, Layout, Purgeable,
         ManifestsGone, Exposed, OneGone, PurgesOnly, KeepsParents, PurgeLeaves;
    ghost var a, from, start := disk.files, |disk.trace|, disk.tick;
    var items, candidates := PurgeItems(disk, before.id, before.items);
    ghost var b, trace := disk.files, disk.trace;
    update := |trace| - 1;
    PurgeIsConfined(before.id, before.items, items, a, b, trace, from, disk.Reliable());
    var purged, remaining := CountItems(items);
    if purged == 0 {
      NothingWasPurgeable(before.id, before.items, items, a, b, trace, from, disk.Reliable());
      outcome := NothingPurged;
      LeavesNoRecord(before, disk.grants, start, a, b, trace, from, disk.Reliable());
      return;
    }
    var status := if remaining == 0 then AllPurged else PartiallyPurged;
    var record := Record(before.id, status, Some(now), items);
    PurgeIsRecorded(before, record, a, b, trace, from, disk.Reliable());
    var ok := repository.Update(record);
    outcome := if ok then Recorded(record, candidates) else NotRecorded(record);
    LeavesRecord(before, outcome, disk.grants, start, a, b, trace, from, disk.Reliable());
    if !ok {
      return;
    }
    if status == AllPurged {
      Tidy(disk, items);
      LeavesAfterTidying(before, outcome, disk.grants, start, a, b, disk.files, trace, disk.trace, from,
                         disk.Reliable());
      if disk.Reliable() {
        GoneSinceTheStart(before.items, items, a, b, disk.files);
      }
    }
  }

  lemma LeavesNoRecord(before: Record, grants: nat -> bool, tick: nat, a: FS, b: FS, trace: seq<FS>, from: nat,
                       reliable: bool)
    requires trace != [] && b == trace[|trace| - 1] && from <= |trace|
    requires PurgesOnly(before.id, before.items, |before.items|, a, b)
    requires forall t | from <= t < |trace| :: PurgesOnly(before.id, before.items, |before.items|, a, trace[t])
    requires reliable && Layout(before.items) ==>
               forall j | 0 <= j < |before.items| :: !Purgeable(before.id, a, before.items[j])
    requires Layout(before.items) ==>
               forall j | 0 <= j < |before.items| && Purgeable(before.id, a, before.items[j]) ::
                 !Vacant(b, before.items[j].quarantinePath)
    requires CutShort(grants, tick, before, a, b, NothingPurged)
    ensures PurgeLeaves(before, NothingPurged, grants, tick, a, b, trace, from, |trace| - 1, reliable)
  {
    hide Confined, PurgesOnly, Purgeable, Layout, Vacant, CutShort, KeepsParents;
    ParentsThere(b);
    PurgesOnlyIsConfined(before.id, before.items, a, b);
  }

  lemma LeavesRecord(before: Record, outcome: PurgeOutcome, grants: nat -> bool, tick: nat, a: FS, b: FS,
                     trace: seq<FS>, from: nat, reliable: bool)
    requires (outcome.Recorded? || outcome.NotRecorded?) && PurgeRecorded(before, outcome.record, a, b, reliable)
    requires trace != [] && b == trace[|trace| - 1] && from <= |trace|
    requires PurgesOnly(before.id, before.items, |before.items|, a, b)
    requires forall t | from <= t < |trace| :: PurgesOnly(before.id, before.items, |before.items|, a, trace[t])
    requires CutShort(grants, tick, before, a, b, outcome)
    ensures PurgeLeaves(before, outcome, grants, tick, a, b, trace, from, |trace| - 1, reliable)
  {
    hide Confined, PurgesOnly, Purgeable, Layout, Vacant, CutShort, KeepsParents, PurgeRecorded;
    ParentsThere(b);
    PurgesOnlyIsConfined(before.id, before.items, a, b);
  }

  lemma LeavesAfterTidying(before: Record, outcome: PurgeOutcome, grants: nat -> bool, tick: nat, a: FS, b: FS, c: FS,
                           trace: seq<FS>, trace': seq<FS>, from: nat, reliable: bool)
    requires outcome.Recorded? && outcome.record.status == AllPurged
    requires trace != [] && PurgeLeaves(before, outcome, grants, tick, a, b, trace, from, |trace| - 1, reliable)
    requires TidiesOnly(outcome.record.items, b, c) && KeepsParents(b, c)
    requires trace <= trace' && c == trace'[|trace'| - 1]
    requires forall t | |trace| <= t < |trace'| :: TidiesOnly(outcome.record.items, b, trace'[t])
    ensures PurgeLeaves(before, outcome, grants, tick, a, c, trace', from, |trace| - 1, reliable)
  {
    hide Confined, PurgesOnly, Purgeable, Layout, Vacant, KeepsParents, PurgeRecorded, TidiesOnly, Exposed, OneGone;
    PurgedPlaces(before, outcome.record, a, b, reliable);
    forall t | |trace| <= t < |trace'|
      ensures Confined(before.id, before.items, a, trace'[t])
      ensures PurgeRecorded(before, outcome.record, a, trace'[t], reliable)
    {
      TidyIsConfined(before.id, before.items, outcome.record.items, a, b, trace'[t]);
      TidyKeepsRecord(before, outcome.record, a, b, trace'[t], reliable);
    }
    assert forall t | 0 <= t < |trace| :: trace'[t] == trace[t];
  }

  lemma PurgedPlaces(before: Record, after: Record, a: FS, b: FS, reliable: bool)
    requires PurgeRecorded(before, after, a, b, reliable)
    ensures SamePlaces(before.items, after.items)
  {
    hide Purgeable, Layout, Vacant;
    forall j | 0 <= j < |before.items|
      ensures SamePlace(before.items[j], after.items[j])
    {
      assert PurgeStep(before.items[j], after.items[j]);
    }
  }

  lemma PurgesOnlyIsConfined(id: string, items: seq<Item>, a: FS, b: FS)
    requires PurgesOnly(id, items, |items|, a, b)
    ensures Confined(id, items, a, b)
  {
    hide InPurgedSlot;
  }

  /** The directory that Move makes for the slots next to a manifest. */
  function ItemsDirectory(item: Item): Path {
    Dir(item.manifestPath) + ["items"]
  }

  /** No purge removes that directory, and so none removes the one around it, tried or not. */
  lemma ItemsDirectoryStays(before: Record, outcome: PurgeOutcome, grants: nat -> bool, tick: nat, a: FS, b: FS,
                            trace: seq<FS>, from: nat, update: nat, reliable: bool, j: nat)
    requires PurgeLeaves(before, outcome, grants, tick, a, b, trace, from, update, reliable) && Layout(before.items)
    requires j < |before.items| && Examined(before.items[j])
    requires forall i | 0 <= i < |before.items| ::
               Dir(before.items[i].manifestPath) != ItemsDirectory(before.items[j])
    requires ItemsDirectory(before.items[j]) in a
    ensures ItemsDirectory(before.items[j]) in b
    ensures Dir(before.items[j].manifestPath) in a ==> Dir(before.items[j].manifestPath) in b
  {
    hide PurgeRecorded, CutShort, PurgesOnly, Vacant, Purgeable, Examined;
    var items, d := before.items, ItemsDirectory(before.items[j]);
    var parent := Dir(items[j].manifestPath);
    assert parent <= d;
    ExaminedIsBelow(items[j]);
    AboveNoSlot(before.id, items, a, j, d);
    AboveNoSlot(before.id, items, a, j, parent);
    assert Confined(before.id, items, a, trace[|trace| - 1]);
    assert parent in a ==> parent in trace[update] by {
      NotInSlotStays(before.id, items, a, trace[update], parent);
    }
  }

  lemma ExaminedIsBelow(item: Item)
    requires Examined(item)
    ensures ProperlyInside(item.quarantinePath, ItemsDirectory(item))
  {
  }

  lemma AboveNoSlot(id: string, items: seq<Item>, a: FS, j: nat, p: Path)
    requires j < |items| && Layout(items) && ProperlyInside(items[j].quarantinePath, ItemsDirectory(items[j]))
    requires p <= ItemsDirectory(items[j])
    ensures !InPurgedSlot(id, items, |items|, a, p)
    ensures p == ItemsDirectory(items[j]) ==> forall i | 0 <= i < |items| :: p != items[i].manifestPath
  {
    hide Purgeable, Temporary;
    ContainmentIsPartialOrder(items[j].quarantinePath, ItemsDirectory(items[j]), p);
    forall i | 0 <= i < |items|
      ensures !(items[i].quarantinePath <= p)
    {
      SlotsOnlyNestThemselves(items, i, j);
      ContainmentIsPartialOrder(items[j].quarantinePath, p, items[i].quarantinePath);
      ContainmentIsPartialOrder(ItemsDirectory(items[j]), p, items[i].quarantinePath);
    }
    forall i | 0 <= i < |items|
      ensures OffLimits(items[j], items[i].manifestPath)
    {
    }
  }

  lemma SlotsOnlyNestThemselves(items: seq<Item>, i: nat, j: nat)
    requires i < |items| && j < |items| && Layout(items)
    ensures i != j ==> !Nested(items[i].quarantinePath, items[j].quarantinePath)
  {
  }

  lemma NotInSlotStays(id: string, items: seq<Item>, a: FS, b: FS, p: Path)
    requires PurgesOnly(id, items, |items|, a, b) && !InPurgedSlot(id, items, |items|, a, p)
    ensures p in a ==> p in b
  {
    hide InPurgedSlot;
  }

  /** With the default placement that is so for every item. */
  lemma PlacedDirectoriesStay(engine: Engine, id: string, created: seq<Item>, before: Record, outcome: PurgeOutcome,
                              grants: nat -> bool, tick: nat, a: FS, b: FS, trace: seq<FS>, from: nat, update: nat,
                              reliable: bool, j: nat)
    requires engine.rootForPath.None? && id != "items" && SamePlaces(engine.PlacedAll(id, created), before.items)
    requires PurgeLeaves(before, outcome, grants, tick, a, b, trace, from, update, reliable) && Layout(before.items)
    requires j < |before.items| && ItemsDirectory(before.items[j]) in a
    ensures ItemsDirectory(before.items[j]) in b
    ensures Dir(before.items[j].manifestPath) in a ==> Dir(before.items[j].manifestPath) in b
  {
    hide PurgeLeaves, Layout;
    forall i | 0 <= i < |created|
      ensures Dir(before.items[i].manifestPath) != ItemsDirectory(before.items[j]) && Examined(before.items[i])
    {
      assert SamePlace(engine.Placed(id, created[i]), before.items[i]);
      assert SamePlace(engine.Placed(id, created[j]), before.items[j]);
      PlacedPaths(engine, id, created[i]);
      var p, q := Dir(before.items[i].manifestPath), ItemsDirectory(before.items[j]);
      assert p[|p| - 1] == id && q[|q| - 1] == "items";
    }
    ItemsDirectoryStays(before, outcome, grants, tick, a, b, trace, from, update, reliable, j);
  }

  lemma PlacedPaths(engine: Engine, id: string, item: Item)
    requires engine.rootForPath.None?
    ensures var placed := engine.Placed(id, item);
            Dir(placed.manifestPath) == Dir(item.originalPath) + [".libra-quarantine", id] && Examined(placed)
  {
    var root := Dir(item.originalPath) + [".libra-quarantine", id];
    var placed := engine.Placed(id, item);
    assert placed.manifestPath == root + ["manifest.json"] && Dir(placed.manifestPath) == root;
    assert placed.quarantinePath == (root + ["items"]) + [engine.slotName(item.id, item.originalPath)];
  }

  method CountItems(items: seq<Item>) returns (purged: nat, remaining: nat)
    ensures purged > 0 <==> exists j | 0 <= j < |items| :: items[j].status == Purged
    ensures remaining == 0 <==> forall j | 0 <= j < |items| :: items[j].status !in {Moved, Failed}
  {
    purged, remaining := 0, 0;
    for i := 0 to |items|
      invariant purged > 0 <==> exists j | 0 <= j < i :: items[j].status == Purged
      invariant remaining == 0 <==> forall j | 0 <= j < i :: items[j].status !in {Moved, Failed}
    {
      if items[i].status == Purged {
        purged := purged + 1;
      } else if items[i].status == Moved || items[i].status == Failed {
        remaining := remaining + 1;
      }
    }
  }

  lemma NothingWasPurgeable(id: string, items: seq<Item>, now: seq<Item>, a: FS, b: FS, trace: seq<FS>, from: nat,
                            reliable: bool)
    requires PurgeProgress(id, items, now, a, b, trace, from, |items|, reliable)
    requires forall j | 0 <= j < |now| :: now[j].status != Purged
    ensures reliable && Layout(items) ==> forall j | 0 <= j < |items| :: !Purgeable(id, a, items[j])
    ensures Layout(items) ==>
              forall j | 0 <= j < |items| && Purgeable(id, a, items[j]) :: !Vacant(b, items[j].quarantinePath)
  {
    hide Purgeable, Layout, PurgesOnly, Vacant;
  }

  method Purge(disk: Disk, repository: TransactionRepository, id: string, quarantineDays: int, execute: bool, now: int)
      returns (outcome: PurgeOutcome, ghost update: nat)
    requires disk.Valid()
    modifies disk, repository
    ensures disk.Valid() && old(disk.trace) <= disk.trace
    ensures (outcome.Rejected? || outcome.DryRun?) ==> disk.files == old(disk.files) && disk.trace == old(disk.trace)
    ensures !execute ==> outcome.Rejected? || outcome.DryRun?
    ensures outcome.Rejected? && repository.Reliable() && id in old(repository.records) ==>
              !Due(old(repository.records[id]), quarantineDays, now)
    ensures !outcome.Rejected? ==>
              id in old(repository.records) && Due(old(repository.records[id]), quarantineDays, now) &&
              (outcome.DryRun? <==> !execute)
    ensures outcome.DryRun? ==>
              var before := old(repository.records[id]);
              (forall p | p in outcome.previewed ::
                 ToPurge(before.id, before.items, |before.items|, disk.files, p)) &&
              (disk.Reliable() ==>
                 forall p | ToPurge(before.id, before.items, |before.items|, disk.files, p) :: p in outcome.previewed)
    ensures outcome.Recorded? ==>
              var before := old(repository.records[id]);
              (forall p | p in outcome.candidates ::
                 ToPurge(before.id, before.items, |before.items|, old(disk.files), p)) &&
              (disk.Reliable() && Layout(before.items) ==>
                 forall p | ToPurge(before.id, before.items, |before.items|, old(disk.files), p) ::
                   p in outcome.candidates)
    ensures !outcome.Rejected? && !outcome.DryRun? ==>
              PurgeLeaves(old(repository.records[id]), outcome, disk.grants, old(disk.tick), old(disk.files),
                          disk.files, disk.trace, |old(disk.trace)|, update, disk.Reliable())
    ensures outcome.Recorded? && outcome.record.status == AllPurged && disk.Reliable() ==>
              ManifestsGone(old(repository.records[id]).items, old(disk.files), disk.files)
    ensures outcome.NotRecorded? && repository.Reliable() ==> outcome.record.id !in old(repository.records)
    ensures outcome.Rejected? <==> !repository.grants(old(repository.tick)) || id !in old(repository.records) ||
                                   !Due(old(repository.records[id]), quarantineDays, now)
    ensures outcome.NotRecorded? || outcome.Recorded? ==> outcome.record.finishedAt == Some(now)
    ensures outcome.NotRecorded? || outcome.Recorded? ==>
              (outcome.Recorded? <==>
                 repository.grants(old(repository.tick) + 1) && outcome.record.id in old(repository.records))
    ensures repository.records ==
              if outcome.Recorded? then old(repository.records)[outcome.record.id := outcome.record]
              else old(repository.records)
  {
    hide Confined, PurgeRecorded, CutShort, Purgeable, ToPurge, Layout, ManifestsGone;
    var found := repository.FindByID(id);
    update := 0;
    if found.None? {
      outcome := Rejected;
      return;
    }
    var before := found.value;
    if before.status != Quarantined && before.status != PartiallyQuarantined {
      outcome := Rejected;
      return;
    }
    if before.finishedAt.None? || before.finishedAt.value > now - 86400 * quarantineDays {
      outcome := Rejected;
      return;
    }
    if !execute {
      var previewed := Preview(disk, before.id, before.items);
      outcome := DryRun(previewed);
      return;
    }
    outcome, update := PurgeNow(disk, repository, before, now);
  }

  /** The record a purge writes, against the one it found and the disk before and after. */
  ghost predicate PurgeRecorded(before: Record, after: Record, a: FS, b: FS, reliable: bool) {
    after.id == before.id && |after.items| == |before.items| && after.finishedAt.Some? &&
    after.status in {AllPurged, PartiallyPurged} &&
    (forall j | 0 <= j < |before.items| :: PurgeStep(before.items[j], after.items[j])) &&
    (exists j | 0 <= j < |before.items| :: after.items[j].status == Purged) &&
    (after.status == AllPurged <==> forall j | 0 <= j < |after.items| :: after.items[j].status !in {Moved, Failed}) &&
    (forall j | 0 <= j < |after.items| && before.items[j].status == Moved && after.items[j].status == Purged ::
       Purgeable(before.id, a, before.items[j]) && Vacant(b, before.items[j].quarantinePath)) &&
    (reliable && Layout(before.items) ==>
       forall j | 0 <= j < |before.items| && Purgeable(before.id, a, before.items[j]) ::
         after.items[j].status == Purged) &&
    (Layout(before.items) ==> PurgedMeansGone(before.id, before.items, after.items, |before.items|, a, b))
  }

  lemma PurgeIsConfined(id: string, items: seq<Item>, now: seq<Item>, a: FS, b: FS, trace: seq<FS>, from: nat,
                        reliable: bool)
    requires PurgeProgress(id, items, now, a, b, trace, from, |items|, reliable)
    ensures PurgesOnly(id, items, |items|, a, b) && Confined(id, items, a, b)
    ensures forall t | from <= t < |trace| :: PurgesOnly(id, items, |items|, a, trace[t])
    ensures |now| == |items| && SamePlaces(items, now)
    ensures forall k | k in b :: k in a
  {
    hide PurgeAllowed, Layout, Vacant;
    assert forall j | 0 <= j < |items| :: PurgeStep(items[j], now[j]);
  }

  lemma PurgeIsRecorded(before: Record, after: Record, a: FS, b: FS, trace: seq<FS>, from: nat, reliable: bool)
    requires PurgeProgress(before.id, before.items, after.items, a, b, trace, from, |before.items|, reliable)
    requires after.id == before.id && after.finishedAt.Some?
    requires exists j | 0 <= j < |after.items| :: after.items[j].status == Purged
    requires after.status ==
               if forall j | 0 <= j < |after.items| :: after.items[j].status !in {Moved, Failed} then AllPurged
               else PartiallyPurged
    ensures PurgeRecorded(before, after, a, b, reliable)
  {
    hide PurgeAllowed, Layout, Vacant, PurgesOnly;
  }

  lemma TidyIsConfined(id: string, items: seq<Item>, now: seq<Item>, a: FS, b: FS, c: FS)
    requires SamePlaces(items, now) && Confined(id, items, a, b) && TidiesOnly(now, b, c)
    ensures Confined(id, items, a, c)
  {
    hide PurgeAllowed;
    forall k | k in a && k !in c
      ensures InPurgedSlot(id, items, |items|, a, k) ||
              exists i | 0 <= i < |items| :: k == items[i].manifestPath || k == Dir(items[i].manifestPath)
    {
      if k in b {
        var i :| 0 <= i < |now| && (k == now[i].manifestPath || k == Dir(now[i].manifestPath));
        assert SamePlace(items[i], now[i]);
        assert k == items[i].manifestPath || k == Dir(items[i].manifestPath);
      }
    }
  }

  lemma GoneSinceTheStart(items: seq<Item>, now: seq<Item>, a: FS, b: FS, c: FS)
    requires SamePlaces(items, now) && forall k | k in b :: k in a
    requires ManifestsGone(now, b, c)
    ensures ManifestsGone(items, a, c)
  {
    forall j | 0 <= j < |items| && items[j].manifestPath != [] && Lone(a, items[j].manifestPath)
      ensures items[j].manifestPath !in c
    {
      assert SamePlace(items[j], now[j]) && Lone(b, now[j].manifestPath);
    }
  }

  lemma ParentsThere(a: FS)
    ensures KeepsParents(a, a)
  {
  }

  lemma TidyKeepsRecord(before: Record, after: Record, a: FS, b: FS, c: FS, reliable: bool)
    requires PurgeRecorded(before, after, a, b, reliable) && TidiesOnly(after.items, b, c) && after.status == AllPurged
    ensures PurgeRecorded(before, after, a, c, reliable)
  {
    hide PurgeAllowed, Layout;
  }

  /** Where a purge may take something away: below a tree that was purgeable, and at manifests. All else stays. */
  lemma ConfinedKeepsTree(id: string, items: seq<Item>, a: FS, b: FS, r: Path)
    requires Confined(id, items, a, b)
    requires forall i | 0 <= i < |items| :: !(r <= items[i].manifestPath) && !(r <= Dir(items[i].manifestPath))
    requires forall i | 0 <= i < |items| && Purgeable(id, a, items[i]) :: !Nested(items[i].quarantinePath, r)
    ensures TreeAt(a, r) == TreeAt(b, r)
    ensures Vacant(a, r) <==> Vacant(b, r)
  {
    hide Purgeable;
    forall k | r <= k
      ensures SameAt(a, b, k)
    {
      forall i | 0 <= i < |items|
        ensures k != items[i].manifestPath && k != Dir(items[i].manifestPath)
        ensures Purgeable(id, a, items[i]) ==> !(items[i].quarantinePath <= k)
      {
        if Purgeable(id, a, items[i]) {
          NothingInCommon(r, items[i].quarantinePath, k);
        }
      }
      assert !InPurgedSlot(id, items, |items|, a, k);
    }
    SameTree(a, b, r);
  }

  lemma PlacesAboveNoManifest(items: seq<Item>, j: nat)
    requires j < |items| && Layout(items)
    ensures forall i | 0 <= i < |items| ::
              !(items[j].originalPath <= items[i].manifestPath) &&
              !(items[j].quarantinePath <= items[i].manifestPath) &&
              !(items[j].originalPath <= Dir(items[i].manifestPath)) &&
              !(items[j].quarantinePath <= Dir(items[i].manifestPath))
  {
    hide Temporary;
    forall i | 0 <= i < |items|
      ensures OffLimits(items[j], items[i].manifestPath)
    {
    }
  }

  /** Whatever fails, a purge leaves the tree at the original path of every item alone, MOVED or not ... */
  lemma PurgeKeepsOriginals(id: string, items: seq<Item>, a: FS, b: FS, j: nat)
    requires j < |items| && Layout(items) && Confined(id, items, a, b)
    ensures TreeAt(b, items[j].originalPath) == TreeAt(a, items[j].originalPath)
    ensures Vacant(a, items[j].originalPath) <==> Vacant(b, items[j].originalPath)
  {
    PlacesAboveNoManifest(items, j);
    forall i | 0 <= i < |items|
      ensures !Nested(items[i].quarantinePath, items[j].originalPath)
    {
      assert !Nested(items[j].originalPath, items[i].quarantinePath);
    }
    hide Layout, Confined;
    ConfinedKeepsTree(id, items, a, b, items[j].originalPath);
  }

  /** ... and all of every item that was not purgeable when it began. */
  lemma PurgeKeepsOthers(id: string, items: seq<Item>, a: FS, b: FS, j: nat)
    requires j < |items| && !Purgeable(id, a, items[j]) && Layout(items) && Confined(id, items, a, b)
    ensures Undisturbed(a, b, items[j])
  {
    PlacesAboveNoManifest(items, j);
    forall i | 0 <= i < |items| && Purgeable(id, a, items[i])
      ensures !Nested(items[i].quarantinePath, items[j].quarantinePath)
    {
      assert i != j;
    }
    PurgeKeepsOriginals(id, items, a, b, j);
    hide Layout, Confined, Purgeable;
    ConfinedKeepsTree(id, items, a, b, items[j].quarantinePath);
  }

  /** A slot only ever loses. */
  lemma PurgeOnlyTakes(id: string, items: seq<Item>, a: FS, b: FS, r: Path)
    requires Confined(id, items, a, b)
    ensures forall s | s in TreeAt(b, r) :: s in TreeAt(a, r) && TreeAt(b, r)[s] == TreeAt(a, r)[s]
    ensures Vacant(a, r) ==> Vacant(b, r)
  {
    hide InPurgedSlot;
  }

  /** When nothing fails, what was purgeable is PURGED and gone, and nothing else is touched. */
  lemma ReliablePurgeIsClean(before: Record, after: Record, a: FS, b: FS, j: nat)
    requires PurgeRecorded(before, after, a, b, true) && Confined(before.id, before.items, a, b)
    requires j < |before.items| && Layout(before.items)
    ensures if Purgeable(before.id, a, before.items[j])
            then after.items[j].status == Purged && Vacant(b, before.items[j].quarantinePath)
            else
              Undisturbed(a, b, before.items[j]) &&
              (before.items[j].status == Moved ==> after.items[j].status == Failed)
  {
    hide Layout, Confined;
    assert PurgeStep(before.items[j], after.items[j]);
    if !Purgeable(before.id, a, before.items[j]) {
      PurgeKeepsOthers(before.id, before.items, a, b, j);
    }
    hide PurgeAllowed, Undisturbed, Vacant;
  }
}

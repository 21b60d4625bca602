/** What a purge can do without any record of it: internal/app/purge_service.go returns before Update when no item was
    deleted completely, and loses its outcome when Update fails. */
module UnrecordedPurge {
  import opened Wrappers
  import opened Paths
  import opened Transactions
  import opened FileTree
  import opened Disks
  import opened QuarantineSpec
  import opened QuarantineEngine
  import opened Repository
  import opened CleanupService
  import opened PurgeService

  /** An environment that refuses nothing, and one for the repository that refuses its third call, the Update of a purge
      that follows a Create. */
  const ALL_GO: nat -> bool := n => true
  const THIRD_FAILS: nat -> bool := n => n != 2

  // What can be lost.

  /** Whatever the environments of disk and repository do, a purge leaves every item alone that is not purgeable when it
      begins ... */
  method NoPurgeHurtsMore(disk: Disk, repository: TransactionRepository, record: Record, quarantineDays: int,
                          execute: bool, now: int)
    requires disk.Valid() && record.id in repository.records && repository.records[record.id] == record
    requires Layout(record.items)
    modifies disk, repository
    ensures forall k | 0 <= k < |record.items| && !Purgeable(record.id, old(disk.files), record.items[k]) ::
              Undisturbed(old(disk.files), disk.files, record.items[k])
  {
    ghost var files, items := disk.files, record.items;
    hide Confined, PurgeRecorded, Purgeable, Layout, CutShort, Undisturbed, ToPurge, ManifestsGone;
    var outcome, update := Purge(disk, repository, record.id, quarantineDays, execute, now);
    forall k | 0 <= k < |items| && !Purgeable(record.id, files, items[k])
      ensures Undisturbed(files, disk.files, items[k])
    {
      if outcome.Rejected? || outcome.DryRun? {
        StillUndisturbed(files, items[k]);
      } else {
        PurgeKeepsOthers(record.id, items, files, disk.files, k);
      }
    }
  }

  lemma StillUndisturbed(files: FS, item: Item)
    ensures Undisturbed(files, files, item)
  {
  }

  /** ... and under one environment every purge that is due takes all purgeable trees while the stored record stays
      as it was: nothing is refused but the Update. So an item can be hurt without record exactly when it is
      purgeable. */
  method LostWithoutRecord(record: Record, files: FS, quarantineDays: int, now: int)
      returns (disk: Disk, repository: TransactionRepository)
    requires Due(record, quarantineDays, now) && Layout(record.items)
    ensures repository.records == map[record.id := record]
    ensures forall k | 0 <= k < |record.items| ::
              if Purgeable(record.id, files, record.items[k])
              then record.items[k].quarantinePath in files && Vacant(disk.files, record.items[k].quarantinePath)
              else Undisturbed(files, disk.files, record.items[k])
  {
    ghost var items := record.items;
    hide Confined, PurgeRecorded, Purgeable, Layout, CutShort, Undisturbed, ToPurge, ManifestsGone, Vacant;
    repository := new TransactionRepository(THIRD_FAILS);
    var created := repository.Create(record);
    disk := new Disk(files, ALL_GO);
    AllGo(disk);
    var outcome, update := Purge(disk, repository, record.id, quarantineDays, true, now);
    forall k | 0 <= k < |items|
      ensures if Purgeable(record.id, files, items[k])
              then items[k].quarantinePath in files && Vacant(disk.files, items[k].quarantinePath)
              else Undisturbed(files, disk.files, items[k])
    {
      if Purgeable(record.id, files, items[k]) {
        PurgeableTells(record.id, files, items[k]);
        WhatIsGone(record, outcome, disk.grants, 0, files, disk.files, disk.trace, 1, update, k);
      } else {
        PurgeKeepsOthers(record.id, items, files, disk.files, k);
      }
    }
  }

  lemma WhatIsGone(record: Record, outcome: PurgeOutcome, grants: nat -> bool, tick: nat, a: FS, b: FS, trace: seq<FS>,
                   from: nat, update: nat, k: nat)
    requires PurgeLeaves(record, outcome, grants, tick, a, b, trace, from, update, true) && Layout(record.items)
    requires k < |record.items| && Purgeable(record.id, a, record.items[k])
    ensures Vacant(b, record.items[k].quarantinePath)
  {
    hide Confined, Purgeable, Layout, CutShort, Vacant;
  }

  lemma PurgeableTells(id: string, files: FS, item: Item)
    requires Purgeable(id, files, item)
    ensures item.status == Moved && item.quarantinePath in files
  {
  }

  lemma AllGo(disk: Disk)
    requires disk.grants == ALL_GO
    ensures disk.Reliable()
  {
  }

  // What can be damaged, and come back as if nothing had happened.

  /** Item k is waiting for a purge with a tree of several nodes, and a Restore could bring it back. */
  ghost predicate Endangered(record: Record, files: FS, quarantineDays: int, now: int, k: nat)
    requires k < |record.items|
  {
    Due(record, quarantineDays, now) && Layout(record.items) && Passable(record.items, files) &&
    (forall j | 0 <= j < |record.items| :: record.items[j].status != Purged) &&
    Purgeable(record.id, files, record.items[k]) && Branches(files, record.items[k].quarantinePath) &&
    Vacant(files, record.items[k].originalPath)
  }

  /** An environment that lets just the n-th call and the two after it go ahead. */
  function OnlyThree(n: nat): nat -> bool {
    m => n <= m <= n + 2
  }

  lemma OnlyThreeSingles(n: nat)
    ensures Singled(OnlyThree(n), 0, n)
  {
  }

  /** Every such item can be damaged without record, whatever the other items are: its examination and one deletion go
      ahead, the purge gives up, and the record stays as it was ... */
  method PurgeGivesUp(repository: TransactionRepository, record: Record, files: FS, quarantineDays: int, now: int,
                      k: nat) returns (disk: Disk, ghost lost: Path)
    requires repository.Reliable() && record.id in repository.records && repository.records[record.id] == record
    requires k < |record.items| && Endangered(record, files, quarantineDays, now, k)
    modifies repository
    ensures repository.records == old(repository.records)
    ensures disk.files == files - {lost} && lost in files && ProperlyInside(lost, record.items[k].quarantinePath)
  {
    hide *;
    disk := new Disk(files, OnlyThree(Examinations(record.items, k)));
    EndangeredIsExposed(record, files, quarantineDays, now, k);
    Reliably(repository);
    var outcome, update := Purge(disk, repository, record.id, quarantineDays, true, now);
    lost := OneIsLost(record, outcome, disk.grants, files, disk.files, disk.trace, 1, update, disk.Reliable(), k);
  }

  lemma Reliably(repository: TransactionRepository)
    requires repository.Reliable()
    ensures forall n: nat :: repository.grants(n)
  {
  }

  lemma EndangeredIsExposed(record: Record, files: FS, quarantineDays: int, now: int, k: nat)
    requires k < |record.items| && Endangered(record, files, quarantineDays, now, k)
    ensures Due(record, quarantineDays, now) && Layout(record.items) && Passable(record.items, files)
    ensures Exposed(OnlyThree(Examinations(record.items, k)), 0, record.id, record.items, files, k)
  {
    OnlyThreeSingles(Examinations(record.items, k));
  }

  lemma OneIsLost(record: Record, outcome: PurgeOutcome, grants: nat -> bool, a: FS, b: FS, trace: seq<FS>, from: nat,
                  update: nat, reliable: bool, k: nat) returns (lost: Path)
    requires PurgeLeaves(record, outcome, grants, 0, a, b, trace, from, update, reliable) && k < |record.items|
    requires Exposed(grants, 0, record.id, record.items, a, k)
    ensures outcome.NothingPurged?
    ensures lost in a && ProperlyInside(lost, record.items[k].quarantinePath) && b == a - {lost}
  {
    hide Confined, Purgeable, Exposed, Layout;
    assert OneGone(a, b, record.items[k].quarantinePath);
    lost :| lost in a && record.items[k].quarantinePath < lost && b == a - {lost};
  }

  /** ... and a later Restore, refused nothing, brings the damaged tree back and calls the item RESTORED. */
  method DamagedTreeComesBack(record: Record, files: FS, quarantineDays: int, now: int, k: nat)
      returns (disk: Disk, repository: TransactionRepository, ghost lost: Path)
    requires k < |record.items| && Endangered(record, files, quarantineDays, now, k)
    ensures record.id in repository.records && |repository.records[record.id].items| == |record.items|
    ensures repository.records[record.id].items[k].status == Restored
    ensures lost in files && ProperlyInside(lost, record.items[k].quarantinePath)
    ensures forall s :: record.items[k].originalPath + s in disk.files <==>
              record.items[k].quarantinePath + s in files && record.items[k].quarantinePath + s != lost
  {
    EndangeredTells(record, files, quarantineDays, now, k);
    hide *;
    repository := new TransactionRepository(ALL_GO);
    EverythingGoes(repository);
    var created := repository.Create(record);
    var failing;
    failing, lost := PurgeGivesUp(repository, record, files, quarantineDays, now, k);
    disk := new Disk(failing.files, ALL_GO);
    AllGo(disk);
    ghost var damaged, n := disk.files, |disk.trace|;
    var second := CleanupService.Restore(disk, repository, record.id, now, files);
    ComesBack(record.items, second.record.items, files, damaged, disk.files, disk.trace, n, lost, k);
  }

  lemma EverythingGoes(repository: TransactionRepository)
    requires repository.grants == ALL_GO
    ensures repository.Reliable()
  {
  }

  lemma EndangeredTells(record: Record, files: FS, quarantineDays: int, now: int, k: nat)
    requires k < |record.items| && Endangered(record, files, quarantineDays, now, k)
    ensures record.items[k].status == Moved && record.items[k].quarantinePath in files
    ensures Vacant(files, record.items[k].originalPath) && Layout(record.items) && Passable(record.items, files)
  {
  }

  lemma ComesBack(items: seq<Item>, now: seq<Item>, a: FS, f: FS, f': FS, trace: seq<FS>, n: nat, lost: Path, k: nat)
    requires RestoreProgress(items, now, f, f', trace, n, |items|, true) && Layout(items) && Passable(items, a)
    requires k < |items| && items[k].status == Moved && items[k].quarantinePath in a && Vacant(a, items[k].originalPath)
    requires f == a - {lost} && ProperlyInside(lost, items[k].quarantinePath)
    ensures |now| == |items| && now[k].status == Restored
    ensures forall s :: items[k].originalPath + s in f' <==>
              items[k].quarantinePath + s in a && items[k].quarantinePath + s != lost
  {
    hide *;
    StillPassable(items, a, f);
    VacantWithout(a, lost, items[k].originalPath);
    NotItself(lost, items[k].quarantinePath);
    WholeSlotMoves(items, now, f, f', trace, n, k);
  }

  lemma NotItself(p: Path, q: Path)
    requires ProperlyInside(p, q)
    ensures p != q
  {
  }

  lemma WholeSlotMoves(items: seq<Item>, now: seq<Item>, f: FS, f': FS, trace: seq<FS>, n: nat, k: nat)
    requires RestoreProgress(items, now, f, f', trace, n, |items|, true) && Layout(items) && Passable(items, f)
    requires k < |items| && items[k].status == Moved && items[k].quarantinePath in f && Vacant(f, items[k].originalPath)
    ensures |now| == |items| && now[k].status == Restored
    ensures forall s :: items[k].originalPath + s in f' <==> items[k].quarantinePath + s in f
  {
    hide Layout, Passable, Changes, ChangesTrace, OnlyDirs, NothingToRestore, RelocatedTrace, EmptyStays, Vacant;
    assert AllBack(items, now, f, |items|);
    assert k in ReachOf(items, now, false).done;
    assert BroughtBack(f, f', items[k]);
    SameNames(f, f', items[k]);
  }

  lemma SameNames(a: FS, b: FS, item: Item)
    requires BroughtBack(a, b, item)
    ensures forall s :: item.originalPath + s in b <==> item.quarantinePath + s in a
  {
    forall s
      ensures item.originalPath + s in b <==> item.quarantinePath + s in a
    {
      assert s in TreeAt(b, item.originalPath) <==> s in TreeAt(a, item.quarantinePath);
    }
  }

  lemma VacantWithout(a: FS, lost: Path, p: Path)
    requires Vacant(a, p)
    ensures Vacant(a - {lost}, p)
  {
  }

  lemma StillPassable(items: seq<Item>, a: FS, b: FS)
    requires Passable(items, a) && forall k | k in b :: k in a && b[k] == a[k]
    ensures Passable(items, b)
  {
  }

  const HOME: Path := ["home"]
  const ROOT: Path := HOME + [".libra-quarantine", "t"]
  const SLOT: Path := ROOT + ["items", "x"]
  const ITEM := Item("t:i", HOME + ["modules"], SLOT, ROOT + ["manifest.json"], Moved)
  const RECORD := Record("t", Quarantined, Some(0), [ITEM])
  const TWO_FILES: FS :=
    map[HOME := Directory, HOME + [".libra-quarantine"] := Directory, ROOT := Directory, ROOT + ["items"] := Directory,
        ROOT + ["manifest.json"] := File(ManifestData(Manifest(MANIFEST_VERSION, "t", [ITEM]))),
        SLOT := Directory, SLOT + ["a"] := File(Bytes(1)), SLOT + ["b"] := File(Bytes(2))]

  /** Such an item exists: a directory with two files. */
  method TwoFiles() returns (disk: Disk, repository: TransactionRepository, ghost lost: Path)
    ensures "t" in repository.records && |repository.records["t"].items| == 1
    ensures repository.records["t"].items[0].status == Restored
    ensures lost in TWO_FILES && SLOT < lost
    ensures forall s :: ITEM.originalPath + s in disk.files <==> SLOT + s in TWO_FILES && SLOT + s != lost
  {
    TwoFilesAreEndangered();
    disk, repository, lost := DamagedTreeComesBack(RECORD, TWO_FILES, 0, 0, 0);
  }

  lemma TwoFilesAreEndangered()
    ensures Endangered(RECORD, TWO_FILES, 0, 0, 0)
  {
    OneItemLayout();
    TwoFilesPassable();
    TwoFilesPurgeable();
    TwoFilesAreSeveral();
    hide Layout, Passable, Purgeable, Branches, Vacant;
  }

  lemma TwoFilesPurgeable()
    ensures Purgeable("t", TWO_FILES, ITEM)
  {
    assert Dir(ITEM.manifestPath) == ROOT && SLOT == (ROOT + ["items"]) + ["x"];
    assert TWO_FILES[ITEM.manifestPath].data.manifest.items[0] == ITEM;
  }

  lemma TwoFilesAreSeveral()
    ensures Branches(TWO_FILES, SLOT) && Vacant(TWO_FILES, ITEM.originalPath)
  {
    assert SLOT + ["a"] in TWO_FILES && SLOT < SLOT + ["a"];
    assert forall k | k in TWO_FILES && |k| >= 2 :: k[1] == ".libra-quarantine";
  }

  lemma OneItemLayout()
    ensures Layout([ITEM])
  {
    var m := ITEM.manifestPath;
    assert Temporary(m) == ROOT + ["manifest.json.tmp"] by {
      assert m[..|m| - 1] == ROOT && m[|m| - 1] == "manifest.json" && "manifest.json" + ".tmp" == "manifest.json.tmp";
    }
    var t := Temporary(m);
    hide Temporary;
    DifferAt(ITEM.originalPath, SLOT, 1);
    DifferAt(ITEM.originalPath, m, 1);
    DifferAt(ITEM.originalPath, t, 1);
    DifferAt(SLOT, m, 3);
    DifferAt(SLOT, t, 3);
    assert m != t;
    hide Nested;
  }

  lemma DifferAt(a: Path, b: Path, n: nat)
    requires n < |a| && n < |b| && a[n] != b[n]
    ensures !Nested(a, b)
  {
  }

  lemma TwoFilesPassable()
    ensures Passable([ITEM], TWO_FILES)
  {
    var d := ROOT + ["items"];
    assert Dir(ITEM.originalPath) == HOME && Dir(SLOT) == d;
    forall k | k in TWO_FILES && k <= d
      ensures TWO_FILES[k].Directory?
    {
      DifferAt(ITEM.manifestPath, d, 3);
      assert k != ITEM.manifestPath && |k| <= 4;
    }
    assert HOME <= d;
    forall k | k in TWO_FILES && k <= HOME
      ensures k <= d
    {
      ContainmentIsPartialOrder(d, HOME, k);
    }
  }
}

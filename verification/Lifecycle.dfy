/** The recorded life of a transaction, over any sequence of Restore and Purge after its Execute. */
module Lifecycle {
  import opened Transactions
  import opened FileTree
  import opened Disks
  import opened QuarantineSpec
  import opened QuarantineEngine
  import opened Repository
  import opened CleanupService
  import opened RoundTrip
  import opened PurgeService

  datatype Operation = RestoreOp | PurgeOp

  ghost predicate ExecuteRecords(record: Record) {
    (forall k | 0 <= k < |record.items| :: record.items[k].status in {Moved, Failed, Skipped}) &&
    Finishes(record.items, false, record.status)
  }

  ghost predicate RestoreRecords(a: Record, b: Record) {
    a.id == b.id && |a.items| == |b.items| &&
    (forall k | 0 <= k < |a.items| :: RestoreStep(a.items[k], b.items[k])) &&
    Finishes(b.items, true, b.status)
  }

  ghost predicate PurgeRecords(a: Record, b: Record) {
    a.id == b.id && |a.items| == |b.items| &&
    a.status in {Quarantined, PartiallyQuarantined} && b.status in {AllPurged, PartiallyPurged} &&
    forall k | 0 <= k < |a.items| :: PurgeStep(a.items[k], b.items[k])
  }

  // The three relations are what the three services record.

  lemma ExecuteDoesRecord(id: string, fs0: FS, fs: FS, items: seq<Item>, record: Record)
    requires Executed(id, fs0, fs, items, record)
    requires forall k | 0 <= k < |items| :: items[k].status in {Pending, Skipped}
    ensures ExecuteRecords(record)
  {
    hide Safe, Changes, TruthfulAfterMove, Finishes;
    forall k | 0 <= k < |items|
      ensures record.items[k].status in {Moved, Failed, Skipped}
    {
      assert MoveStep(items[k], record.items[k]);
    }
  }

  lemma RestoreDoesRecord(a: Record, b: Record, f: FS, f': FS, trace: seq<FS>, n: nat, reliable: bool)
    requires RestoreProgress(a.items, b.items, f, f', trace, n, |a.items|, reliable) && a.id == b.id
    requires Finishes(b.items, true, b.status)
    ensures RestoreRecords(a, b)
  {
    hide Changes, ChangesTrace, NothingToRestore, Finishes, Layout, OnlyDirs, ReachOf;
  }

  lemma PurgeDoesRecord(a: Record, b: Record, f: FS, f': FS, reliable: bool)
    requires PurgeRecorded(a, b, f, f', reliable) && a.status in {Quarantined, PartiallyQuarantined}
    ensures PurgeRecords(a, b)
  {
  }

  /** h[0] is what Execute recorded; operation i turned record i into record i + 1. */
  ghost predicate History(h: seq<Record>, ops: seq<Operation>) {
    |h| == |ops| + 1 && ExecuteRecords(h[0]) &&
    forall i | 0 <= i < |ops| ::
      if ops[i].RestoreOp? then RestoreRecords(h[i], h[i + 1]) else PurgeRecords(h[i], h[i + 1])
  }

  lemma {:induction false} SameItemsThroughout(h: seq<Record>, ops: seq<Operation>, i: nat, j: nat)
    requires History(h, ops) && i <= j < |h|
    ensures SamePlaces(h[i].items, h[j].items)
  {
    if i < j {
      SameItemsThroughout(h, ops, i, j - 1);
      assert if ops[j - 1].RestoreOp? then RestoreRecords(h[j - 1], h[j]) else PurgeRecords(h[j - 1], h[j]);
      forall k | 0 <= k < |h[j].items|
        ensures SamePlace(h[i].items[k], h[j].items[k])
      {
        assert RestoreStep(h[j - 1].items[k], h[j].items[k]) || PurgeStep(h[j - 1].items[k], h[j].items[k]);
        assert SamePlace(h[i].items[k], h[j - 1].items[k]);
      }
    }
  }

  /** RESTORED, PURGED and FAILED are for good; MOVED never comes back, and PENDING never occurs. */
  lemma {:induction false} TerminalStatuses(h: seq<Record>, ops: seq<Operation>, i: nat, j: nat, k: nat)
    requires History(h, ops) && i <= j < |h| && k < |h[0].items|
    ensures |h[i].items| == |h[j].items| == |h[0].items|
    ensures h[i].items[k].status in {Restored, Purged, Failed} ==> h[j].items[k].status == h[i].items[k].status
    ensures h[i].items[k].status != Moved ==> h[j].items[k].status != Moved
    ensures h[j].items[k].status != Pending
    ensures h[i].items[k].status == Skipped ==> h[j].items[k].status in {Skipped, Restored, Failed}
    decreases j
  {
    SameItemsThroughout(h, ops, 0, i);
    SameItemsThroughout(h, ops, i, j);
    if i < j {
      TerminalStatuses(h, ops, i, j - 1, k);
      SameItemsThroughout(h, ops, 0, j - 1);
      assert RestoreStep(h[j - 1].items[k], h[j].items[k]) || PurgeStep(h[j - 1].items[k], h[j].items[k]);
    } else if j > 0 {
      TerminalStatuses(h, ops, 0, j - 1, k);
      assert RestoreStep(h[j - 1].items[k], h[j].items[k]) || PurgeStep(h[j - 1].items[k], h[j].items[k]);
    }
  }

  lemma NoLongerQuarantined(h: seq<Record>, ops: seq<Operation>, i: nat)
    requires History(h, ops) && 0 < i < |h|
    ensures h[i].status !in {Quarantined, PartiallyQuarantined}
  {
    assert if ops[i - 1].RestoreOp? then RestoreRecords(h[i - 1], h[i]) else PurgeRecords(h[i - 1], h[i]);
  }

  /** A purge is recorded, if ever, right after Execute: neither a restored nor a purged transaction can be purged. */
  lemma PurgeComesFirst(h: seq<Record>, ops: seq<Operation>, i: nat)
    requires History(h, ops) && i < |ops| && ops[i] == PurgeOp
    ensures i == 0
  {
    assert PurgeRecords(h[i], h[i + 1]);
    if i > 0 {
      NoLongerQuarantined(h, ops, i);
    }
  }

  /** How far a transaction has got. */
  function Rank(status: TransactionStatus): nat {
    match status
    case Running => 0
    case Quarantined => 1
    case PartiallyQuarantined => 1
    case AllPurged => 2
    case PartiallyPurged => 2
    case TransactionFailed => 3
    case PartiallyRestored => 4
    case AllRestored => 5
  }

  lemma StatusAdvances(a: Record, b: Record, op: Operation)
    requires if op.RestoreOp? then RestoreRecords(a, b) else PurgeRecords(a, b)
    requires a.status == PartiallyRestored ==> exists k | 0 <= k < |a.items| :: a.items[k].status == Restored
    requires a.status == AllRestored ==> a.items != [] && forall k | 0 <= k < |a.items| :: a.items[k].status == Restored
    ensures Rank(a.status) < Rank(b.status) ||
            (a.status == b.status && a.status in {TransactionFailed, PartiallyRestored, AllRestored})
  {
    if op.RestoreOp? {
      forall k | 0 <= k < |a.items| && a.items[k].status == Restored
        ensures b.items[k].status == Restored
      {
        assert RestoreStep(a.items[k], b.items[k]);
      }
      if a.status == PartiallyRestored {
        var k :| 0 <= k < |a.items| && a.items[k].status == Restored;
        assert b.items[k].status == Restored;
      } else if a.status == AllRestored {
        assert b.items[0].status == Restored;
      }
    }
  }

  /** The recorded status of a transaction only moves on, from quarantined over purged and FAILED to restored: those
      of a quarantined or purged transaction last until the next recorded operation, and RESTORED is for good. */
  lemma {:induction false} StatusOnlyAdvances(h: seq<Record>, ops: seq<Operation>, i: nat, j: nat)
    requires History(h, ops) && i < j < |h|
    ensures Rank(h[i].status) < Rank(h[j].status) ||
            (h[i].status == h[j].status && h[i].status in {TransactionFailed, PartiallyRestored, AllRestored})
    decreases j
  {
    hide RestoreRecords, PurgeRecords, ExecuteRecords;
    if i < j - 1 {
      StatusOnlyAdvances(h, ops, i, j - 1);
    }
    StatusMeans(h, ops, j - 1);
    StatusAdvances(h[j - 1], h[j], ops[j - 1]);
  }

  lemma StatusMeans(h: seq<Record>, ops: seq<Operation>, i: nat)
    requires History(h, ops) && i < |h|
    ensures h[i].status == PartiallyRestored ==> exists k | 0 <= k < |h[i].items| :: h[i].items[k].status == Restored
    ensures h[i].status == AllRestored ==>
              h[i].items != [] && forall k | 0 <= k < |h[i].items| :: h[i].items[k].status == Restored
  {
    if i > 0 {
      assert if ops[i - 1].RestoreOp? then RestoreRecords(h[i - 1], h[i]) else PurgeRecords(h[i - 1], h[i]);
    }
  }

  // A purge right after Execute.

  const DAY := 86400

  /** Until the retention period is over, counted from the end of Execute, a purge leaves everything as Execute did,
      whatever disk and repository refuse. */
  method PurgeTooEarly(disk: Disk, repository: TransactionRepository, engine: Engine, id: string, plan: seq<PlanItem>,
                       accepts: PlanItem -> bool, finished: int, quarantineDays: int, execute: bool, now: int)
      returns (ghost files: FS, ghost records: map<string, Record>, outcome: PurgeOutcome)
    requires disk.Valid() && id !in repository.records && now < finished + DAY * quarantineDays
    requires Layout(PlacedItems(engine, id, plan, accepts))
    requires forall i | 0 <= i < |plan| ::
               Vacant(disk.files, PlacedItems(engine, id, plan, accepts)[i].quarantinePath)
    modifies disk, repository
    ensures id in records ==>
              Executed(id, old(disk.files), files, PlacedItems(engine, id, plan, accepts), records[id])
    ensures outcome == Rejected && disk.files == files && repository.records == records
  {
    hide Layout, Vacant, PlacedItems, AtOriginal, Executed, PurgeLeaves, ManifestsGone, ToPurge;
    var first := Execute(disk, repository, engine, id, plan, accepts, finished);
    files, records := disk.files, repository.records;
    if first.Recorded? {
      ExecutedID(id, old(disk.files), files, PlacedItems(engine, id, plan, accepts), first.record);
    }
    ghost var update;
    outcome, update := Purge(disk, repository, id, quarantineDays, execute, now);
  }

  lemma ExecutedID(id: string, fs0: FS, fs: FS, items: seq<Item>, record: Record)
    requires Executed(id, fs0, fs, items, record)
    ensures record.id == id
  {
    hide Safe, Changes, Passable, Finishes, ReachOf;
  }

  /** Every item that Execute moved passes the validation of a purge: it may be deleted exactly if it is no link. */
  lemma MovedIsPurgeable(engine: Engine, id: string, fs0: FS, fs: FS, created: seq<Item>, record: Record, j: nat)
    requires Executed(id, fs0, fs, engine.PlacedAll(id, created), record)
    requires j < |created| && record.items[j].status == Moved
    ensures record.items[j].originalPath in fs0
    ensures Purgeable(record.id, fs, record.items[j]) <==> !fs0[record.items[j].originalPath].Link?
  {
    var items, item := engine.PlacedAll(id, created), record.items[j];
    assert MoveStep(items[j], item) && TruthfulAfterMove(fs0, fs, item) && RecordedOnDisk(id, fs, items[j]);
    hide Executed, Safe, Changes, Passable, Finishes, PurgeAllowed;
    RecordedItemsPass(engine, id, fs, created[j], item);
    SameRoot(fs0, fs, item);
  }

  lemma SameRoot(fs0: FS, fs: FS, item: Item)
    requires InQuarantine(fs0, fs, item) && item.originalPath in fs0
    ensures item.quarantinePath in fs && fs[item.quarantinePath] == fs0[item.originalPath]
  {
    assert item.originalPath + [] == item.originalPath && item.quarantinePath + [] == item.quarantinePath;
    assert [] in TreeAt(fs0, item.originalPath);
  }

  /** Right after Execute, a purge that the system lets through deletes what was moved, except that an item that is a
      link ends FAILED and stays in quarantine. It says PURGED exactly when there was no such item and none that had
      failed. */
  lemma ReliablePurgeEmptiesQuarantine(engine: Engine, id: string, fs0: FS, a: FS, created: seq<Item>, before: Record,
                                       after: Record, b: FS)
    requires Layout(engine.PlacedAll(id, created)) && Executed(id, fs0, a, engine.PlacedAll(id, created), before)
    requires PurgeRecorded(before, after, a, b, true) && Confined(before.id, before.items, a, b)
    ensures |after.items| == |before.items| == |created|
    ensures forall j | 0 <= j < |after.items| :: PurgedAsMoved(fs0, before.items[j], after.items[j], b)
    ensures after.status == AllPurged <==>
              forall j | 0 <= j < |before.items| :: before.items[j].status != Failed && !MovedLink(fs0, before.items[j])
  {
    hide Safe, Changes, Finishes, PurgeAllowed, RealTreeAt, Layout, Confined, Vacant, ReachOf, Passable, InQuarantine;
    ExecutedIsRestorable(id, fs0, a, engine.PlacedAll(id, created), before);
    forall j | 0 <= j < |after.items|
      ensures PurgedAsMoved(fs0, before.items[j], after.items[j], b)
      ensures before.items[j].status == Failed || MovedLink(fs0, before.items[j]) <==>
              after.items[j].status in {Moved, Failed}
    {
      PurgedWhatWasMoved(engine, id, fs0, a, created, before, after, b, j);
    }
  }

  /** A link that a Move put into quarantine. */
  predicate MovedLink(fs0: FS, item: Item) {
    item.status == Moved && item.originalPath in fs0 && fs0[item.originalPath].Link?
  }

  /** What a purge without failures makes of an item. */
  ghost predicate PurgedAsMoved(fs0: FS, before: Item, after: Item, fs: FS) {
    if MovedLink(fs0, before) then after.status == Failed && InQuarantine(fs0, fs, before)
    else Vacant(fs, before.quarantinePath) && after.status == if before.status == Moved then Purged else before.status
  }

  lemma PurgedWhatWasMoved(engine: Engine, id: string, fs0: FS, a: FS, created: seq<Item>, before: Record,
                           after: Record, b: FS, j: nat)
    requires Layout(before.items) && Executed(id, fs0, a, engine.PlacedAll(id, created), before)
    requires PurgeRecorded(before, after, a, b, true) && Confined(before.id, before.items, a, b)
    requires j < |before.items| == |created|
    ensures PurgedAsMoved(fs0, before.items[j], after.items[j], b)
    ensures before.items[j].status == Failed || MovedLink(fs0, before.items[j]) <==>
            after.items[j].status in {Moved, Failed}
  {
    var x, y := before.items[j], after.items[j];
    assert PurgeStep(x, y);
    assert MoveStep(engine.PlacedAll(id, created)[j], x) && TruthfulAfterMove(fs0, a, x);
    ReliablePurgeIsClean(before, after, a, b, j);
    if x.status == Moved {
      MovedIsPurgeable(engine, id, fs0, a, created, before, j);
    }
  }
}

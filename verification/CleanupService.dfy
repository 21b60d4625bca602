/** The stored transactions. SQLite is a map whose rows are created and updated atomically, or not at all. */
module Repository {
  import opened Wrappers
  import opened Transactions

  datatype Record = Record(id: string, status: TransactionStatus, finishedAt: Option<int>, items: seq<Item>)

  class TransactionRepository {
    var records: map<string, Record>
    var tick: nat
    const grants: nat -> bool

    constructor (environment: nat -> bool)
      ensures records == map[] && tick == 0 && grants == environment
    {
      records, tick, grants := map[], 0, environment;
    }

    ghost predicate Reliable() {
      forall n: nat :: grants(n)
    }

    method Create(record: Record) returns (ok: bool)
      modifies this
      ensures Reliable() && record.id !in old(records) ==> ok
      ensures tick == old(tick) + 1 && (ok <==> grants(old(tick)) && record.id !in old(records))
      ensures ok ==> record.id !in old(records)
      ensures records == if ok then old(records)[record.id := record] else old(records)
    {
      ok := grants(tick) && record.id !in records;
      tick := tick + 1;
      if ok {
        records := records[record.id := record];
      }
    }

    method Update(record: Record) returns (ok: bool)
      modifies this
      ensures Reliable() && record.id in old(records) ==> ok
      ensures tick == old(tick) + 1 && (ok <==> grants(old(tick)) && record.id in old(records))
      ensures ok ==> record.id in old(records)
      ensures records == if ok then old(records)[record.id := record] else old(records)
    {
      ok := grants(tick) && record.id in records;
      tick := tick + 1;
      if ok {
        records := records[record.id := record];
      }
    }

    method FindByID(id: string) returns (found: Option<Record>)
      modifies this`tick
      ensures Reliable() && id in records ==> found.Some?
      ensures tick == old(tick) + 1 && (found.Some? <==> grants(old(tick)) && id in records)
      ensures found.Some? ==> id in records && records[id] == found.value
    {
      var granted := grants(tick);
      tick := tick + 1;
      found := if granted && id in records then Some(records[id]) else None;
    }
  }
}

/** internal/app/cleanup_service.go: Execute, Restore, finishTransaction. */
module CleanupService {
  import opened Wrappers
  import opened Paths
  import opened Transactions
  import opened FileTree
  import opened Disks
  import opened QuarantineSpec
  import opened QuarantineEngine
  import opened Protocol
  import opened Repository

  /** The status a finished transaction deserves: by whether all, some or none of its items made it. */
  predicate Finishes(items: seq<Item>, restoring: bool, status: TransactionStatus) {
    var goal := if restoring then Restored else Moved;
    var some := exists i | 0 <= i < |items| :: items[i].status == goal;
    var all := forall i | 0 <= i < |items| :: items[i].status == goal;
    status ==
      if !some then TransactionFailed
      else if all then (if restoring then AllRestored else Quarantined)
      else if restoring then PartiallyRestored else PartiallyQuarantined
  }

  method FinishTransaction(transaction: Transaction, finished: int, restoring: bool)
    modifies transaction`status, transaction`finishedAt
    ensures Finishes(transaction.items, restoring, transaction.status) && transaction.finishedAt == finished
  {
    var success, other := 0, 0;
    for i := 0 to |transaction.items|
      invariant success >= 0 && other >= 0
      invariant success > 0 <==>
                exists j | 0 <= j < i :: transaction.items[j].status == if restoring then Restored else Moved
      invariant other == 0 <==>
                forall j | 0 <= j < i :: transaction.items[j].status == if restoring then Restored else Moved
    {
      var status := transaction.items[i].status;
      if (!restoring && status == Moved) || (restoring && status == Restored) {
        success := success + 1;
      } else {
        other := other + 1;
      }
    }
    if restoring {
      transaction.status :=
        if success > 0 && other == 0 then AllRestored else if success > 0 then PartiallyRestored else TransactionFailed;
    } else {
      transaction.status :=
        if success > 0 && other == 0 then Quarantined else if success > 0 then PartiallyQuarantined
        else TransactionFailed;
    }
    transaction.finishedAt := finished;
  }

  datatype PlanItem = PlanItem(id: string, normalizedPath: Path)

  /** What Execute turns a plan item into, given whether resource lookup and validation let it pass. */
  function ItemFor(id: string, planItem: PlanItem, accepted: bool): Item {
    Item(id + ":" + planItem.id, planItem.normalizedPath, [], [], if accepted then Pending else Skipped)
  }

  function ItemsFor(id: string, plan: seq<PlanItem>, accepts: PlanItem -> bool): seq<Item> {
    seq(|plan|, i requires 0 <= i < |plan| => ItemFor(id, plan[i], accepts(plan[i])))
  }

  datatype Outcome = NotStarted | NotRecorded(record: Record) | Recorded(record: Record)

  /** Everything a finished Execute guarantees about its items. */
  ghost predicate Executed(id: string, fs0: FS, fs: FS, items: seq<Item>, record: Record) {
    record.id == id && |record.items| == |items| &&
    (forall i | 0 <= i < |items| ::
       MoveStep(items[i], record.items[i]) && TruthfulAfterMove(fs0, fs, record.items[i])) &&
    Finishes(record.items, false, record.status) && record.finishedAt.Some? &&
    Safe(id, fs0, fs, items) && Changes(items, ReachOf(items, record.items, true), true, fs0, fs) &&
    (Passable(items, fs0) ==> Passable(items, fs))
  }

  /** The items of a plan as Execute places them. */
  function PlacedItems(engine: Engine, id: string, plan: seq<PlanItem>, accepts: PlanItem -> bool): (r: seq<Item>)
    ensures |r| == |plan|
    ensures forall i | 0 <= i < |r| ::
              var root := engine.Root(plan[i].normalizedPath, id);
              r[i].id == id + ":" + plan[i].id && r[i].originalPath == plan[i].normalizedPath &&
              r[i].quarantinePath == root + ["items", engine.slotName(r[i].id, r[i].originalPath)] &&
              r[i].manifestPath == root + ["manifest.json"] &&
              r[i].status == if accepts(plan[i]) then Pending else Skipped
  {
    engine.PlacedAll(id, ItemsFor(id, plan, accepts))
  }

  method Execute(disk: Disk, repository: TransactionRepository, engine: Engine, id: string, plan: seq<PlanItem>,
                 accepts: PlanItem -> bool, now: int) returns (outcome: Outcome)
    requires disk.Valid()
    requires Layout(PlacedItems(engine, id, plan, accepts))
    requires forall i | 0 <= i < |plan| ::
               Vacant(disk.files, PlacedItems(engine, id, plan, accepts)[i].quarantinePath)
    modifies disk, repository
    ensures disk.Valid() && old(disk.trace) <= disk.trace
    ensures forall t | |old(disk.trace)| <= t < |disk.trace| ::
              CrashSafe(id, old(disk.files), disk.trace[t], PlacedItems(engine, id, plan, accepts))
    ensures outcome.NotStarted? ==>
              forall item | item in PlacedItems(engine, id, plan, accepts) ::
                AtOriginal(old(disk.files), disk.files, item)
    ensures !outcome.NotStarted? ==>
              Executed(id, old(disk.files), disk.files, PlacedItems(engine, id, plan, accepts), outcome.record) &&
              outcome.record.finishedAt == Some(now)
    ensures repository.records ==
              if outcome.Recorded? then old(repository.records)[id := outcome.record] else old(repository.records)
    ensures !outcome.NotStarted? && disk.Reliable() &&
            Passable(PlacedItems(engine, id, plan, accepts), old(disk.files)) ==>
              forall i | 0 <= i < |plan| && accepts(plan[i]) && plan[i].normalizedPath in old(disk.files) ::
                outcome.record.items[i].status == Moved
    ensures disk.Reliable() && ManifestsApart(PlacedItems(engine, id, plan, accepts)) &&
            Writable(PlacedItems(engine, id, plan, accepts), old(disk.files)) ==>
              !outcome.NotStarted?
    ensures repository.Reliable() && id !in old(repository.records) ==> !outcome.NotRecorded?
  {
    hide ManifestsApart, Writable, Layout, Vacant, Safe, ManifestStep, CrashSafe, AtOriginal, Changes,
         TruthfulAfterMove, MoveProgress, Passable, Finishes;
    ghost var fs0, n0 := disk.files, |disk.trace|;
    ghost var items := PlacedItems(engine, id, plan, accepts);
    var created: seq<Item> := [];
    for i := 0 to |plan|
      invariant |created| == i
      invariant forall j | 0 <= j < i :: created[j] == ItemFor(id, plan[j], accepts(plan[j]))
    {
      var item := ItemFor(id, plan[i], true);
      if !accepts(plan[i]) {
        item := item.(status := Skipped);
      }
      created := created + [item];
    }
    assert created == ItemsFor(id, plan, accepts);
    var transaction := new Transaction(id, created);
    var prepared := Prepare(disk, engine, transaction);
    assert transaction.items == items;
    ghost var f1, trace := disk.files, disk.trace;
    LayoutSeparatesDrafts(items);
    forall t | n0 <= t < |trace|
      ensures CrashSafe(id, fs0, disk.trace[t], items)
    {
      PreparedIsCrashSafe(id, fs0, trace[t], items);
    }
    PreparedIsCrashSafe(id, fs0, f1, items);
    if !prepared {
      return NotStarted;
    }
    PreparedIsSafe(id, fs0, f1, items);
    Move(disk, transaction, fs0);
    forall t | n0 <= t < |disk.trace|
      ensures CrashSafe(id, fs0, disk.trace[t], items)
    {
      if t < |trace| {
        assert disk.trace[t] == trace[t];
      } else {
        MovingIsCrashSafe(id, fs0, items, transaction.items, f1, disk.files, disk.trace, |trace|, disk.Reliable(), t);
      }
    }
    FinishTransaction(transaction, now, false);
    var record := Record(id, transaction.status, Some(transaction.finishedAt), transaction.items);
    MoveIsExecuted(id, fs0, items, f1, disk.files, disk.trace, |trace|, disk.Reliable(), record);
    var ok := repository.Create(record);
    outcome := if ok then Recorded(record) else NotRecorded(record);
  }

  lemma PreparedIsCrashSafe(id: string, fs0: FS, fs: FS, items: seq<Item>)
    requires Layout(items) && ManifestStep(id, items, fs0, fs)
    requires forall i | 0 <= i < |items| :: Vacant(fs0, items[i].quarantinePath)
    ensures CrashSafe(id, fs0, fs, items)
    ensures forall i | 0 <= i < |items| :: AtOriginal(fs0, fs, items[i])
    ensures forall item | item in items :: AtOriginal(fs0, fs, item)
  {
    hide Layout, ManifestStep, RecordedOnDisk, Vacant;
    forall i | 0 <= i < |items|
      ensures AtOriginal(fs0, fs, items[i])
    {
      PreparedAtOriginal(id, items, fs0, fs, i);
    }
  }

  lemma PreparedIsSafe(id: string, fs0: FS, fs: FS, items: seq<Item>)
    requires forall i | 0 <= i < |items| ::
               AtOriginal(fs0, fs, items[i]) && RecordedOnDisk(id, fs, items[i]) &&
               items[i].status in {Pending, Skipped}
    ensures Safe(id, fs0, fs, items)
    ensures forall i | 0 <= i < |items| :: TruthfulAfterMove(fs0, fs, items[i])
  {
    hide AtOriginal, RecordedOnDisk;
  }

  lemma MovingIsCrashSafe(id: string, fs0: FS, items: seq<Item>, now: seq<Item>, f0: FS, f: FS, trace: seq<FS>, n: nat,
                          reliable: bool, t: nat)
    requires MoveProgress(id, fs0, items, now, f0, f, trace, n, |items|, reliable) && n <= t < |trace|
    ensures CrashSafe(id, fs0, trace[t], items)
  {
    hide TruthfulAfterMove, Passable, Changes, Intact, RecordedOnDisk;
    assert Safe(id, fs0, trace[t], items);
  }

  lemma MoveIsExecuted(id: string, fs0: FS, items: seq<Item>, f1: FS, f: FS, trace: seq<FS>, n: nat, reliable: bool,
                       record: Record)
    requires ManifestStep(id, items, fs0, f1) && Layout(items)
    requires MoveProgress(id, fs0, items, record.items, f1, f, trace, n, |items|, reliable)
    requires record.id == id && record.finishedAt.Some? && Finishes(record.items, false, record.status)
    ensures Executed(id, fs0, f, items, record)
    ensures reliable && Passable(items, fs0) ==>
              forall i | 0 <= i < |items| :: items[i].status == Pending && items[i].originalPath in fs0 ==>
                record.items[i].status == Moved
  {
    hide TruthfulAfterMove, Passable, Changes, Safe, SafeTrace, Finishes, ManifestStep, Layout;
    var r := ReachOf(items, record.items, true);
    ManifestStepChanges(id, items, items, r, true, fs0, f1);
    ChangesTransitive(items, r, true, fs0, f1, f);
    hide ReachOf;
    if Passable(items, fs0) {
      PassableAfterManifests(id, items, fs0, f1);
    }
  }

  method Restore(disk: Disk, repository: TransactionRepository, id: string, now: int, ghost fs0: FS)
      returns (outcome: Outcome)
    requires disk.Valid()
    modifies disk, repository
    ensures disk.Valid() && old(disk.trace) <= disk.trace
    ensures outcome.NotStarted? ==> disk.files == old(disk.files) && disk.trace == old(disk.trace)
    ensures !outcome.NotStarted? ==>
              id in old(repository.records) && outcome.record.id == old(repository.records[id]).id &&
              RestoreProgress(old(repository.records[id]).items, outcome.record.items, old(disk.files), disk.files,
                              disk.trace, |old(disk.trace)|, |old(repository.records[id]).items|,
                              disk.Reliable()) &&
              Finishes(outcome.record.items, true, outcome.record.status) && outcome.record.finishedAt == Some(now)
    ensures !outcome.NotStarted? && Layout(old(repository.records[id]).items) ==>
              NamesKept(outcome.record.id, old(repository.records[id]).items, old(disk.files), disk.files, disk.trace,
                        |old(disk.trace)|)
    ensures !outcome.NotStarted? && Layout(old(repository.records[id]).items) &&
            Safe(outcome.record.id, fs0, old(disk.files), old(repository.records[id]).items) ==>
              SafeRestore(outcome.record.id, fs0, old(repository.records[id]).items, outcome.record.items,
                          old(disk.files), disk.files, disk.trace, |old(disk.trace)|,
                          |old(repository.records[id]).items|)
    ensures repository.records ==
              if outcome.Recorded? then old(repository.records)[outcome.record.id := outcome.record]
              else old(repository.records)
    ensures repository.Reliable() && id in old(repository.records) ==> !outcome.NotStarted?
    ensures repository.Reliable() && !outcome.NotStarted? && outcome.record.id in old(repository.records) ==>
              outcome.Recorded?
  {
    hide Layout, Safe, RestoreProgress, SafeRestore, Finishes, NamesKept;
    var found := repository.FindByID(id);
    if found.None? {
      return NotStarted;
    }
    var transaction := new Transaction(found.value.id, found.value.items);
    QuarantineEngine.Restore(disk, transaction, fs0);
    FinishTransaction(transaction, now, true);
    var record := Record(transaction.id, transaction.status, Some(transaction.finishedAt), transaction.items);
    var ok := repository.Update(record);
    outcome := if ok then Recorded(record) else NotRecorded(record);
  }
}

/** internal/safety/quarantine.go: Prepare, Move, Restore and the manifests they write. */
module QuarantineEngine {
  import opened Wrappers
  import opened Paths
  import opened Transactions
  import opened FileTree
  import opened Disks
  import opened QuarantineSpec

  class Transaction {
    const id: string
    var items: seq<Item>
    var status: TransactionStatus
    var finishedAt: int

    constructor (id: string, items: seq<Item>)
      ensures this.id == id && this.items == items && status == Running
    {
      this.id, this.items, status, finishedAt := id, items, Running, 0;
    }
  }

  /** One round of writeManifests: directory, draft, commit. */
  method WriteManifest(disk: Disk, id: string, items: seq<Item>, ghost i: nat, path: Path, listed: seq<Item>)
      returns (ok: bool)
    requires disk.Valid()
    requires i < |items| && path == items[i].manifestPath && listed == ItemsAt(items, path)
    modifies disk
    ensures disk.Valid() && old(disk.trace) <= disk.trace
    ensures ManifestTrace(id, items, old(disk.files), disk.trace, |old(disk.trace)|)
    ensures ManifestStep(id, items, old(disk.files), disk.files)
    ensures ok ==> ManifestComplete(id, items, disk.files, path)
    ensures disk.Reliable() && ManifestsApart(items) && Writable(items, old(disk.files)) ==>
              ok && Writable(items, disk.files)
  {
    hide ManifestStep, AddsDirs, WritesOnly, DirsExist, Writable, ManifestsApart, CanWrite, CanRename, ManifestTrace;
    if Writable(items, disk.files) {
      WaysToManifest(items, disk.files, i);
    }
    ok := disk.MkdirAll(Dir(path));
    ghost var made := disk.files;
    ghost var clear := disk.Reliable() && ManifestsApart(items) && Writable(items, old(disk.files));
    if clear {
      WaysStayClear(items, old(disk.files), made, i);
      ManifestGoesThrough(items, i, made, ManifestData(Manifest(MANIFEST_VERSION, id, listed)));
    }
    ghost var trace := disk.trace;
    MkdirTraceIsManifestStep(id, items, i, old(disk.files), made, disk.trace, |old(disk.trace)|);
    if !ok {
      return;
    }
    var draft := Temporary(path);
    ok := disk.WriteFile(draft, ManifestData(Manifest(MANIFEST_VERSION, id, listed)));
    ghost var written := disk.files;
    WriteTraceIsManifestStep(id, items, i, old(disk.files), made, written, trace, disk.trace, |old(disk.trace)|);
    if !ok {
      return;
    }
    trace := disk.trace;
    ok := disk.Rename(draft, path);
    if ok {
      CommitIsManifestStep(id, items, i, written);
      ManifestStepTransitive(id, items, old(disk.files), written, disk.files);
      RenameLeaf(written, draft, path);
    }
    ManifestTraceAppends(id, items, old(disk.files), disk.files, trace, |old(disk.trace)|);
  }

  lemma MkdirTraceIsManifestStep(id: string, items: seq<Item>, i: nat, a: FS, b: FS, trace: seq<FS>, n: nat)
    requires i < |items| && AddsDirs(a, b, Dir(items[i].manifestPath))
    requires forall t | n <= t < |trace| :: AddsDirs(a, trace[t], Dir(items[i].manifestPath))
    ensures ManifestStep(id, items, a, b) && ManifestTrace(id, items, a, trace, n)
  {
    hide AddsDirs, ManifestStep;
    MkdirIsManifestStep(id, items, i, a, b);
    forall t | n <= t < |trace|
      ensures ManifestStep(id, items, a, trace[t])
    {
      MkdirIsManifestStep(id, items, i, a, trace[t]);
    }
  }

  lemma WriteTraceIsManifestStep(id: string, items: seq<Item>, i: nat, a: FS, b: FS, c: FS, before: seq<FS>,
                                 trace: seq<FS>, n: nat)
    requires i < |items| && ManifestStep(id, items, a, b) && WritesOnly(b, c, Temporary(items[i].manifestPath))
    requires before <= trace && ManifestTrace(id, items, a, before, n)
    requires forall t | |before| <= t < |trace| :: WritesOnly(b, trace[t], Temporary(items[i].manifestPath))
    ensures ManifestStep(id, items, a, c) && ManifestTrace(id, items, a, trace, n)
  {
    hide WritesOnly, ManifestStep;
    WriteIsManifestStep(id, items, i, b, c);
    ManifestStepTransitive(id, items, a, b, c);
    forall t | n <= t < |trace|
      ensures ManifestStep(id, items, a, trace[t])
    {
      if t < |before| {
        assert trace[t] == before[t];
      } else {
        WriteIsManifestStep(id, items, i, b, trace[t]);
        ManifestStepTransitive(id, items, a, b, trace[t]);
      }
    }
  }

  /** Every state from number n on is one that writing manifests can lead to. */
  ghost predicate ManifestTrace(id: string, items: seq<Item>, a: FS, trace: seq<FS>, n: nat) {
    forall t | n <= t < |trace| :: ManifestStep(id, items, a, trace[t])
  }

  lemma ManifestTraceAppends(id: string, items: seq<Item>, a: FS, b: FS, trace: seq<FS>, n: nat)
    requires ManifestTrace(id, items, a, trace, n) && ManifestStep(id, items, a, b)
    ensures ManifestTrace(id, items, a, trace + [b], n)
  {
    hide ManifestStep;
  }

  method GroupByManifest(items: seq<Item>) returns (byManifest: map<Path, seq<Item>>)
    ensures byManifest.Keys == ManifestPaths(items)
    ensures forall p | p in byManifest :: byManifest[p] == ItemsAt(items, p)
  {
    hide ManifestPaths, ItemsAt;
    byManifest := map[];
    NothingToGroup();
    for i := 0 to |items|
      invariant byManifest.Keys == ManifestPaths(items[..i])
      invariant forall p | p in byManifest :: byManifest[p] == ItemsAt(items[..i], p)
      invariant forall p | p !in byManifest :: ItemsAt(items[..i], p) == []
    {
      var p := items[i].manifestPath;
      GroupingGrows(items, i);
      byManifest := byManifest[p := (if p in byManifest then byManifest[p] else []) + [items[i]]];
    }
    assert items[..|items|] == items;
  }

  /** Every manifest on the disk says what the transaction now says. */
  ghost predicate ManifestsCurrent(id: string, items: seq<Item>, fs: FS) {
    forall p | p in ManifestPaths(items) :: ManifestComplete(id, items, fs, p)
  }

  /** What holds while the manifests of the paths in todo are still to be written. */
  ghost predicate WriteProgress(id: string, items: seq<Item>, f0: FS, f: FS, trace: seq<FS>, n: nat, todo: set<Path>,
                                clear: bool)
  {
    n <= |trace| && ManifestStep(id, items, f0, f) &&
    (forall t | n <= t < |trace| :: ManifestStep(id, items, f0, trace[t])) &&
    (ManifestPaths(items) !! TemporaryPaths(items) ==>
       forall p | p in ManifestPaths(items) && p !in todo :: ManifestComplete(id, items, f, p)) &&
    (clear ==> Writable(items, f))
  }

  lemma WriteStarts(id: string, items: seq<Item>, f: FS, trace: seq<FS>, clear: bool)
    requires clear ==> Writable(items, f)
    ensures WriteProgress(id, items, f, f, trace, |trace|, ManifestPaths(items), clear)
  {
    hide ManifestStep, ManifestComplete, Writable;
    ManifestStepReflexive(id, items, f);
  }

  lemma WriteAdvances(id: string, items: seq<Item>, f0: FS, f: FS, f': FS, trace: seq<FS>, trace': seq<FS>, n: nat,
                      todo: set<Path>, clear: bool, path: Path, ok: bool)
    requires WriteProgress(id, items, f0, f, trace, n, todo, clear) && trace <= trace' && ManifestStep(id, items, f, f')
    requires forall t | |trace| <= t < |trace'| :: ManifestStep(id, items, f, trace'[t])
    requires (ok ==> ManifestComplete(id, items, f', path)) && (clear ==> Writable(items, f'))
    ensures WriteProgress(id, items, f0, f', trace', n, if ok then todo - {path} else todo, clear)
  {
    hide ManifestStep, ManifestComplete, Writable;
    ManifestStepTransitive(id, items, f0, f, f');
    forall t | n <= t < |trace'|
      ensures ManifestStep(id, items, f0, trace'[t])
    {
      if t < |trace| {
        assert trace'[t] == trace[t];
      } else {
        ManifestStepTransitive(id, items, f0, f, trace'[t]);
      }
    }
    if ManifestPaths(items) !! TemporaryPaths(items) {
      forall p | p in ManifestPaths(items) && p !in todo
        ensures ManifestComplete(id, items, f', p)
      {
        CompleteStaysComplete(id, items, f, f', p);
      }
    }
  }

  method WriteManifests(disk: Disk, id: string, items: seq<Item>) returns (ok: bool)
    requires disk.Valid()
    modifies disk
    ensures disk.Valid() && old(disk.trace) <= disk.trace
    ensures forall t | |old(disk.trace)| <= t < |disk.trace| ::
              ManifestStep(id, items, old(disk.files), disk.trace[t])
    ensures ManifestStep(id, items, old(disk.files), disk.files)
    ensures ok && ManifestPaths(items) !! TemporaryPaths(items) ==>
              ManifestsCurrent(id, items, disk.files) &&
              forall i | 0 <= i < |items| :: RecordedOnDisk(id, disk.files, items[i])
    ensures disk.Reliable() && ManifestsApart(items) && Writable(items, old(disk.files)) ==>
              ok && Writable(items, disk.files)
  {
    hide ManifestStep, ManifestComplete, RecordedOnDisk, ItemsAt, Writable, ManifestsApart, WriteProgress,
         ManifestsCurrent;
    ghost var clear := disk.Reliable() && ManifestsApart(items) && Writable(items, disk.files);
    ghost var f0, n := disk.files, |disk.trace|;
    WriteStarts(id, items, f0, disk.trace, clear);
    var byManifest := GroupByManifest(items);
    // The source goes through the paths in sorted order; nothing depends on it.
    var todo := byManifest.Keys;
    while todo != {}
      invariant todo <= ManifestPaths(items)
      invariant disk.Valid() && old(disk.trace) <= disk.trace
      invariant WriteProgress(id, items, f0, disk.files, disk.trace, n, todo, clear)
      invariant clear ==> Writable(items, disk.files)
      decreases |todo|
    {
      var path :| path in todo;
      ghost var i :| 0 <= i < |items| && items[i].manifestPath == path;
      ghost var f, trace := disk.files, disk.trace;
      ok := WriteManifest(disk, id, items, i, path, byManifest[path]);
      WriteAdvances(id, items, f0, f, disk.files, trace, disk.trace, n, todo, clear, path, ok);
      if !ok {
        WriteEnds(id, items, f0, disk.files, disk.trace, n, todo, clear);
        return;
      }
      todo := todo - {path};
    }
    ok := true;
    WriteEnds(id, items, f0, disk.files, disk.trace, n, todo, clear);
  }

  lemma WriteEnds(id: string, items: seq<Item>, f0: FS, f: FS, trace: seq<FS>, n: nat, todo: set<Path>, clear: bool)
    requires WriteProgress(id, items, f0, f, trace, n, todo, clear)
    ensures n <= |trace| && ManifestStep(id, items, f0, f)
    ensures forall t | n <= t < |trace| :: ManifestStep(id, items, f0, trace[t])
    ensures todo == {} && ManifestPaths(items) !! TemporaryPaths(items) ==>
              ManifestsCurrent(id, items, f) && forall i | 0 <= i < |items| :: RecordedOnDisk(id, f, items[i])
    ensures clear ==> Writable(items, f)
  {
    hide ManifestStep, ManifestComplete, RecordedOnDisk, Writable;
    if todo == {} && ManifestPaths(items) !! TemporaryPaths(items) {
      forall i | 0 <= i < |items|
        ensures RecordedOnDisk(id, f, items[i])
      {
        assert items[i].manifestPath in ManifestPaths(items);
        CompleteManifestRecords(id, items, f, i);
      }
    }
  }

  /** Every disk state after position n of the trace is one that moving item i may pass through. */
  ghost predicate EffectTrace(id: string, fs0: FS, items: seq<Item>, i: nat, away: bool, ok: bool, a: FS,
                              trace: seq<FS>, n: nat)
    requires i < |items|
  {
    forall t | n <= t < |trace| :: ItemEffect(id, fs0, items, i, away, ok, a, trace[t])
  }

  ghost predicate ChangesTrace(items: seq<Item>, r: Reach, away: bool, a: FS, trace: seq<FS>, n: nat) {
    forall t | n <= t < |trace| :: Changes(items, r, away, a, trace[t])
  }

  lemma ChangesTraceJoins(items: seq<Item>, r: Reach, away: bool, a: FS, b: FS, trace: seq<FS>, trace': seq<FS>, n: nat)
    requires n <= |trace| && trace <= trace' && ChangesTrace(items, r, away, a, trace, n)
    requires Changes(items, r, away, a, b)
    requires ChangesTrace(items, r, away, b, trace', |trace|)
    ensures ChangesTrace(items, r, away, a, trace', n)
  {
    hide Changes;
    forall t | n <= t < |trace'|
      ensures Changes(items, r, away, a, trace'[t])
    {
      if t < |trace| {
        assert trace'[t] == trace[t];
      } else {
        ChangesTransitive(items, r, away, a, b, trace'[t]);
      }
    }
  }

  lemma ChangesTraceWidens(items: seq<Item>, r: Reach, s: Reach, away: bool, a: FS, trace: seq<FS>, n: nat)
    requires ChangesTrace(items, r, away, a, trace, n) && Within(r, s)
    ensures ChangesTrace(items, s, away, a, trace, n)
  {
    hide Changes;
    forall t | n <= t < |trace|
      ensures Changes(items, s, away, a, trace[t])
    {
      ChangesWiden(items, r, s, away, a, trace[t]);
    }
  }

  lemma EffectTraceAppends(id: string, fs0: FS, items: seq<Item>, i: nat, away: bool, ok: bool, a: FS,
                           trace: seq<FS>, x: FS, n: nat)
    requires i < |items| && EffectTrace(id, fs0, items, i, away, ok, a, trace, n)
    requires ItemEffect(id, fs0, items, i, away, ok, a, x)
    ensures EffectTrace(id, fs0, items, i, away, ok, a, trace + [x], n)
  {
    hide ItemEffect;
  }

  lemma EffectTraceJoins(id: string, fs0: FS, items: seq<Item>, i: nat, away: bool, ok: bool, a: FS, b: FS,
                         trace: seq<FS>, trace': seq<FS>, n: nat)
    requires i < |items| && n <= |trace| && trace <= trace'
    requires EffectTrace(id, fs0, items, i, away, ok, a, trace, n) && ItemEffect(id, fs0, items, i, away, ok, a, b)
    requires EffectTrace(id, fs0, items, i, away, ok, b, trace', |trace|)
    ensures EffectTrace(id, fs0, items, i, away, ok, a, trace', n)
  {
    hide ItemEffect;
    forall t | n <= t < |trace'|
      ensures ItemEffect(id, fs0, items, i, away, ok, a, trace'[t])
    {
      if t < |trace| {
        assert trace'[t] == trace[t];
      } else {
        EffectTransitive(id, fs0, items, i, away, ok, a, b, trace'[t]);
      }
    }
  }

  lemma RecordIsPossible(items: seq<Item>, items': seq<Item>, fs: FS)
    requires SamePlaces(items, items')
    ensures Layout(items) && ManifestsApart(items) && Writable(items, fs) ==>
              ManifestsApart(items') && Writable(items', fs) && ManifestPaths(items') !! TemporaryPaths(items')
  {
    hide Layout, SamePlaces, ManifestsApart, Writable;
    if Layout(items) && ManifestsApart(items) && Writable(items, fs) {
      WritableOfSamePlaces(items, items', fs);
      LayoutOfSamePlaces(items, items');
      LayoutSeparatesDrafts(items');
    }
  }

  /** The manifest update that follows every successful rename. Its failure only adds to the item's reason. */
  method RecordStatus(disk: Disk, transaction: Transaction, ghost away: bool, ghost fs0: FS, ghost items: seq<Item>,
                      ghost i: nat)
    requires disk.Valid() && i < |items| && SamePlaces(items, transaction.items)
    modifies disk
    ensures disk.Valid() && old(disk.trace) <= disk.trace
    ensures ManifestStep(transaction.id, transaction.items, old(disk.files), disk.files)
    ensures forall t | |old(disk.trace)| <= t < |disk.trace| ::
              ManifestStep(transaction.id, transaction.items, old(disk.files), disk.trace[t])
    ensures Layout(items) && Safe(transaction.id, fs0, old(disk.files), items) ==>
              ItemEffect(transaction.id, fs0, items, i, away, true, old(disk.files), disk.files) &&
              EffectTrace(transaction.id, fs0, items, i, away, true, old(disk.files), disk.trace, |old(disk.trace)|) &&
              Undisturbed(old(disk.files), disk.files, items[i])
    ensures disk.Reliable() && Layout(items) && ManifestsApart(items) && Writable(items, old(disk.files)) ==>
              ManifestsCurrent(transaction.id, transaction.items, disk.files)
  {
    hide ItemEffect, Layout, Safe, Passable, Changes, ManifestStep, Undisturbed, SamePlaces, ManifestsApart, Writable,
         ManifestsCurrent, ManifestPaths, TemporaryPaths, RecordedOnDisk;
    RecordIsPossible(items, transaction.items, disk.files);
    ghost var id, f, n := transaction.id, disk.files, |disk.trace|;
    ghost var safe := Layout(items) && Safe(id, fs0, f, items);
    var _ := WriteManifests(disk, transaction.id, transaction.items);
    if safe {
      forall t | n <= t < |disk.trace|
        ensures ItemEffect(id, fs0, items, i, away, true, f, disk.trace[t])
      {
        EffectOfManifests(id, fs0, items, transaction.items, i, away, true, f, disk.trace[t]);
      }
      EffectOfManifests(id, fs0, items, transaction.items, i, away, true, f, disk.files);
    }
  }

  lemma MkdirTrace(id: string, fs0: FS, items: seq<Item>, i: nat, away: bool, f0: FS, f1: FS, trace: seq<FS>, n: nat)
    requires i < |items| && Layout(items) && Safe(id, fs0, f0, items)
    requires AddsDirs(f0, f1, Dir(Target(items[i], away)))
    requires forall t | n <= t < |trace| :: AddsDirs(f0, trace[t], Dir(Target(items[i], away)))
    ensures Safe(id, fs0, f1, items) && Undisturbed(f0, f1, items[i])
    ensures ItemEffect(id, fs0, items, i, away, true, f0, f1) && ItemEffect(id, fs0, items, i, away, false, f0, f1)
    ensures EffectTrace(id, fs0, items, i, away, true, f0, trace, n)
    ensures EffectTrace(id, fs0, items, i, away, false, f0, trace, n)
  {
    hide Layout, Safe, AddsDirs, ItemEffect, Undisturbed;
    EffectOfMkdir(id, fs0, items, i, away, false, f0, f1);
    EffectOfMkdir(id, fs0, items, i, away, true, f0, f1);
    forall t | n <= t < |trace|
      ensures ItemEffect(id, fs0, items, i, away, true, f0, trace[t])
      ensures ItemEffect(id, fs0, items, i, away, false, f0, trace[t])
    {
      EffectOfMkdir(id, fs0, items, i, away, false, f0, trace[t]);
      EffectOfMkdir(id, fs0, items, i, away, true, f0, trace[t]);
    }
  }

  /** One round of the loop of Move, for an item that is still PENDING. */
  method MoveItem(disk: Disk, transaction: Transaction, i: nat, ghost fs0: FS)
    requires disk.Valid() && i < |transaction.items| && transaction.items[i].status.Pending?
    requires Layout(transaction.items) && Safe(transaction.id, fs0, disk.files, transaction.items)
    modifies disk, transaction`items
    ensures disk.Valid() && old(disk.trace) <= disk.trace
    ensures |transaction.items| == |old(transaction.items)| && transaction.items[i].status in {Moved, Failed}
    ensures transaction.items ==
              old(transaction.items)[i := old(transaction.items)[i].(status := transaction.items[i].status)]
    ensures ItemEffect(transaction.id, fs0, old(transaction.items), i, true, transaction.items[i].status == Moved,
                       old(disk.files), disk.files)
    ensures EffectTrace(transaction.id, fs0, old(transaction.items), i, true, transaction.items[i].status == Moved,
                        old(disk.files), disk.trace, |old(disk.trace)|)
    ensures transaction.items[i].status == Moved ==>
              transaction.items[i].originalPath in fs0 && InQuarantine(fs0, disk.files, transaction.items[i])
    ensures transaction.items[i].status == Failed && AtOriginal(fs0, old(disk.files), old(transaction.items)[i]) ==>
              AtOriginal(fs0, disk.files, transaction.items[i])
    ensures disk.Reliable() && Passable(old(transaction.items), old(disk.files)) &&
            AtOriginal(fs0, old(disk.files), old(transaction.items)[i]) && transaction.items[i].originalPath in fs0 ==>
              transaction.items[i].status == Moved
    ensures disk.Reliable() && ManifestsApart(old(transaction.items)) &&
            Writable(old(transaction.items), old(disk.files)) && transaction.items[i].status == Moved ==>
              ManifestsCurrent(transaction.id, transaction.items, disk.files)
  {
    hide ItemEffect, Layout, Safe, Passable, Changes, AddsDirs, ManifestStep, Undisturbed, AtOriginal, InQuarantine,
         Renamed, DirsOnly, ManifestsApart, Writable, ManifestsCurrent, EffectTrace, DirsExist, CanRename, Vacant;
    ghost var id, items, f0, n0 := transaction.id, transaction.items, disk.files, |disk.trace|;
    var item := transaction.items[i];

    var ok := disk.MkdirAll(Dir(item.quarantinePath));
    ghost var f1, n1, trace1 := disk.files, |disk.trace|, disk.trace;
    MkdirTrace(id, fs0, items, i, true, f0, f1, disk.trace, n0);
    IntactWhenUndisturbed(fs0, f0, f1, item);
    PassageAndSource(items, i, true, f0, f1);
    if item.originalPath in fs0 && AtOriginal(fs0, f1, item) {
      WholeTreeIsThere(fs0, f1, item, true);
    }
    if !ok {
      transaction.items := transaction.items[i := item.(status := Failed)];
      SamePlaceSameFate(fs0, f0, item, transaction.items[i]);
      SamePlaceSameFate(fs0, f1, item, transaction.items[i]);
      return;
    }
    ok := disk.Rename(item.originalPath, item.quarantinePath);
    if !ok {
      assert disk.trace[n1] == f1;
      MkdirTrace(id, fs0, items, i, true, f0, f1, disk.trace, n0);
      transaction.items := transaction.items[i := item.(status := Failed)];
      SamePlaceSameFate(fs0, f0, item, transaction.items[i]);
      SamePlaceSameFate(fs0, f1, item, transaction.items[i]);
      return;
    }
    OccupiedSourceDecides(id, fs0, items, i, true, f1);
    EffectOfRename(id, fs0, items, i, true, f1);
    if Writable(items, f0) {
      MoveKeepsWritable(items, i, true, f0, f1);
    }
    ghost var f2, trace := disk.files, disk.trace;
    EffectTransitive(id, fs0, items, i, true, true, f0, f1, f2);
    EffectTraceAppends(id, fs0, items, i, true, true, f0, trace1, f2, n0);
    transaction.items := transaction.items[i := item.(status := Moved)];
    RecordStatus(disk, transaction, true, fs0, items, i);
    EffectTraceJoins(id, fs0, items, i, true, true, f0, f2, trace, disk.trace, n0);
    EffectTransitive(id, fs0, items, i, true, true, f0, f2, disk.files);
    IntactWhenUndisturbed(fs0, f2, disk.files, item);
    SamePlaceSameFate(fs0, disk.files, item, transaction.items[i]);
  }

  /** The states a whole Move or Restore passes through. */
  ghost predicate SafeTrace(id: string, fs0: FS, items: seq<Item>, r: Reach, away: bool, a: FS, trace: seq<FS>,
                            n: nat) {
    forall t | n <= t < |trace| :: Safe(id, fs0, trace[t], items) && Changes(items, r, away, a, trace[t])
  }

  lemma SafeTraceGrows(id: string, fs0: FS, items: seq<Item>, i: nat, ok: bool, r: Reach, s: Reach, away: bool, a: FS,
                       b: FS, trace: seq<FS>, trace': seq<FS>, n: nat)
    requires i < |items| && trace <= trace' && n <= |trace| && Within(r, s) && Within(One(i, ok), s)
    requires SafeTrace(id, fs0, items, r, away, a, trace, n) && Changes(items, r, away, a, b)
    requires EffectTrace(id, fs0, items, i, away, ok, b, trace', |trace|)
    ensures SafeTrace(id, fs0, items, s, away, a, trace', n)
  {
    hide Safe, Changes, Passable, Undisturbed;
    ChangesWiden(items, r, s, away, a, b);
    forall t | n <= t < |trace'|
      ensures Safe(id, fs0, trace'[t], items) && Changes(items, s, away, a, trace'[t])
    {
      if t < |trace| {
        assert trace'[t] == trace[t];
        ChangesWiden(items, r, s, away, a, trace[t]);
      } else {
        assert ItemEffect(id, fs0, items, i, away, ok, b, trace'[t]);
        ChangesWiden(items, One(i, ok), s, away, b, trace'[t]);
        ChangesTransitive(items, s, away, a, b, trace'[t]);
      }
    }
  }

  lemma TruthOfMove(fs0: FS, a: FS, b: FS, before: Item, after: Item)
    requires SamePlace(before, after) && before.status == Pending && TruthfulAfterMove(fs0, a, before)
    requires after.status == Moved ==> after.originalPath in fs0 && InQuarantine(fs0, b, after)
    requires after.status == Failed && AtOriginal(fs0, a, before) ==> AtOriginal(fs0, b, after)
    requires after.status in {Moved, Failed}
    ensures TruthfulAfterMove(fs0, b, after) && AtOriginal(fs0, a, before)
  {
  }

  /** What holds after i rounds of Move. */
  ghost predicate MoveProgress(id: string, fs0: FS, items: seq<Item>, now: seq<Item>, f0: FS, f: FS, trace: seq<FS>,
                               n: nat, i: nat, reliable: bool) {
    i <= |items| == |now| &&
    (forall j | 0 <= j < i :: MoveStep(items[j], now[j])) &&
    (forall j | i <= j < |items| :: items[j] == now[j]) &&
    (forall j | 0 <= j < |items| :: TruthfulAfterMove(fs0, f, now[j])) &&
    Safe(id, fs0, f, items) && Changes(items, ReachOf(items, now, true), true, f0, f) &&
    n <= |trace| && SafeTrace(id, fs0, items, ReachOf(items, now, true), true, f0, trace, n) &&
    (Passable(items, f0) ==> Passable(items, f)) &&
    (reliable && Passable(items, f0) ==>
       forall j | 0 <= j < i ::
         items[j].status == Pending && items[j].originalPath in fs0 ==> now[j].status == Moved)
  }

  lemma MoveAdvances(id: string, fs0: FS, items: seq<Item>, now: seq<Item>, now': seq<Item>, f0: FS, f: FS, f': FS,
                     trace: seq<FS>, trace': seq<FS>, n: nat, i: nat, reliable: bool)
    requires i < |items| && MoveProgress(id, fs0, items, now, f0, f, trace, n, i, reliable) && trace <= trace'
    requires now[i].status == Pending && |now'| == |now| && now' == now[i := now[i].(status := now'[i].status)]
    requires now'[i].status in {Moved, Failed}
    requires ItemEffect(id, fs0, items, i, true, now'[i].status == Moved, f, f')
    requires EffectTrace(id, fs0, items, i, true, now'[i].status == Moved, f, trace', |trace|)
    requires now'[i].status == Moved ==> now'[i].originalPath in fs0 && InQuarantine(fs0, f', now'[i])
    requires now'[i].status == Failed && AtOriginal(fs0, f, now[i]) ==> AtOriginal(fs0, f', now'[i])
    requires reliable && Passable(items, f) && AtOriginal(fs0, f, now[i]) && items[i].originalPath in fs0 ==>
               now'[i].status == Moved
    ensures MoveProgress(id, fs0, items, now', f0, f', trace', n, i + 1, reliable)
  {
    hide ItemEffect, Safe, Passable, Changes, Undisturbed, SafeTrace, EffectTrace, TruthfulAfterMove, ReachOf, Within,
         One;
    var ok, r, s := now'[i].status == Moved, ReachOf(items, now, true), ReachOf(items, now', true);
    ReachOfNext(items, now, now', i, true);
    EffectGives(id, fs0, items, i, true, ok, f, f');
    SafeTraceGrows(id, fs0, items, i, ok, r, s, true, f0, f, trace, trace', n);
    ChangesWiden(items, r, s, true, f0, f);
    ChangesWiden(items, One(i, ok), s, true, f, f');
    ChangesTransitive(items, s, true, f0, f, f');
    forall j | 0 <= j < |items|
      ensures TruthfulAfterMove(fs0, f', now'[j])
      ensures j == i ==> AtOriginal(fs0, f, now[i])
    {
      if j == i {
        TruthOfMove(fs0, f, f', now[i], now'[i]);
      } else {
        TruthfulWhenUndisturbed(fs0, f, f', items[j], now'[j]);
      }
    }
    assert MoveStep(items[i], now'[i]);
  }

  method Move(disk: Disk, transaction: Transaction, ghost fs0: FS)
    requires disk.Valid()
    requires Layout(transaction.items) && Safe(transaction.id, fs0, disk.files, transaction.items)
    requires forall i | 0 <= i < |transaction.items| :: TruthfulAfterMove(fs0, disk.files, transaction.items[i])
    modifies disk, transaction`items
    ensures disk.Valid() && old(disk.trace) <= disk.trace
    ensures MoveProgress(transaction.id, fs0, old(transaction.items), transaction.items, old(disk.files), disk.files,
                         disk.trace, |old(disk.trace)|, |old(transaction.items)|, disk.Reliable())
  {
    hide ItemEffect, Layout, Safe, Passable, Changes, TruthfulAfterMove, Undisturbed, MoveProgress, SamePlaces,
         AtOriginal, InQuarantine, DirsOnly;
    ghost var id, items, f0, n0 := transaction.id, transaction.items, disk.files, |disk.trace|;
    MoveStarts(id, fs0, items, f0, disk.trace, disk.Reliable());
    for i := 0 to |transaction.items|
      invariant |transaction.items| == |items|
      invariant disk.Valid() && old(disk.trace) <= disk.trace
      invariant MoveProgress(id, fs0, items, transaction.items, f0, disk.files, disk.trace, n0, i, disk.Reliable())
    {
      ghost var now, f, trace := transaction.items, disk.files, disk.trace;
      PlacesDuringMove(id, fs0, items, now, f0, f, trace, n0, i, disk.Reliable());
      if transaction.items[i].status == Pending {
        MoveItem(disk, transaction, i, fs0);
        ghost var ok := transaction.items[i].status == Moved;
        EffectOfSamePlaces(id, fs0, now, items, i, true, ok, f, disk.files);
        forall t | |trace| <= t < |disk.trace|
          ensures ItemEffect(id, fs0, items, i, true, ok, f, disk.trace[t])
        {
          EffectOfSamePlaces(id, fs0, now, items, i, true, ok, f, disk.trace[t]);
        }
        MoveAdvances(id, fs0, items, now, transaction.items, f0, f, disk.files, trace, disk.trace, n0, i,
                     disk.Reliable());
      } else {
        MoveSkips(id, fs0, items, now, f0, f, trace, n0, i, disk.Reliable());
      }
    }
  }

  lemma MoveStarts(id: string, fs0: FS, items: seq<Item>, f: FS, trace: seq<FS>, reliable: bool)
    requires Safe(id, fs0, f, items) && forall i | 0 <= i < |items| :: TruthfulAfterMove(fs0, f, items[i])
    ensures MoveProgress(id, fs0, items, items, f, f, trace, |trace|, 0, reliable)
  {
    hide Safe, Passable, Changes, TruthfulAfterMove;
    ChangesReflexive(items, ReachOf(items, items, true), true, f);
  }

  lemma PlacesDuringMove(id: string, fs0: FS, items: seq<Item>, now: seq<Item>, f0: FS, f: FS, trace: seq<FS>, n: nat,
                         i: nat, reliable: bool)
    requires MoveProgress(id, fs0, items, now, f0, f, trace, n, i, reliable) && i < |items| && Layout(items)
    ensures SamePlaces(now, items) && items[i] == now[i] && Layout(now) && Safe(id, fs0, f, now)
    ensures Passable(items, f) ==> Passable(now, f)
  {
    hide Safe, Passable, Changes, SafeTrace, TruthfulAfterMove, Layout;
    assert SamePlaces(items, now) by {
      forall j | 0 <= j < |items|
        ensures SamePlace(items[j], now[j])
      {
        assert j < i ==> MoveStep(items[j], now[j]);
      }
    }
    SamePlacesSymmetric(items, now);
    LayoutOfSamePlaces(items, now);
    SafeOfSamePlaces(id, fs0, f, items, now);
    if Passable(items, f) {
      PassableOfSamePlaces(items, now, f);
    }
  }

  lemma MoveSkips(id: string, fs0: FS, items: seq<Item>, now: seq<Item>, f0: FS, f: FS, trace: seq<FS>, n: nat, i: nat,
                  reliable: bool)
    requires i < |items| && MoveProgress(id, fs0, items, now, f0, f, trace, n, i, reliable)
    requires now[i].status != Pending
    ensures MoveProgress(id, fs0, items, now, f0, f, trace, n, i + 1, reliable)
  {
    hide Safe, Passable, Changes, SafeTrace, TruthfulAfterMove;
    assert MoveStep(items[i], now[i]);
  }

  /** Placement of a transaction's items. The digest that makes slot names distinct is left abstract. */
  datatype Engine = Engine(rootForPath: Option<(Path, string) -> Path>, slotName: (string, Path) -> string) {
    function Root(path: Path, id: string): Path {
      match rootForPath
      case Some(f) => f(path, id)
      case None => Dir(path) + [".libra-quarantine", id]
    }

    function Placed(id: string, item: Item): (r: Item) {
      var root := Root(item.originalPath, id);
      item.(quarantinePath := root + ["items", slotName(item.id, item.originalPath)],
            manifestPath := root + ["manifest.json"])
    }

    function PlacedAll(id: string, items: seq<Item>): (r: seq<Item>)
      ensures |r| == |items| && forall i | 0 <= i < |items| :: r[i] == Placed(id, items[i])
    {
      seq(|items|, i requires 0 <= i < |items| => Placed(id, items[i]))
    }
  }

  method Prepare(disk: Disk, engine: Engine, transaction: Transaction) returns (ok: bool)
    requires disk.Valid()
    modifies disk, transaction`items
    ensures disk.Valid() && old(disk.trace) <= disk.trace
    ensures transaction.items == engine.PlacedAll(transaction.id, old(transaction.items))
    ensures ManifestStep(transaction.id, transaction.items, old(disk.files), disk.files)
    ensures forall t | |old(disk.trace)| <= t < |disk.trace| ::
              ManifestStep(transaction.id, transaction.items, old(disk.files), disk.trace[t])
    ensures ok && ManifestPaths(transaction.items) !! TemporaryPaths(transaction.items) ==>
              forall i | 0 <= i < |transaction.items| ::
                RecordedOnDisk(transaction.id, disk.files, transaction.items[i])
    ensures disk.Reliable() && ManifestsApart(transaction.items) && Writable(transaction.items, old(disk.files)) ==> ok
  {
    hide ManifestStep, RecordedOnDisk, ManifestsApart, Writable, ManifestsCurrent;
    ghost var items := transaction.items;
    for i := 0 to |transaction.items|
      modifies transaction`items
      invariant |transaction.items| == |items|
      invariant forall j | 0 <= j < i :: transaction.items[j] == engine.Placed(transaction.id, items[j])
      invariant forall j | i <= j < |items| :: transaction.items[j] == items[j]
    {
      var root := engine.Root(transaction.items[i].originalPath, transaction.id);
      var name := engine.slotName(transaction.items[i].id, transaction.items[i].originalPath);
      transaction.items := transaction.items[i := transaction.items[i].(
        quarantinePath := root + ["items", name],
        manifestPath := root + ["manifest.json"])];
    }
    assert transaction.items == engine.PlacedAll(transaction.id, items);
    ok := WriteManifests(disk, transaction.id, transaction.items);
  }

  ghost predicate RelocatedTrace(items: seq<Item>, a: FS, trace: seq<FS>, n: nat) {
    forall t | n <= t < |trace| :: Relocated(items, a, trace[t])
  }

  /** What a round of Restore does on any disk at all. Only a RESTORED item is touched, with nothing but directories
      added for a FAILED one; and where the items keep apart, its whole tree is back and no other is disturbed. */
  ghost predicate Round(items: seq<Item>, i: nat, status: ItemStatus, a: FS, b: FS, trace: seq<FS>, n: nat,
                        reliable: bool)
    requires i < |items|
  {
    var ok := status == Restored;
    Changes(items, One(i, ok), false, a, b) && ChangesTrace(items, One(i, ok), false, a, trace, n) &&
    (Layout(items) ==>
       Brought(items, One(i, ok).done, a, b) && RelocatedTrace(items, a, trace, n) &&
       (Passable(items, a) ==> Passable(items, b)) &&
       (reliable && Passable(items, a) && items[i].quarantinePath in a && Vacant(a, items[i].originalPath) ==> ok)) &&
    (!ok ==> AddsDirs(a, b, Dir(items[i].originalPath))) &&
    (status == Skipped || Vacant(a, items[i].quarantinePath) ==> !ok && b == a && |trace| == n) &&
    (Vacant(a, items[i].quarantinePath) ==> status == if items[i].status == Skipped then Skipped else Failed)
  }

  lemma RoundOfNothing(items: seq<Item>, i: nat, status: ItemStatus, a: FS, trace: seq<FS>, reliable: bool)
    requires i < |items| && status in {Skipped, Failed}
    requires reliable && Layout(items) && Passable(items, a) ==>
               items[i].quarantinePath !in a || !Vacant(a, items[i].originalPath)
    requires Vacant(a, items[i].quarantinePath) ==> status == if items[i].status == Skipped then Skipped else Failed
    ensures Round(items, i, status, a, a, trace, |trace|, reliable)
  {
    hide Layout, Changes, Passable, Brought, Relocated;
    ChangesReflexive(items, One(i, false), false, a);
    BroughtReflexive(items, a);
    assert One(i, false).done == {};
  }

  /** Directories made on the way to the original path, but no more. */
  lemma RoundOfMkdir(items: seq<Item>, i: nat, a: FS, b: FS, trace: seq<FS>, n: nat, reliable: bool)
    requires i < |items| && AddsDirs(a, b, Dir(items[i].originalPath)) && n <= |trace|
    requires forall t | n <= t < |trace| :: AddsDirs(a, trace[t], Dir(items[i].originalPath))
    requires !Vacant(a, items[i].quarantinePath)
    requires !(reliable && Layout(items) && Passable(items, a) && items[i].quarantinePath in a)
    ensures Round(items, i, Failed, a, b, trace, n, reliable)
  {
    hide Layout, Changes, Passable, Brought, Relocated, AddsDirs;
    assert One(i, false).done == {};
    MkdirIsHarmless(items, i, false, a, b);
    MkdirTraceIsHarmless(items, i, false, a, trace, n);
    hide ChangesTrace, RelocatedTrace, One;
  }

  lemma MkdirIsHarmless(items: seq<Item>, i: nat, ok: bool, a: FS, b: FS)
    requires i < |items| && AddsDirs(a, b, Dir(items[i].originalPath))
    ensures Changes(items, One(i, ok), false, a, b)
    ensures Layout(items) ==> Brought(items, {}, a, b) && Relocated(items, a, b)
    ensures Passable(items, a) ==> Passable(items, b)
  {
    hide Layout, Changes, Passable, Brought, Relocated, AddsDirs;
    MkdirChanges(items, One(i, ok), false, i, a, b);
    if Layout(items) {
      MkdirBringsNone(items, i, a, b);
      BroughtMeansRelocated(items, {}, a, b);
    }
    if Passable(items, a) {
      PassableAfterMkdir(items, a, b, Dir(items[i].originalPath));
    }
  }

  /** Directories, and then the tree. */
  lemma RoundOfRename(items: seq<Item>, i: nat, a: FS, b: FS, trace: seq<FS>, n: nat, reliable: bool)
    requires i < |items| && AddsDirs(a, b, Dir(items[i].originalPath)) && n <= |trace|
    requires Vacant(a, items[i].originalPath) && CanRename(b, items[i].quarantinePath, items[i].originalPath)
    requires forall t | n <= t < |trace| :: AddsDirs(a, trace[t], Dir(items[i].originalPath))
    ensures var c := Renamed(b, items[i].quarantinePath, items[i].originalPath);
            Round(items, i, Restored, a, c, trace + [c], n, reliable) && BroughtBack(a, c, items[i])
  {
    var c := Renamed(b, items[i].quarantinePath, items[i].originalPath);
    hide Layout, Changes, Passable, Brought, Relocated, AddsDirs, CanRename, BroughtBack, Renamed, Vacant;
    RenameFillsOriginal(items[i], a, b);
    assert One(i, true).done == {i};
    RenameIsOne(items, i, a, b);
    MkdirTraceIsHarmless(items, i, true, a, trace, n);
    TracesGrow(items, One(i, true), a, trace, c, n);
    hide ChangesTrace, RelocatedTrace, One;
  }

  lemma MkdirTraceIsHarmless(items: seq<Item>, i: nat, ok: bool, a: FS, trace: seq<FS>, n: nat)
    requires i < |items| && forall t | n <= t < |trace| :: AddsDirs(a, trace[t], Dir(items[i].originalPath))
    ensures ChangesTrace(items, One(i, ok), false, a, trace, n)
    ensures Layout(items) ==> RelocatedTrace(items, a, trace, n)
  {
    hide Layout, Changes, Relocated, AddsDirs;
    forall t | n <= t < |trace|
      ensures Changes(items, One(i, ok), false, a, trace[t])
      ensures Layout(items) ==> Relocated(items, a, trace[t])
    {
      MkdirIsHarmless(items, i, ok, a, trace[t]);
    }
  }

  lemma TracesGrow(items: seq<Item>, r: Reach, a: FS, trace: seq<FS>, c: FS, n: nat)
    requires n <= |trace|
    ensures ChangesTrace(items, r, false, a, trace, n) && Changes(items, r, false, a, c) ==>
              ChangesTrace(items, r, false, a, trace + [c], n)
    ensures RelocatedTrace(items, a, trace, n) && Relocated(items, a, c) ==> RelocatedTrace(items, a, trace + [c], n)
  {
    hide Changes, Relocated;
  }

  lemma RenameIsOne(items: seq<Item>, i: nat, a: FS, b: FS)
    requires i < |items| && AddsDirs(a, b, Dir(items[i].originalPath)) && Vacant(a, items[i].originalPath)
    requires CanRename(b, items[i].quarantinePath, items[i].originalPath)
    ensures var c := Renamed(b, items[i].quarantinePath, items[i].originalPath);
            Changes(items, One(i, true), false, a, c) &&
            (Layout(items) ==>
               Brought(items, {i}, a, c) && Relocated(items, a, c) && (Passable(items, a) ==> Passable(items, c)))
  {
    var c := Renamed(b, items[i].quarantinePath, items[i].originalPath);
    StillVacant(a, b, items[i].originalPath);
    RenameFillsOriginal(items[i], a, b);
    hide Layout, Changes, Passable, Brought, Relocated, AddsDirs, CanRename, BroughtBack, Renamed, Vacant;
    MkdirIsHarmless(items, i, true, a, b);
    RenameChanges(items, One(i, true), false, i, b);
    ChangesTransitive(items, One(i, true), false, a, b, c);
    if Layout(items) {
      RenameBringsOne(items, i, b);
      BroughtJoins(items, {}, {i}, a, b, c);
      assert {} + {i} == {i};
      BroughtMeansRelocated(items, {i}, a, c);
      if Passable(items, a) {
        PassableAfterRename(items, i, false, b);
      }
    }
  }

  lemma RenameFillsOriginal(item: Item, a: FS, b: FS)
    requires AddsDirs(a, b, Dir(item.originalPath)) && Vacant(a, item.originalPath)
    requires CanRename(b, item.quarantinePath, item.originalPath)
    ensures BroughtBack(a, Renamed(b, item.quarantinePath, item.originalPath), item)
    ensures item.quarantinePath in b && !Vacant(a, item.quarantinePath)
  {
    var q, o := item.quarantinePath, item.originalPath;
    assert Dir(o) <= o;
    assert !(q <= Dir(o)) by {
      if q <= Dir(o) {
        ContainmentIsPartialOrder(o, Dir(o), q);
      }
    }
    MkdirKeepsTree(a, b, Dir(o), q);
    RenameMovesTree(b, q, o);
    assert q in a;
  }

  /** The manifests written after a tree was brought back add nothing to that. */
  lemma RoundThenManifests(id: string, items: seq<Item>, items': seq<Item>, i: nat, a: FS, b: FS, c: FS, trace: seq<FS>,
                           trace': seq<FS>, n: nat, reliable: bool)
    requires i < |items| && Round(items, i, Restored, a, b, trace, n, reliable) && n <= |trace| && trace <= trace'
    requires SamePlaces(items, items') && ManifestStep(id, items', b, c)
    requires forall t | |trace| <= t < |trace'| :: ManifestStep(id, items', b, trace'[t])
    ensures Round(items, i, Restored, a, c, trace', n, reliable)
  {
    hide Layout, Changes, Passable, Brought, Relocated, AddsDirs, ManifestStep, Vacant, SamePlaces;
    var r := One(i, true);
    forall t | |trace| <= t < |trace'|
      ensures Changes(items, r, false, b, trace'[t])
    {
      ManifestStepChanges(id, items, items', r, false, b, trace'[t]);
    }
    ManifestStepChanges(id, items, items', r, false, b, c);
    ChangesTransitive(items, r, false, a, b, c);
    ChangesTraceJoins(items, r, false, a, b, trace, trace', n);
    if Layout(items) {
      ManifestsKeepBrought(id, items, items', r.done, a, b, c);
      forall t | n <= t < |trace'|
        ensures Relocated(items, a, trace'[t])
      {
        if t < |trace| {
          assert trace'[t] == trace[t];
        } else {
          ManifestsKeepBrought(id, items, items', r.done, a, b, trace'[t]);
        }
      }
    }
  }

  lemma ManifestsKeepBrought(id: string, items: seq<Item>, items': seq<Item>, done: set<int>, a: FS, b: FS, c: FS)
    requires Layout(items) && Brought(items, done, a, b) && SamePlaces(items, items') && ManifestStep(id, items', b, c)
    ensures Brought(items, done, a, c) && Relocated(items, a, c)
    ensures Passable(items, b) ==> Passable(items, c)
  {
    hide Layout, Passable, Brought, Relocated, ManifestStep, SamePlaces, Undisturbed;
    ManifestsBringNone(id, items, items', b, c);
    ManifestsDisturbNone(id, items, items', b, c);
    BroughtJoins(items, done, {}, a, b, c);
    assert done + {} == done;
    BroughtMeansRelocated(items, done, a, c);
  }

  /** Every item that a manifest named stays named, in every state from number n on. */
  ghost predicate NamesKept(id: string, items: seq<Item>, a: FS, b: FS, trace: seq<FS>, n: nat) {
    StaysNamed(id, items, a, b) && forall t | n <= t < |trace| :: StaysNamed(id, items, a, trace[t])
  }

  ghost predicate StaysNamed(id: string, items: seq<Item>, a: FS, b: FS) {
    forall j | 0 <= j < |items| && RecordedOnDisk(id, a, items[j]) :: RecordedOnDisk(id, b, items[j])
  }

  lemma NamesKeptByNothing(id: string, items: seq<Item>, a: FS, trace: seq<FS>)
    ensures NamesKept(id, items, a, a, trace, |trace|)
  {
    hide RecordedOnDisk;
  }

  lemma NamesKeptJoin(id: string, items: seq<Item>, a: FS, b: FS, c: FS, trace: seq<FS>, trace': seq<FS>, n: nat)
    requires n <= |trace| && trace <= trace'
    requires NamesKept(id, items, a, b, trace, n) && NamesKept(id, items, b, c, trace', |trace|)
    ensures NamesKept(id, items, a, c, trace', n)
  {
    hide RecordedOnDisk;
    forall t | n <= t < |trace'|
      ensures StaysNamed(id, items, a, trace'[t])
    {
      if t < |trace| {
        assert trace'[t] == trace[t];
      } else {
        assert StaysNamed(id, items, b, trace'[t]);
      }
    }
  }

  lemma NamesKeptByMkdir(id: string, items: seq<Item>, a: FS, b: FS, d: Path, trace: seq<FS>, n: nat)
    requires AddsDirs(a, b, d) && forall t | n <= t < |trace| :: AddsDirs(a, trace[t], d)
    ensures NamesKept(id, items, a, b, trace, n)
  {
  }

  /** A rename that brings an item back, done or refused. */
  lemma NamesKeptByRename(id: string, items: seq<Item>, i: nat, a: FS, b: FS, trace: seq<FS>)
    requires i < |items| && Layout(items)
    requires b == a || b == Renamed(a, items[i].quarantinePath, items[i].originalPath)
    ensures NamesKept(id, items, a, b, trace + [b], |trace|)
  {
    hide RecordedOnDisk, Renamed;
    forall j | 0 <= j < |items| && RecordedOnDisk(id, a, items[j])
      ensures RecordedOnDisk(id, b, items[j])
    {
      assert OffLimits(items[i], items[j].manifestPath);
      if b != a {
        RecordedAfterRename(id, a, items[i].quarantinePath, items[i].originalPath, items[j]);
      }
    }
  }

  lemma NamesKeptByManifests(id: string, items: seq<Item>, items': seq<Item>, a: FS, b: FS, trace: seq<FS>, n: nat)
    requires Layout(items) && SamePlaces(items, items') && ManifestStep(id, items', a, b)
    requires forall t | n <= t < |trace| :: ManifestStep(id, items', a, trace[t])
    ensures NamesKept(id, items, a, b, trace, n)
  {
    hide ManifestStep, Layout, RecordedOnDisk;
    ManifestsKeepNames(id, items, items', a, b);
    forall t | n <= t < |trace|
      ensures StaysNamed(id, items, a, trace[t])
    {
      ManifestsKeepNames(id, items, items', a, trace[t]);
    }
  }

  lemma ManifestsKeepNames(id: string, items: seq<Item>, items': seq<Item>, a: FS, b: FS)
    requires Layout(items) && SamePlaces(items, items') && ManifestStep(id, items', a, b)
    ensures StaysNamed(id, items, a, b)
  {
    LayoutOfSamePlaces(items, items');
    LayoutSeparatesDrafts(items');
    hide ManifestStep, Layout;
    forall j | 0 <= j < |items| && RecordedOnDisk(id, a, items[j])
      ensures RecordedOnDisk(id, b, items[j])
    {
      SamePlaceSameName(id, a, items[j], items'[j]);
      SamePlaceSameName(id, b, items[j], items'[j]);
      ManifestRecords(id, items', a, b, j);
    }
  }

  lemma SamePlaceSameName(id: string, fs: FS, x: Item, y: Item)
    requires SamePlace(x, y)
    ensures RecordedOnDisk(id, fs, x) <==> RecordedOnDisk(id, fs, y)
  {
    if RecordedOnDisk(id, fs, x) || RecordedOnDisk(id, fs, y) {
      var m := fs[x.manifestPath].data.manifest;
      assert forall j | 0 <= j < |m.items| :: SamePlace(m.items[j], x) <==> SamePlace(m.items[j], y);
    }
  }

  lemma NamesKeptOfSamePlaces(id: string, items: seq<Item>, items': seq<Item>, a: FS, b: FS, trace: seq<FS>, n: nat)
    requires SamePlaces(items, items') && NamesKept(id, items', a, b, trace, n)
    ensures NamesKept(id, items, a, b, trace, n)
  {
    hide RecordedOnDisk;
    forall fs, j | 0 <= j < |items|
      ensures RecordedOnDisk(id, fs, items[j]) <==> RecordedOnDisk(id, fs, items'[j])
    {
      SamePlaceSameName(id, fs, items[j], items'[j]);
    }
  }

  /** The two system calls that bring a tree back. */
  method MoveBack(disk: Disk, quarantinePath: Path, originalPath: Path, ghost id: string, ghost fs0: FS,
                  ghost items: seq<Item>, ghost i: nat) returns (ok: bool)
    requires disk.Valid() && i < |items|
    requires quarantinePath == items[i].quarantinePath && originalPath == items[i].originalPath
    requires quarantinePath in disk.files && Vacant(disk.files, originalPath)
    modifies disk
    ensures disk.Valid() && old(disk.trace) <= disk.trace
    ensures Round(items, i, if ok then Restored else Failed, old(disk.files), disk.files, disk.trace, |old(disk.trace)|,
                  disk.Reliable())
    ensures ok ==> BroughtBack(old(disk.files), disk.files, items[i])
    ensures Layout(items) ==>
              NamesKept(id, items, old(disk.files), disk.files, disk.trace, |old(disk.trace)|)
    ensures Layout(items) && Safe(id, fs0, old(disk.files), items) ==>
              ItemEffect(id, fs0, items, i, false, ok, old(disk.files), disk.files) &&
              Safe(id, fs0, disk.files, items) &&
              EffectTrace(id, fs0, items, i, false, ok, old(disk.files), disk.trace, |old(disk.trace)|) &&
              (ok ==> AtOriginal(fs0, disk.files, items[i]))
  {
    hide ItemEffect, Layout, Safe, Passable, Changes, AddsDirs, Undisturbed, AtOriginal, InQuarantine, Renamed,
         DirsOnly, Vacant, Round, BroughtBack, DirsExist, CanRename, NamesKept;
    ghost var f0, n0 := disk.files, |disk.trace|;
    OccupiedIsNotVacant(f0, quarantinePath);
    ghost var safe := Layout(items) && Safe(id, fs0, f0, items);
    ok := disk.MkdirAll(Dir(originalPath));
    ghost var f1, n1, trace1 := disk.files, |disk.trace|, disk.trace;
    if safe {
      MkdirTrace(id, fs0, items, i, false, f0, f1, disk.trace, n0);
    }
    WayBack(items, i, f0, f1);
    NamesKeptByMkdir(id, items, f0, f1, Dir(originalPath), disk.trace, n0);
    if !ok {
      RoundOfMkdir(items, i, f0, f1, disk.trace, n0, disk.Reliable());
      return;
    }
    ok := disk.Rename(quarantinePath, originalPath);
    if Layout(items) {
      NamesKeptByRename(id, items, i, f1, disk.files, trace1);
      NamesKeptJoin(id, items, f0, f1, disk.files, trace1, disk.trace, n0);
    }
    if !ok {
      assert disk.trace[n1] == f1;
      RoundOfMkdir(items, i, f0, f1, disk.trace, n0, disk.Reliable());
      if safe {
        MkdirTrace(id, fs0, items, i, false, f0, f1, disk.trace, n0);
      }
      return;
    }
    RoundOfRename(items, i, f0, f1, trace1, n0, disk.Reliable());
    if safe {
      OccupiedSourceDecides(id, fs0, items, i, false, f1);
      EffectOfRename(id, fs0, items, i, false, f1);
      EffectTransitive(id, fs0, items, i, false, true, f0, f1, disk.files);
    }
  }

  lemma OccupiedIsNotVacant(fs: FS, p: Path)
    ensures p in fs ==> !Vacant(fs, p)
  {
  }

  /** With the way free and the slot filled, a willing system lets the tree through. */
  lemma WayBack(items: seq<Item>, i: nat, a: FS, b: FS)
    requires i < |items| && AddsDirs(a, b, Dir(items[i].originalPath))
    requires items[i].quarantinePath in a && Vacant(a, items[i].originalPath)
    ensures Passable(items, a) ==> DirsOnly(a, Dir(items[i].originalPath))
    ensures Layout(items) && DirsExist(b, Dir(items[i].originalPath)) ==>
              CanRename(b, items[i].quarantinePath, items[i].originalPath)
  {
    StillVacant(a, b, items[i].originalPath);
    assert items[i].quarantinePath in b;
    hide Layout, AddsDirs, Vacant, CanRename, DirsExist;
    if Layout(items) {
      PassageAndSource(items, i, false, a, b);
    }
  }

  /** The checks before a tree is brought back, and what becomes of the item. */
  method BringBack(disk: Disk, item: Item, ghost id: string, ghost fs0: FS, ghost items: seq<Item>, ghost i: nat)
      returns (status: ItemStatus)
    requires disk.Valid() && i < |items| && items[i] == item && item.status in {Moved, Skipped}
    modifies disk
    ensures disk.Valid() && old(disk.trace) <= disk.trace
    ensures status in {Restored, Skipped, Failed}
    ensures Round(items, i, status, old(disk.files), disk.files, disk.trace, |old(disk.trace)|, disk.Reliable())
    ensures status == Restored ==> BroughtBack(old(disk.files), disk.files, item)
    ensures !disk.grants(old(disk.tick)) ==> status == if item.status == Skipped then Skipped else Failed
    ensures item.quarantinePath in old(disk.files) && disk.grants(old(disk.tick)) ==>
              (!disk.grants(old(disk.tick) + 1) ==> status == Failed) &&
              (disk.grants(old(disk.tick) + 1) && item.originalPath in old(disk.files) ==> status == Skipped)
    ensures !Vacant(old(disk.files), item.originalPath) ==>
              disk.files == old(disk.files) && disk.trace == old(disk.trace) && status in {Skipped, Failed} &&
              (disk.Reliable() && item.quarantinePath in old(disk.files) && item.originalPath in old(disk.files) ==>
                 status == Skipped)
    ensures Layout(items) ==>
              NamesKept(id, items, old(disk.files), disk.files, disk.trace, |old(disk.trace)|)
    ensures Layout(items) && Safe(id, fs0, old(disk.files), items) ==>
              RestoredItem(id, fs0, items, i, status, old(disk.files), disk.files, disk.trace, |old(disk.trace)|) &&
              Safe(id, fs0, disk.files, items)
  {
    hide ItemEffect, Layout, Safe, Passable, Changes, Undisturbed, AtOriginal, InQuarantine, Vacant, Round, BroughtBack,
         DirsOnly, NamesKept;
    ghost var f0 := disk.files;
    if Layout(items) && Safe(id, fs0, f0, items) {
      EffectReflexive(id, fs0, items, i, false, false, f0);
    }
    OccupiedIsNotVacant(f0, item.quarantinePath);
    WayIsFree(items, i, f0);
    NamesKeptByNothing(id, items, f0, disk.trace);

    var found := disk.Lstat(item.quarantinePath);
    if !found.Found? {
      status := if item.status == Skipped then Skipped else Failed;
      RoundOfNothing(items, i, status, f0, disk.trace, disk.Reliable());
    } else {
      var occupied := disk.Lstat(item.originalPath);
      if !occupied.NotExist? {
        status := if occupied.Found? then Skipped else Failed;
        OccupiedIsNotVacant(f0, item.originalPath);
        RoundOfNothing(items, i, status, f0, disk.trace, disk.Reliable());
      } else {
        var ok := MoveBack(disk, item.quarantinePath, item.originalPath, id, fs0, items, i);
        status := if ok then Restored else Failed;
      }
    }
  }

  lemma WayIsFree(items: seq<Item>, i: nat, fs: FS)
    requires i < |items|
    ensures Passable(items, fs) ==> DirsOnly(fs, Dir(items[i].originalPath))
  {
  }

  /** One round of the loop of Restore, for an item that is MOVED or SKIPPED. */
  method RestoreItem(disk: Disk, transaction: Transaction, i: nat, ghost fs0: FS)
    requires disk.Valid() && i < |transaction.items| && transaction.items[i].status in {Moved, Skipped}
    modifies disk, transaction`items
    ensures disk.Valid() && old(disk.trace) <= disk.trace
    ensures |transaction.items| == |old(transaction.items)|
    ensures transaction.items ==
              old(transaction.items)[i := old(transaction.items)[i].(status := transaction.items[i].status)]
    ensures RestoreStep(old(transaction.items)[i], transaction.items[i])
    ensures Round(old(transaction.items), i, transaction.items[i].status, old(disk.files), disk.files, disk.trace,
                  |old(disk.trace)|, disk.Reliable())
    ensures !disk.grants(old(disk.tick)) ==>
              transaction.items[i].status == if old(transaction.items)[i].status == Skipped then Skipped else Failed
    ensures transaction.items[i].quarantinePath in old(disk.files) && disk.grants(old(disk.tick)) ==>
              (!disk.grants(old(disk.tick) + 1) ==> transaction.items[i].status == Failed) &&
              (disk.grants(old(disk.tick) + 1) && transaction.items[i].originalPath in old(disk.files) ==>
                 transaction.items[i].status == Skipped)
    ensures !Vacant(old(disk.files), transaction.items[i].originalPath) ==>
              disk.files == old(disk.files) && disk.trace == old(disk.trace) &&
              transaction.items[i].status in {Skipped, Failed} &&
              (disk.Reliable() && transaction.items[i].quarantinePath in old(disk.files) &&
               transaction.items[i].originalPath in old(disk.files) ==>
                 transaction.items[i].status == Skipped)
    ensures Layout(old(transaction.items)) ==>
              NamesKept(transaction.id, old(transaction.items), old(disk.files), disk.files, disk.trace,
                        |old(disk.trace)|)
    ensures Layout(old(transaction.items)) && Safe(transaction.id, fs0, old(disk.files), old(transaction.items)) ==>
              RestoredItem(transaction.id, fs0, old(transaction.items), i, transaction.items[i].status,
                           old(disk.files), disk.files, disk.trace, |old(disk.trace)|)
  {
    hide ItemEffect, Layout, Safe, Passable, Changes, ChangesTrace, EffectTrace, Undisturbed, AtOriginal, InQuarantine,
         Vacant, Round, BroughtBack, ManifestStep, NamesKept;
    ghost var id, items, f0, n0 := transaction.id, transaction.items, disk.files, |disk.trace|;
    ghost var safe := Layout(items) && Safe(id, fs0, f0, items);
    var item := transaction.items[i];
    var status := BringBack(disk, item, id, fs0, items, i);
    ghost var f2, trace := disk.files, disk.trace;
    transaction.items := transaction.items[i := item.(status := status)];
    if status == Restored {
      RecordStatus(disk, transaction, false, fs0, items, i);
      RoundThenManifests(id, items, transaction.items, i, f0, f2, disk.files, trace, disk.trace, n0, disk.Reliable());
      if Layout(items) {
        NamesKeptByManifests(id, items, transaction.items, f2, disk.files, disk.trace, |trace|);
        NamesKeptJoin(id, items, f0, f2, disk.files, trace, disk.trace, n0);
      }
      if safe {
        EffectTraceJoins(id, fs0, items, i, false, true, f0, f2, trace, disk.trace, n0);
        EffectTransitive(id, fs0, items, i, false, true, f0, f2, disk.files);
        IntactWhenUndisturbed(fs0, f2, disk.files, item);
      }
    }
  }

  /** What a round of Restore achieves on a safe disk. */
  ghost predicate RestoredItem(id: string, fs0: FS, items: seq<Item>, i: nat, status: ItemStatus, a: FS, b: FS,
                               trace: seq<FS>, n: nat)
    requires i < |items|
  {
    ItemEffect(id, fs0, items, i, false, status == Restored, a, b) &&
    EffectTrace(id, fs0, items, i, false, status == Restored, a, trace, n) &&
    (status == Restored ==> AtOriginal(fs0, b, items[i]))
  }

  /** What holds after i rounds of Restore on any disk at all: only items that are RESTORED now were touched, and where
      the items keep apart each of them has the whole tree that its slot held, all others being as they were. */
  ghost predicate RestoreProgress(items: seq<Item>, now: seq<Item>, f0: FS, f: FS, trace: seq<FS>, n: nat, i: nat,
                                  reliable: bool) {
    i <= |items| == |now| &&
    (forall j | 0 <= j < i :: RestoreStep(items[j], now[j])) &&
    (forall j | i <= j < |items| :: items[j] == now[j]) &&
    n <= |trace| && Changes(items, ReachOf(items, now, false), false, f0, f) &&
    ChangesTrace(items, ReachOf(items, now, false), false, f0, trace, n) &&
    (Layout(items) ==>
       Brought(items, ReachOf(items, now, false).done, f0, f) && RelocatedTrace(items, f0, trace, n) &&
       (Passable(items, f0) ==> Passable(items, f)) &&
       (reliable && Passable(items, f0) ==> AllBack(items, now, f0, i)) && EmptyStays(items, now, f0, i)) &&
    (ReachOf(items, now, false).done == {} ==> OnlyDirs(items, ReachOf(items, now, false), f0, f)) &&
    (ReachOf(items, now, false).tried == {} ==> f == f0 && |trace| == n) &&
    (NothingToRestore(items, f0) ==> f == f0 && |trace| == n && ReachOf(items, now, false).done == {})
  }

  /** Every item looked at so far whose slot was filled and whose original path was free is RESTORED. */
  ghost predicate AllBack(items: seq<Item>, now: seq<Item>, f0: FS, i: nat)
    requires i <= |items| == |now|
  {
    forall j | 0 <= j < i && Looked(items[j], false) && items[j].quarantinePath in f0 &&
               Vacant(f0, items[j].originalPath) ::
      now[j].status == Restored
  }

  /** An item looked at whose slot was empty stays SKIPPED, or FAILED to come back. */
  ghost predicate EmptyStays(items: seq<Item>, now: seq<Item>, f0: FS, i: nat)
    requires i <= |items| == |now|
  {
    forall j | 0 <= j < i && Looked(items[j], false) && Vacant(f0, items[j].quarantinePath) ::
      now[j].status == if items[j].status == Skipped then Skipped else Failed
  }

  /** Nothing but directories, on the way to the original paths of items that FAILED. */
  ghost predicate OnlyDirs(items: seq<Item>, r: Reach, a: FS, b: FS) {
    (forall k | k in a :: k in b && b[k] == a[k]) &&
    (forall k | k in b && k !in a ::
       b[k].Directory? && exists j | 0 <= j < |items| :: j in r.tried && k <= Dir(items[j].originalPath))
  }

  ghost predicate NothingToRestore(items: seq<Item>, f: FS) {
    forall j | 0 <= j < |items| && items[j].status in {Moved, Skipped} :: Vacant(f, items[j].quarantinePath)
  }

  ghost predicate AllTruthful(fs0: FS, f: FS, items: seq<Item>) {
    forall j | 0 <= j < |items| :: Truthful(fs0, f, items[j])
  }

  /** ... and on a disk that was safe to begin with. */
  ghost predicate SafeRestore(id: string, fs0: FS, items: seq<Item>, now: seq<Item>, f0: FS, f: FS, trace: seq<FS>,
                              n: nat, i: nat) {
    i <= |items| == |now| && n <= |trace| &&
    Safe(id, fs0, f, items) && SafeTrace(id, fs0, items, ReachOf(items, now, false), false, f0, trace, n) &&
    (AllTruthful(fs0, f0, items) ==> AllTruthful(fs0, f, now))
  }

  /** Where statuses tell the truth, a willing system restores every MOVED item that existed. */
  lemma MovedComesBack(fs0: FS, items: seq<Item>, now: seq<Item>, f0: FS, f: FS, trace: seq<FS>, n: nat, j: nat)
    requires RestoreProgress(items, now, f0, f, trace, n, |items|, true) && Layout(items) && Passable(items, f0)
    requires j < |items| && items[j].status == Moved && Truthful(fs0, f0, items[j]) && items[j].originalPath in fs0
    ensures |now| == |items| && now[j].status == Restored
  {
    hide Layout, Passable, Changes, ChangesTrace, Brought, RelocatedTrace, NothingToRestore, OnlyDirs, EmptyStays,
         Vacant, ReachOf;
    WholeTreeIsThere(fs0, f0, items[j], false);
  }

  lemma RestoreStarts(id: string, fs0: FS, items: seq<Item>, f: FS, trace: seq<FS>, reliable: bool)
    ensures RestoreProgress(items, items, f, f, trace, |trace|, 0, reliable)
    ensures Safe(id, fs0, f, items) ==> SafeRestore(id, fs0, items, items, f, f, trace, |trace|, 0)
  {
    hide Safe, Passable, Changes, AllTruthful, Layout, Brought;
    ChangesReflexive(items, ReachOf(items, items, false), false, f);
    BroughtReflexive(items, f);
    assert ReachOf(items, items, false).done == {};
  }

  lemma PlacesDuringRestore(items: seq<Item>, now: seq<Item>, f0: FS, f: FS, trace: seq<FS>, n: nat, i: nat,
                            reliable: bool)
    requires RestoreProgress(items, now, f0, f, trace, n, i, reliable)
    ensures SamePlaces(items, now) && SamePlaces(now, items)
  {
    hide Changes, ChangesTrace, NothingToRestore, Layout, Brought, RelocatedTrace, Passable, OnlyDirs, AllBack,
         EmptyStays, ReachOf;
    forall j | 0 <= j < |items|
      ensures SamePlace(items[j], now[j])
    {
      assert j < i ==> RestoreStep(items[j], now[j]);
    }
    SamePlacesSymmetric(items, now);
  }

  lemma RoundOfSamePlaces(items: seq<Item>, items': seq<Item>, i: nat, status: ItemStatus, a: FS, b: FS, trace: seq<FS>,
                          n: nat, reliable: bool)
    requires SamePlaces(items, items') && SamePlaces(items', items) && i < |items| && items[i] == items'[i]
    requires Round(items, i, status, a, b, trace, n, reliable)
    ensures Round(items', i, status, a, b, trace, n, reliable)
  {
    hide Layout, Passable, Changes, Brought, Relocated, AddsDirs, Vacant;
    assert SamePlace(items[i], items'[i]);
    var ok := status == Restored;
    ChangesOfSamePlaces(items, items', One(i, ok), false, a, b);
    forall t | n <= t < |trace|
      ensures Changes(items', One(i, ok), false, a, trace[t])
    {
      ChangesOfSamePlaces(items, items', One(i, ok), false, a, trace[t]);
    }
    if Layout(items') {
      LayoutOfSamePlaces(items', items);
      BroughtOfSamePlaces(items, items', One(i, ok).done, a, b);
      forall t | n <= t < |trace|
        ensures Relocated(items', a, trace[t])
      {
        RelocatedOfSamePlaces(items, items', a, trace[t]);
      }
      if Passable(items', a) {
        PassableOfSamePlaces(items', items, a);
        PassableOfSamePlaces(items, items', b);
      }
    }
  }

  /** Rounds add up: what may have changed ... */
  lemma RoundWidens(items: seq<Item>, now: seq<Item>, now': seq<Item>, i: nat, f0: FS, f: FS, f': FS, trace: seq<FS>,
                    trace': seq<FS>, n: nat, reliable: bool)
    requires i < |items| == |now| == |now'| && now' == now[i := now'[i]] && now[i] == items[i]
    requires Looked(items[i], false)
    requires n <= |trace| && trace <= trace' && now'[i].status in {Restored, Skipped, Failed}
    requires Changes(items, ReachOf(items, now, false), false, f0, f)
    requires ChangesTrace(items, ReachOf(items, now, false), false, f0, trace, n)
    requires Round(items, i, now'[i].status, f, f', trace', |trace|, reliable)
    ensures Changes(items, ReachOf(items, now', false), false, f0, f')
    ensures ChangesTrace(items, ReachOf(items, now', false), false, f0, trace', n)
  {
    hide Layout, Passable, Changes, Brought, RelocatedTrace, AddsDirs, Vacant, ChangesTrace, ReachOf, One;
    var r, s, one := ReachOf(items, now, false), ReachOf(items, now', false), One(i, now'[i].status == Restored);
    ReachOfNext(items, now, now', i, false);
    ChangesWiden(items, r, s, false, f0, f);
    ChangesTraceWidens(items, r, s, false, f0, trace, n);
    if now'[i].status == Skipped {
      assert trace' == trace;
    } else {
      ChangesWiden(items, one, s, false, f, f');
      ChangesTraceWidens(items, one, s, false, f, trace', |trace|);
      ChangesTransitive(items, s, false, f0, f, f');
      ChangesTraceJoins(items, s, false, f0, f, trace, trace', n);
    }
  }

  /** ... and where each tree is. */
  lemma RoundRelocates(items: seq<Item>, done: set<int>, i: nat, status: ItemStatus, f0: FS, f: FS, f': FS,
                       trace: seq<FS>, trace': seq<FS>, n: nat, reliable: bool)
    requires i < |items| && i !in done && Layout(items) && n <= |trace| && trace <= trace'
    requires Brought(items, done, f0, f) && RelocatedTrace(items, f0, trace, n)
    requires Round(items, i, status, f, f', trace', |trace|, reliable)
    ensures Brought(items, done + if status == Restored then {i} else {}, f0, f')
    ensures RelocatedTrace(items, f0, trace', n)
    ensures Passable(items, f) ==> Passable(items, f')
  {
    hide Layout, Passable, Changes, Brought, Relocated, AddsDirs, Vacant, ChangesTrace;
    BroughtJoins(items, done, One(i, status == Restored).done, f0, f, f');
    forall t | n <= t < |trace'|
      ensures Relocated(items, f0, trace'[t])
    {
      if t < |trace| {
        assert trace'[t] == trace[t];
      } else {
        RelocatedAfterBrought(items, done, f0, f, trace'[t]);
      }
    }
  }

  lemma RelocatedAfterBrought(items: seq<Item>, done: set<int>, a: FS, b: FS, c: FS)
    requires Brought(items, done, a, b) && Relocated(items, b, c)
    ensures Relocated(items, a, c)
  {
    hide BroughtBack, Undisturbed;
    forall j | 0 <= j < |items|
      ensures Undisturbed(a, c, items[j]) || BroughtBack(a, c, items[j])
    {
      DisturbanceJoins(a, b, c, items[j]);
      BroughtOnlyOnce(a, b, c, items[j]);
    }
  }

  lemma BroughtOnlyOnce(a: FS, b: FS, c: FS, item: Item)
    ensures !(BroughtBack(a, b, item) && BroughtBack(b, c, item))
  {
  }

  lemma RestoreAdvances(items: seq<Item>, now: seq<Item>, now': seq<Item>, f0: FS, f: FS, f': FS, trace: seq<FS>,
                        trace': seq<FS>, n: nat, i: nat, reliable: bool)
    requires RestoreProgress(items, now, f0, f, trace, n, i, reliable) && i < |items| && trace <= trace'
    requires |now'| == |now| && now' == now[i := now[i].(status := now'[i].status)] && RestoreStep(now[i], now'[i])
    requires now[i].status in {Moved, Skipped} && Round(now, i, now'[i].status, f, f', trace', |trace|, reliable)
    ensures RestoreProgress(items, now', f0, f', trace', n, i + 1, reliable)
  {
    hide Layout, Passable, Changes, Brought, RelocatedTrace, AddsDirs, ChangesTrace, AllBack, OnlyDirs, ReachOf, Round,
         EmptyStays, NothingToRestore, Relocated, Undisturbed, BroughtBack, Vacant, TreeAt;
    PlacesDuringRestore(items, now, f0, f, trace, n, i, reliable);
    RoundOfSamePlaces(now, items, i, now'[i].status, f, f', trace', |trace|, reliable);
    RoundWidens(items, now, now', i, f0, f, f', trace, trace', n, reliable);
    RoundAddsDirs(items, now, now', f0, f, f', trace, trace', n, i, reliable);
    if Layout(items) {
      RestoreOfLayout(items, now, now', f0, f, f', trace, trace', n, i, reliable);
    }
  }

  /** What a round adds where the items keep apart. */
  lemma RestoreOfLayout(items: seq<Item>, now: seq<Item>, now': seq<Item>, f0: FS, f: FS, f': FS, trace: seq<FS>,
                        trace': seq<FS>, n: nat, i: nat, reliable: bool)
    requires RestoreProgress(items, now, f0, f, trace, n, i, reliable) && i < |items| && trace <= trace'
    requires |now'| == |now| && now' == now[i := now'[i]] && now'[i].status in {Restored, Skipped, Failed}
    requires Looked(items[i], false) && Layout(items)
    requires Round(items, i, now'[i].status, f, f', trace', |trace|, reliable)
    ensures Brought(items, ReachOf(items, now', false).done, f0, f') && RelocatedTrace(items, f0, trace', n)
    ensures Passable(items, f0) ==> Passable(items, f')
    ensures reliable && Passable(items, f0) ==> AllBack(items, now', f0, i + 1)
    ensures EmptyStays(items, now', f0, i + 1)
  {
    hide Layout, Passable, Changes, Brought, RelocatedTrace, AddsDirs, ChangesTrace, AllBack, OnlyDirs, Round,
         EmptyStays, NothingToRestore, Relocated, Undisturbed, BroughtBack, Vacant, TreeAt;
    ReachOfNext(items, now, now', i, false);
    var done := ReachOf(items, now, false).done;
    assert i !in done;
    hide ReachOf;
    RoundRelocates(items, done, i, now'[i].status, f0, f, f', trace, trace', n, reliable);
    if reliable && Passable(items, f0) {
      NextComesBack(items, now, now', f0, f, f', trace, trace', n, i);
    }
    NextStays(items, now, now', f0, f, f', trace, trace', n, i, reliable);
  }

  lemma NextStays(items: seq<Item>, now: seq<Item>, now': seq<Item>, f0: FS, f: FS, f': FS, trace: seq<FS>,
                  trace': seq<FS>, n: nat, i: nat, reliable: bool)
    requires i < |items| == |now| == |now'| && now' == now[i := now'[i]] && now[i] == items[i]
    requires Brought(items, ReachOf(items, now, false).done, f0, f) && i !in ReachOf(items, now, false).done
    requires EmptyStays(items, now, f0, i) && Round(items, i, now'[i].status, f, f', trace', |trace|, reliable)
    ensures EmptyStays(items, now', f0, i + 1)
  {
    hide Layout, Passable, Changes, RelocatedTrace, AddsDirs, ChangesTrace, BroughtBack, ReachOf, Vacant;
    assert Undisturbed(f0, f, items[i]);
  }

  lemma NextComesBack(items: seq<Item>, now: seq<Item>, now': seq<Item>, f0: FS, f: FS, f': FS, trace: seq<FS>,
                      trace': seq<FS>, n: nat, i: nat)
    requires i < |items| == |now| == |now'| && now' == now[i := now'[i]] && now[i] == items[i]
    requires Layout(items) && Brought(items, ReachOf(items, now, false).done, f0, f) && Passable(items, f)
    requires AllBack(items, now, f0, i) && Round(items, i, now'[i].status, f, f', trace', |trace|, true)
    requires i !in ReachOf(items, now, false).done
    ensures AllBack(items, now', f0, i + 1)
  {
    hide Layout, Passable, Changes, RelocatedTrace, AddsDirs, ChangesTrace, BroughtBack, ReachOf;
    assert Undisturbed(f0, f, items[i]);
    FilledStaysFilled(f0, f, items[i]);
  }

  lemma FilledStaysFilled(a: FS, b: FS, item: Item)
    requires Undisturbed(a, b, item)
    ensures item.quarantinePath in a <==> item.quarantinePath in b
    ensures Vacant(a, item.originalPath) <==> Vacant(b, item.originalPath)
  {
    hide TreeAt, Vacant;
    assert item.quarantinePath + [] == item.quarantinePath;
    assert [] in TreeAt(a, item.quarantinePath) <==> item.quarantinePath in a;
    assert [] in TreeAt(b, item.quarantinePath) <==> item.quarantinePath in b;
  }

  lemma RoundAddsDirs(items: seq<Item>, now: seq<Item>, now': seq<Item>, f0: FS, f: FS, f': FS, trace: seq<FS>,
                      trace': seq<FS>, n: nat, i: nat, reliable: bool)
    requires RestoreProgress(items, now, f0, f, trace, n, i, reliable) && i < |items| && trace <= trace'
    requires |now'| == |now| && now' == now[i := now'[i]] && RestoreStep(now[i], now'[i]) && Looked(items[i], false)
    requires Round(items, i, now'[i].status, f, f', trace', |trace|, reliable)
    ensures var r := ReachOf(items, now', false);
            (r.done == {} ==> OnlyDirs(items, r, f0, f')) && (r.tried == {} ==> f' == f0 && |trace'| == n) &&
            (NothingToRestore(items, f0) ==> f' == f0 && |trace'| == n && r.done == {})
  {
    hide Layout, Passable, Changes, Brought, RelocatedTrace, ChangesTrace, AllBack, EmptyStays, Vacant;
    var r, s := ReachOf(items, now, false), ReachOf(items, now', false);
    ReachOfNext(items, now, now', i, false);
    hide ReachOf;
    if NothingToRestore(items, f0) {
      assert Vacant(f, items[i].quarantinePath);
    }
    if s.done == {} {
      assert r.done == {} && AddsDirs(f, f', Dir(items[i].originalPath));
      if now'[i].status == Failed {
        assert i in s.tried;
      }
      forall k | k in f' && k !in f0
        ensures f'[k].Directory? && exists j | 0 <= j < |items| :: j in s.tried && k <= Dir(items[j].originalPath)
      {
        if k in f {
          var j :| 0 <= j < |items| && j in r.tried && k <= Dir(items[j].originalPath);
          assert j in s.tried;
        } else {
          assert i in s.tried && k <= Dir(items[i].originalPath);
        }
      }
    }
  }

  lemma SafeRestoreAdvances(id: string, fs0: FS, items: seq<Item>, now: seq<Item>, now': seq<Item>, f0: FS, f: FS,
                            f': FS, trace: seq<FS>, trace': seq<FS>, n: nat, i: nat, reliable: bool)
    requires RestoreProgress(items, now, f0, f, trace, n, i, reliable) && i < |items| && trace <= trace'
    requires SafeRestore(id, fs0, items, now, f0, f, trace, n, i)
    requires |now'| == |now| && now' == now[i := now[i].(status := now'[i].status)] && RestoreStep(now[i], now'[i])
    requires now[i].status in {Moved, Skipped} && Round(now, i, now'[i].status, f, f', trace', |trace|, reliable)
    requires RestoredItem(id, fs0, now, i, now'[i].status, f, f', trace', |trace|)
    ensures SafeRestore(id, fs0, items, now', f0, f', trace', n, i + 1)
  {
    hide Changes, ChangesTrace, Safe, Passable, ItemEffect, Undisturbed, Truthful, SafeTrace, NothingToRestore, Layout,
         Brought, RelocatedTrace, OnlyDirs, AllBack, EmptyStays, ReachOf, One, Round;
    PlacesDuringRestore(items, now, f0, f, trace, n, i, reliable);
    var ok, r, s := now'[i].status == Restored, ReachOf(items, now, false), ReachOf(items, now', false);
    ReachOfNext(items, now, now', i, false);
    EffectOfSamePlaces(id, fs0, now, items, i, false, ok, f, f');
    EffectGives(id, fs0, items, i, false, ok, f, f');
    if now'[i].status == Skipped {
      SkippedLeavesTrace(now, i, f, f', trace, trace', reliable);
      SafeTraceWidens(id, fs0, items, r, s, f0, trace, n);
    } else {
      forall t | |trace| <= t < |trace'|
        ensures ItemEffect(id, fs0, items, i, false, ok, f, trace'[t])
      {
        EffectOfSamePlaces(id, fs0, now, items, i, false, ok, f, trace'[t]);
      }
      SafeTraceGrows(id, fs0, items, i, ok, r, s, false, f0, f, trace, trace', n);
    }
    if AllTruthful(fs0, f0, items) {
      forall j | 0 <= j < |items|
        ensures Truthful(fs0, f', now'[j])
      {
        if j == i {
          TruthOfRestore(fs0, f', now[i], now'[i]);
        } else {
          assert SamePlace(items[j], now[j]);
          TruthKept(fs0, f, f', items[j], now'[j]);
        }
      }
    }
  }

  lemma SkippedLeavesTrace(items: seq<Item>, i: nat, a: FS, b: FS, trace: seq<FS>, trace': seq<FS>, reliable: bool)
    requires i < |items| && trace <= trace' && Round(items, i, Skipped, a, b, trace', |trace|, reliable)
    ensures b == a && trace' == trace
  {
  }

  lemma SafeTraceWidens(id: string, fs0: FS, items: seq<Item>, r: Reach, s: Reach, a: FS, trace: seq<FS>, n: nat)
    requires SafeTrace(id, fs0, items, r, false, a, trace, n) && Within(r, s)
    ensures SafeTrace(id, fs0, items, s, false, a, trace, n)
  {
    hide Safe, Changes;
    forall t | n <= t < |trace|
      ensures Changes(items, s, false, a, trace[t])
    {
      ChangesWiden(items, r, s, false, a, trace[t]);
    }
  }

  lemma TruthOfRestore(fs0: FS, f: FS, before: Item, after: Item)
    requires RestoreStep(before, after) && before.status in {Moved, Skipped}
    requires after.status == Restored ==> AtOriginal(fs0, f, before)
    ensures Truthful(fs0, f, after)
  {
  }

  method Restore(disk: Disk, transaction: Transaction, ghost fs0: FS)
    requires disk.Valid()
    modifies disk, transaction`items
    ensures disk.Valid() && old(disk.trace) <= disk.trace
    ensures RestoreProgress(old(transaction.items), transaction.items, old(disk.files), disk.files, disk.trace,
                            |old(disk.trace)|, |old(transaction.items)|, disk.Reliable())
    ensures Layout(old(transaction.items)) ==>
              NamesKept(transaction.id, old(transaction.items), old(disk.files), disk.files, disk.trace,
                        |old(disk.trace)|)
    ensures Layout(old(transaction.items)) && Safe(transaction.id, fs0, old(disk.files), old(transaction.items)) ==>
              SafeRestore(transaction.id, fs0, old(transaction.items), transaction.items, old(disk.files), disk.files,
                          disk.trace, |old(disk.trace)|, |old(transaction.items)|)
  {
    hide ItemEffect, Layout, Safe, Passable, Changes, ChangesTrace, Undisturbed, RestoreProgress, SafeRestore,
         SamePlaces, AtOriginal, InQuarantine, DirsOnly, RestoredItem, Vacant, EffectTrace, Round, NamesKept;
    ghost var id, items, f0, n0 := transaction.id, transaction.items, disk.files, |disk.trace|;
    ghost var safe := Layout(items) && Safe(id, fs0, f0, items);
    RestoreStarts(id, fs0, items, f0, disk.trace, disk.Reliable());
    NamesKeptByNothing(id, items, f0, disk.trace);
    for i := 0 to |transaction.items|
      invariant |transaction.items| == |items|
      invariant disk.Valid() && old(disk.trace) <= disk.trace
      invariant RestoreProgress(items, transaction.items, f0, disk.files, disk.trace, n0, i, disk.Reliable())
      invariant safe ==> SafeRestore(id, fs0, items, transaction.items, f0, disk.files, disk.trace, n0, i)
      invariant Layout(items) ==> NamesKept(id, items, f0, disk.files, disk.trace, n0)
    {
      ghost var now, f, trace := transaction.items, disk.files, disk.trace;
      PlacesDuringRestore(items, now, f0, f, trace, n0, i, disk.Reliable());
      if transaction.items[i].status in {Moved, Skipped} {
        if safe {
          SafeDuringRestore(id, fs0, items, now, f0, f, trace, n0, i);
        }
        RestoreItem(disk, transaction, i, fs0);
        if Layout(items) {
          LayoutOfSamePlaces(items, now);
          NamesKeptOfSamePlaces(id, items, now, f, disk.files, disk.trace, |trace|);
          NamesKeptJoin(id, items, f0, f, disk.files, trace, disk.trace, n0);
        }
        RestoreAdvances(items, now, transaction.items, f0, f, disk.files, trace, disk.trace, n0, i, disk.Reliable());
        if safe {
          SafeRestoreAdvances(id, fs0, items, now, transaction.items, f0, f, disk.files, trace, disk.trace, n0, i,
                              disk.Reliable());
        }
      } else {
        RestoreSkips(id, fs0, items, now, f0, f, trace, n0, i, disk.Reliable());
      }
    }
  }

  lemma SafeDuringRestore(id: string, fs0: FS, items: seq<Item>, now: seq<Item>, f0: FS, f: FS, trace: seq<FS>, n: nat,
                          i: nat)
    requires SamePlaces(items, now) && Layout(items)
    requires SafeRestore(id, fs0, items, now, f0, f, trace, n, i)
    ensures Layout(now) && Safe(id, fs0, f, now)
  {
    hide Layout, Safe, SafeTrace, AllTruthful;
    LayoutOfSamePlaces(items, now);
    SafeOfSamePlaces(id, fs0, f, items, now);
  }

  lemma RestoreSkips(id: string, fs0: FS, items: seq<Item>, now: seq<Item>, f0: FS, f: FS, trace: seq<FS>, n: nat,
                     i: nat, reliable: bool)
    requires i < |items| && RestoreProgress(items, now, f0, f, trace, n, i, reliable)
    requires now[i].status !in {Moved, Skipped}
    ensures RestoreProgress(items, now, f0, f, trace, n, i + 1, reliable)
    ensures SafeRestore(id, fs0, items, now, f0, f, trace, n, i) ==>
              SafeRestore(id, fs0, items, now, f0, f, trace, n, i + 1)
  {
    hide Safe, SafeTrace, Passable, AllTruthful, Changes, ChangesTrace, NothingToRestore, Layout, Brought,
         RelocatedTrace, OnlyDirs, ReachOf;
    assert RestoreStep(items[i], now[i]);
  }
}

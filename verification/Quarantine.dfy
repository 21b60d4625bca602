/** internal/safety/quarantine.go on values: where items are placed, what manifests say, and what every
    state of the disk must satisfy while a transaction is under way. */
module QuarantineSpec {
  import opened Paths
  import opened Transactions
  import opened FileTree

  /** The name a manifest is written under before it is renamed into place. */
  function Temporary(p: Path): (t: Path)
    ensures |t| == if p == [] then 1 else |p|
    ensures p != [] ==> Dir(t) == Dir(p) && !Nested(t, p)
  {
    if p == [] then [".tmp"] else
      assert p[|p| - 1] != p[|p| - 1] + ".tmp";
      var t := p[..|p| - 1] + [p[|p| - 1] + ".tmp"];
      assert t[|p| - 1] != p[|p| - 1];
      t
  }

  function ManifestPaths(items: seq<Item>): set<Path> {
    set i | 0 <= i < |items| :: items[i].manifestPath
  }

  function TemporaryPaths(items: seq<Item>): set<Path> {
    set i | 0 <= i < |items| :: Temporary(items[i].manifestPath)
  }

  /** The items that share one manifest, in transaction order. */
  function ItemsAt(items: seq<Item>, path: Path): (r: seq<Item>)
    ensures forall i | 0 <= i < |items| && items[i].manifestPath == path :: items[i] in r
    ensures forall x | x in r :: x in items && x.manifestPath == path
  {
    if items == [] then [] else
      var n := |items| - 1;
      ItemsAt(items[..n], path) + if items[n].manifestPath == path then [items[n]] else []
  }

  lemma NothingToGroup()
    ensures ManifestPaths([]) == {} && forall p :: ItemsAt([], p) == []
  {
  }

  lemma GroupingGrows(items: seq<Item>, i: nat)
    requires i < |items|
    ensures ManifestPaths(items[..i + 1]) == ManifestPaths(items[..i]) + {items[i].manifestPath}
    ensures forall p :: ItemsAt(items[..i + 1], p) ==
              ItemsAt(items[..i], p) + if items[i].manifestPath == p then [items[i]] else []
  {
    var a, b := items[..i], items[..i + 1];
    assert b == a + [items[i]] && b[..i] == a && b[i] == items[i];
    forall x
      ensures x in ManifestPaths(b) <==> x in ManifestPaths(a) + {items[i].manifestPath}
    {
      if x in ManifestPaths(a) {
        var j :| 0 <= j < |a| && a[j].manifestPath == x;
        assert b[j].manifestPath == x;
      }
    }
  }

  function ManifestFor(id: string, items: seq<Item>, path: Path): Manifest {
    Manifest(MANIFEST_VERSION, id, ItemsAt(items, path))
  }

  /** Every state that writing the manifests of these items can pass through. */
  ghost predicate ManifestStep(id: string, items: seq<Item>, fs: FS, fs': FS) {
    var finals, drafts := ManifestPaths(items), TemporaryPaths(items);
    (forall k | k in fs && k !in finals && k !in drafts :: k in fs' && fs'[k] == fs[k]) &&
    (forall k | k in fs' && k !in fs && k !in finals && k !in drafts ::
       fs'[k].Directory? && exists i | 0 <= i < |items| :: k <= items[i].manifestPath) &&
    (finals !! drafts ==>
       forall p | p in finals && p in fs ::
         p in fs' && (fs'[p] == fs[p] || fs'[p] == File(ManifestData(ManifestFor(id, items, p)))))
  }

  lemma ManifestStepReflexive(id: string, items: seq<Item>, a: FS)
    ensures ManifestStep(id, items, a, a)
  {
  }

  lemma ManifestStepTransitive(id: string, items: seq<Item>, a: FS, b: FS, c: FS)
    requires ManifestStep(id, items, a, b) && ManifestStep(id, items, b, c)
    ensures ManifestStep(id, items, a, c)
  {
  }

  lemma MkdirIsManifestStep(id: string, items: seq<Item>, i: nat, a: FS, b: FS)
    requires i < |items| && AddsDirs(a, b, Dir(items[i].manifestPath))
    ensures ManifestStep(id, items, a, b)
  {
  }

  lemma WriteIsManifestStep(id: string, items: seq<Item>, i: nat, a: FS, b: FS)
    requires i < |items| && WritesOnly(a, b, Temporary(items[i].manifestPath))
    ensures ManifestStep(id, items, a, b)
  {
    var t := Temporary(items[i].manifestPath);
    assert t in TemporaryPaths(items);
    forall k | k in a && k != t
      ensures k in b && b[k] == a[k]
    {
      assert SameAt(a, b, k);
    }
    forall k | k in b && k != t
      ensures k in a
    {
      assert SameAt(a, b, k);
    }
  }

  lemma CommitIsManifestStep(id: string, items: seq<Item>, i: nat, a: FS)
    requires i < |items|
    requires var t := Temporary(items[i].manifestPath);
             CanRename(a, t, items[i].manifestPath) && Leaf(a, t) &&
             a[t] == File(ManifestData(ManifestFor(id, items, items[i].manifestPath)))
    ensures ManifestStep(id, items, a, Renamed(a, Temporary(items[i].manifestPath), items[i].manifestPath))
  {
    var p := items[i].manifestPath;
    RenameLeaf(a, Temporary(p), p);
    assert p in ManifestPaths(items) && Temporary(p) in TemporaryPaths(items);
  }

  ghost predicate ManifestComplete(id: string, items: seq<Item>, fs: FS, p: Path) {
    p in fs && fs[p] == File(ManifestData(ManifestFor(id, items, p)))
  }

  lemma CompleteStaysComplete(id: string, items: seq<Item>, a: FS, b: FS, p: Path)
    requires ManifestPaths(items) !! TemporaryPaths(items) && p in ManifestPaths(items)
    requires ManifestComplete(id, items, a, p) && ManifestStep(id, items, a, b)
    ensures ManifestComplete(id, items, b, p)
  {
  }

  /** The disk holds a complete manifest of this transaction that lists the item with both its paths. */
  ghost predicate RecordedOnDisk(id: string, fs: FS, item: Item) {
    item.manifestPath in fs && fs[item.manifestPath].File? && fs[item.manifestPath].data.ManifestData? &&
    var m := fs[item.manifestPath].data.manifest;
    m.schemaVersion == MANIFEST_VERSION && m.transactionID == id &&
    exists j | 0 <= j < |m.items| :: SamePlace(m.items[j], item)
  }

  /** Against the file system fs0 the transaction started from: the tree is still where it was ... */
  ghost predicate AtOriginal(fs0: FS, fs: FS, item: Item) {
    TreeAt(fs, item.originalPath) == TreeAt(fs0, item.originalPath) && Vacant(fs, item.quarantinePath)
  }

  /** ... or all of it is in quarantine. */
  ghost predicate InQuarantine(fs0: FS, fs: FS, item: Item) {
    Vacant(fs, item.originalPath) && TreeAt(fs, item.quarantinePath) == TreeAt(fs0, item.originalPath)
  }

  ghost predicate Intact(fs0: FS, fs: FS, item: Item) {
    AtOriginal(fs0, fs, item) || InQuarantine(fs0, fs, item)
  }

  /** The two places exclude each other as soon as there is a tree to lose. */
  lemma IntactInOnePlace(fs0: FS, fs: FS, item: Item)
    requires item.originalPath in fs0
    ensures !(AtOriginal(fs0, fs, item) && InQuarantine(fs0, fs, item))
  {
    assert item.originalPath + [] == item.originalPath;
    assert [] in TreeAt(fs0, item.originalPath);
    if InQuarantine(fs0, fs, item) {
      assert item.quarantinePath + [] == item.quarantinePath;
      assert [] in TreeAt(fs, item.quarantinePath);
    }
  }

  /** What may lie where: no item's tree contains another's, a quarantine slot, or a manifest. */
  ghost predicate Layout(items: seq<Item>) {
    (forall i, j | 0 <= i < j < |items| ::
       !Nested(items[i].originalPath, items[j].originalPath) &&
       !Nested(items[i].quarantinePath, items[j].quarantinePath)) &&
    (forall i, j | 0 <= i < |items| && 0 <= j < |items| ::
       !Nested(items[i].originalPath, items[j].quarantinePath) &&
       items[i].manifestPath != Temporary(items[j].manifestPath)) &&
    (forall i, j | 0 <= i < |items| && 0 <= j < |items| :: OffLimits(items[i], items[j].manifestPath)) &&
    (forall i, j | 0 <= i < |items| && 0 <= j < |items| :: OffLimits(items[i], Temporary(items[j].manifestPath)))
  }

  predicate OffLimits(item: Item, p: Path) {
    !Nested(item.originalPath, p) && !Nested(item.quarantinePath, p)
  }

  lemma SamePlacesSameManifests(items: seq<Item>, items': seq<Item>)
    requires SamePlaces(items, items')
    ensures ManifestPaths(items) == ManifestPaths(items')
    ensures TemporaryPaths(items) == TemporaryPaths(items')
  {
    assert forall i | 0 <= i < |items| :: SamePlace(items[i], items'[i]);
    assert forall i | 0 <= i < |items| :: items[i].manifestPath == items'[i].manifestPath;
  }

  lemma LayoutOfSamePlaces(items: seq<Item>, items': seq<Item>)
    requires Layout(items) && SamePlaces(items, items')
    ensures Layout(items')
  {
    assert forall i | 0 <= i < |items| :: SamePlace(items[i], items'[i]);
    forall i, j | 0 <= i < |items'| && 0 <= j < |items'|
      ensures OffLimits(items'[i], items'[j].manifestPath)
      ensures OffLimits(items'[i], Temporary(items'[j].manifestPath))
    {
      assert SamePlace(items[i], items'[i]) && SamePlace(items[j], items'[j]);
      assert OffLimits(items[i], items[j].manifestPath);
      assert OffLimits(items[i], Temporary(items[j].manifestPath));
    }
    forall i, j | 0 <= i < |items| && 0 <= j < |items|
      ensures !Nested(items'[i].originalPath, items'[j].quarantinePath)
      ensures items'[i].manifestPath != Temporary(items'[j].manifestPath)
    {
      assert SamePlace(items[i], items'[i]) && SamePlace(items[j], items'[j]);
    }
    forall i, j | 0 <= i < j < |items|
      ensures !Nested(items'[i].originalPath, items'[j].originalPath)
      ensures !Nested(items'[i].quarantinePath, items'[j].quarantinePath)
    {
      assert SamePlace(items[i], items'[i]) && SamePlace(items[j], items'[j]);
    }
  }

  lemma LayoutSeparatesDrafts(items: seq<Item>)
    requires Layout(items)
    ensures ManifestPaths(items) !! TemporaryPaths(items)
  {
  }

  /** A change that leaves both of an item's places alone. */
  ghost predicate Undisturbed(fs: FS, fs': FS, item: Item) {
    TreeAt(fs', item.originalPath) == TreeAt(fs, item.originalPath) &&
    TreeAt(fs', item.quarantinePath) == TreeAt(fs, item.quarantinePath) &&
    (Vacant(fs, item.originalPath) <==> Vacant(fs', item.originalPath)) &&
    (Vacant(fs, item.quarantinePath) <==> Vacant(fs', item.quarantinePath))
  }

  lemma MkdirUndisturbed(fs: FS, fs': FS, d: Path, item: Item)
    requires AddsDirs(fs, fs', d) && !(item.originalPath <= d) && !(item.quarantinePath <= d)
    ensures Undisturbed(fs, fs', item)
  {
    MkdirKeepsTree(fs, fs', d, item.originalPath);
    MkdirKeepsTree(fs, fs', d, item.quarantinePath);
  }

  lemma RenameUndisturbed(fs: FS, p: Path, q: Path, item: Item)
    requires OffLimits(item, p) && OffLimits(item, q)
    ensures Undisturbed(fs, Renamed(fs, p, q), item)
  {
    RenameKeepsTree(fs, p, q, item.originalPath);
    RenameKeepsTree(fs, p, q, item.quarantinePath);
  }

  lemma ManifestKeepsTree(id: string, items: seq<Item>, fs: FS, fs': FS, r: Path)
    requires ManifestStep(id, items, fs, fs')
    requires forall i | 0 <= i < |items| :: !(r <= items[i].manifestPath) && !(r <= Temporary(items[i].manifestPath))
    ensures TreeAt(fs', r) == TreeAt(fs, r)
    ensures Vacant(fs, r) <==> Vacant(fs', r)
  {
    hide TreeAt, Vacant, Temporary;
    SameTree(fs, fs', r);
  }

  lemma ManifestUndisturbed(id: string, items: seq<Item>, fs: FS, fs': FS, i: nat)
    requires i < |items| && Layout(items) && ManifestStep(id, items, fs, fs')
    ensures Undisturbed(fs, fs', items[i])
  {
    forall j | 0 <= j < |items|
      ensures !Nested(items[i].originalPath, items[j].manifestPath)
      ensures !Nested(items[i].quarantinePath, items[j].manifestPath)
      ensures !Nested(items[i].originalPath, Temporary(items[j].manifestPath))
      ensures !Nested(items[i].quarantinePath, Temporary(items[j].manifestPath))
    {
      assert OffLimits(items[i], items[j].manifestPath);
      assert OffLimits(items[i], Temporary(items[j].manifestPath));
    }
    ManifestKeepsTree(id, items, fs, fs', items[i].originalPath);
    ManifestKeepsTree(id, items, fs, fs', items[i].quarantinePath);
  }

  /** The invariant of a prepared transaction, and what a crash at any moment leaves: every tree whole in one
      of its two places, and a complete manifest that says which two they are. */
  ghost predicate Safe(id: string, fs0: FS, fs: FS, items: seq<Item>) {
    forall i | 0 <= i < |items| :: Intact(fs0, fs, items[i]) && RecordedOnDisk(id, fs, items[i])
  }

  lemma SafeAfterMkdir(id: string, fs0: FS, fs: FS, fs': FS, items: seq<Item>, d: Path)
    requires Safe(id, fs0, fs, items) && AddsDirs(fs, fs', d)
    requires forall i | 0 <= i < |items| :: !(items[i].originalPath <= d) && !(items[i].quarantinePath <= d)
    ensures Safe(id, fs0, fs', items)
    ensures forall i | 0 <= i < |items| :: Undisturbed(fs, fs', items[i])
  {
    forall i | 0 <= i < |items|
      ensures Undisturbed(fs, fs', items[i])
    {
      MkdirUndisturbed(fs, fs', d, items[i]);
    }
    forall i | 0 <= i < |items|
      ensures RecordedOnDisk(id, fs', items[i])
    {
      assert RecordedOnDisk(id, fs, items[i]);
    }
  }

  lemma SafeAfterManifests(id: string, fs0: FS, fs: FS, fs': FS, items: seq<Item>)
    requires Safe(id, fs0, fs, items) && Layout(items) && ManifestStep(id, items, fs, fs')
    ensures Safe(id, fs0, fs', items)
    ensures forall i | 0 <= i < |items| :: Undisturbed(fs, fs', items[i])
  {
    LayoutSeparatesDrafts(items);
    forall i | 0 <= i < |items|
      ensures Undisturbed(fs, fs', items[i])
      ensures RecordedOnDisk(id, fs', items[i])
    {
      ManifestUndisturbed(id, items, fs, fs', i);
      ManifestRecords(id, items, fs, fs', i);
    }
  }

  lemma ManifestRecords(id: string, items: seq<Item>, fs: FS, fs': FS, i: nat)
    requires i < |items| && ManifestPaths(items) !! TemporaryPaths(items) && ManifestStep(id, items, fs, fs')
    requires RecordedOnDisk(id, fs, items[i])
    ensures RecordedOnDisk(id, fs', items[i])
  {
    var p := items[i].manifestPath;
    assert p in ManifestPaths(items);
    if fs'[p] != fs[p] {
      CompleteManifestRecords(id, items, fs', i);
    }
  }

  lemma CompleteManifestRecords(id: string, items: seq<Item>, fs: FS, i: nat)
    requires i < |items| && ManifestComplete(id, items, fs, items[i].manifestPath)
    ensures RecordedOnDisk(id, fs, items[i])
  {
    var listed := ItemsAt(items, items[i].manifestPath);
    var j :| 0 <= j < |listed| && listed[j] == items[i];
    assert SamePlace(listed[j], items[i]);
  }

  lemma RecordedAfterRename(id: string, fs: FS, p: Path, q: Path, item: Item)
    requires RecordedOnDisk(id, fs, item) && !Nested(p, item.manifestPath) && !Nested(q, item.manifestPath)
    ensures RecordedOnDisk(id, Renamed(fs, p, q), item)
  {
  }

  /** Moving item i between its own two places leaves every other item alone ... */
  lemma RenameDisturbsNoOther(fs: FS, items: seq<Item>, i: nat, j: nat, p: Path, q: Path)
    requires i < |items| && j < |items| && i != j && Layout(items)
    requires p in {items[i].originalPath, items[i].quarantinePath}
    requires q in {items[i].originalPath, items[i].quarantinePath}
    ensures Undisturbed(fs, Renamed(fs, p, q), items[j])
  {
    assert OffLimits(items[j], items[i].originalPath);
    assert OffLimits(items[j], items[i].quarantinePath);
    RenameUndisturbed(fs, p, q, items[j]);
  }

  /** ... and takes item i over whole. */
  lemma SafeAfterRename(id: string, fs0: FS, fs: FS, items: seq<Item>, i: nat, away: bool)
    requires i < |items| && Layout(items) && Safe(id, fs0, fs, items)
    requires if away then AtOriginal(fs0, fs, items[i]) else InQuarantine(fs0, fs, items[i])
    ensures var p, q := items[i].originalPath, items[i].quarantinePath;
            var fs' := if away then Renamed(fs, p, q) else Renamed(fs, q, p);
            Safe(id, fs0, fs', items) &&
            (if away then InQuarantine(fs0, fs', items[i]) else AtOriginal(fs0, fs', items[i])) &&
            forall j | 0 <= j < |items| && j != i :: Undisturbed(fs, fs', items[j])
  {
    var p := if away then items[i].originalPath else items[i].quarantinePath;
    var q := if away then items[i].quarantinePath else items[i].originalPath;
    var fs' := Renamed(fs, p, q);
    assert !Nested(items[i].originalPath, items[i].quarantinePath);
    RenameMovesTree(fs, p, q);
    forall j | 0 <= j < |items|
      ensures RecordedOnDisk(id, fs', items[j])
    {
      assert OffLimits(items[i], items[j].manifestPath);
      RecordedAfterRename(id, fs, p, q, items[j]);
    }
    forall j | 0 <= j < |items| && j != i
      ensures Undisturbed(fs, fs', items[j]) && Intact(fs0, fs', items[j])
    {
      RenameDisturbsNoOther(fs, items, i, j, p, q);
      IntactWhenUndisturbed(fs0, fs, fs', items[j]);
    }
    assert if away then InQuarantine(fs0, fs', items[i]) else AtOriginal(fs0, fs', items[i]);
  }

  lemma IntactWhenUndisturbed(fs0: FS, fs: FS, fs': FS, item: Item)
    requires Undisturbed(fs, fs', item)
    ensures AtOriginal(fs0, fs, item) ==> AtOriginal(fs0, fs', item)
    ensures InQuarantine(fs0, fs, item) ==> InQuarantine(fs0, fs', item)
  {
  }

  // Statuses move while places stay.

  lemma SafeOfSamePlaces(id: string, fs0: FS, fs: FS, items: seq<Item>, items': seq<Item>)
    requires SamePlaces(items, items') && Safe(id, fs0, fs, items)
    ensures Safe(id, fs0, fs, items')
  {
    forall i | 0 <= i < |items'|
      ensures Intact(fs0, fs, items'[i]) && RecordedOnDisk(id, fs, items'[i])
    {
      assert SamePlace(items[i], items'[i]);
      assert Intact(fs0, fs, items[i]) && RecordedOnDisk(id, fs, items[i]);
      var m := fs[items[i].manifestPath].data.manifest;
      var j :| 0 <= j < |m.items| && SamePlace(m.items[j], items[i]);
      assert SamePlace(m.items[j], items'[i]);
    }
  }

  lemma UndisturbedOfSamePlace(fs: FS, fs': FS, a: Item, b: Item)
    requires SamePlace(a, b) && Undisturbed(fs, fs', a)
    ensures Undisturbed(fs, fs', b)
  {
  }

  // What a Move (away) or a Restore (back) may change on a disk.

  function Source(item: Item, away: bool): Path {
    if away then item.originalPath else item.quarantinePath
  }

  function Target(item: Item, away: bool): Path {
    Source(item, !away)
  }

  /** Which items a Move or Restore has dealt with: whose tree it renamed, and for whose tree it tried to. */
  datatype Reach = Reach(done: set<int>, tried: set<int>)

  const NOWHERE := Reach({}, {})

  function One(i: int, ok: bool): Reach {
    Reach(if ok then {i} else {}, {i})
  }

  predicate Within(r: Reach, s: Reach) {
    r.done <= s.done && r.tried <= s.tried
  }

  predicate AtSource(items: seq<Item>, r: Reach, away: bool, k: Path) {
    exists i | 0 <= i < |items| :: i in r.done && Source(items[i], away) <= k
  }

  predicate AtTarget(items: seq<Item>, r: Reach, away: bool, k: Path) {
    exists i | 0 <= i < |items| :: i in r.done && Target(items[i], away) <= k
  }

  predicate AboveTarget(items: seq<Item>, r: Reach, away: bool, k: Path) {
    exists i | 0 <= i < |items| :: (i in r.tried && k <= Target(items[i], away)) || k <= items[i].manifestPath
  }

  predicate IsManifest(items: seq<Item>, k: Path) {
    k in ManifestPaths(items) || k in TemporaryPaths(items)
  }

  /** Whatever was there outside the renamed trees and the manifests is there unchanged, and what is new lies in
      those, at the target of a renamed tree, or is a directory on the way to a target or a manifest. */
  ghost predicate Changes(items: seq<Item>, r: Reach, away: bool, fs: FS, fs': FS) {
    (forall k | k in fs && !IsManifest(items, k) && !AtSource(items, r, away, k) :: k in fs' && fs'[k] == fs[k]) &&
    (forall k | k in fs' && k !in fs && !IsManifest(items, k) && !AtSource(items, r, away, k) ::
       AtTarget(items, r, away, k) || (fs'[k].Directory? && AboveTarget(items, r, away, k)))
  }

  lemma ChangesReflexive(items: seq<Item>, r: Reach, away: bool, a: FS)
    ensures Changes(items, r, away, a, a)
  {
  }

  lemma ChangesTransitive(items: seq<Item>, r: Reach, away: bool, a: FS, b: FS, c: FS)
    requires Changes(items, r, away, a, b) && Changes(items, r, away, b, c)
    ensures Changes(items, r, away, a, c)
  {
    hide IsManifest, AtSource, AtTarget, AboveTarget;
  }

  lemma ChangesWiden(items: seq<Item>, r: Reach, s: Reach, away: bool, a: FS, b: FS)
    requires Changes(items, r, away, a, b) && Within(r, s)
    ensures Changes(items, s, away, a, b)
  {
    forall k
      ensures AtSource(items, r, away, k) ==> AtSource(items, s, away, k)
      ensures AtTarget(items, r, away, k) ==> AtTarget(items, s, away, k)
      ensures AboveTarget(items, r, away, k) ==> AboveTarget(items, s, away, k)
    {
      ReachesFurther(items, r, s, away, k);
    }
    hide IsManifest, AtSource, AtTarget, AboveTarget;
  }

  lemma ReachesFurther(items: seq<Item>, r: Reach, s: Reach, away: bool, k: Path)
    requires Within(r, s)
    ensures AtSource(items, r, away, k) ==> AtSource(items, s, away, k)
    ensures AtTarget(items, r, away, k) ==> AtTarget(items, s, away, k)
    ensures AboveTarget(items, r, away, k) ==> AboveTarget(items, s, away, k)
  {
    if AtSource(items, r, away, k) {
      var i :| 0 <= i < |items| && i in r.done && Source(items[i], away) <= k;
      assert i in s.done;
    }
    if AtTarget(items, r, away, k) {
      var i :| 0 <= i < |items| && i in r.done && Target(items[i], away) <= k;
      assert i in s.done;
    }
    if AboveTarget(items, r, away, k) {
      var i :| 0 <= i < |items| && ((i in r.tried && k <= Target(items[i], away)) || k <= items[i].manifestPath);
      assert i in r.tried ==> i in s.tried;
    }
  }

  lemma ManifestStepChanges(id: string, items: seq<Item>, items': seq<Item>, r: Reach, away: bool, a: FS, b: FS)
    requires SamePlaces(items, items') && ManifestStep(id, items', a, b)
    ensures Changes(items, r, away, a, b)
  {
    SamePlacesSameManifests(items, items');
    hide Temporary;
    forall k | k in b && k !in a && !IsManifest(items, k)
      ensures b[k].Directory? && AboveTarget(items, r, away, k)
    {
      var i :| 0 <= i < |items'| && k <= items'[i].manifestPath;
      assert SamePlace(items[i], items'[i]);
    }
  }

  lemma MkdirChanges(items: seq<Item>, r: Reach, away: bool, i: nat, a: FS, b: FS)
    requires i < |items| && i in r.tried && AddsDirs(a, b, Dir(Target(items[i], away)))
    ensures Changes(items, r, away, a, b)
  {
  }

  lemma RenameChanges(items: seq<Item>, r: Reach, away: bool, i: nat, a: FS)
    requires i < |items| && i in r.done && Vacant(a, Target(items[i], away))
    ensures Changes(items, r, away, a, Renamed(a, Source(items[i], away), Target(items[i], away)))
  {
    var p, q := Source(items[i], away), Target(items[i], away);
    var b := Renamed(a, p, q);
    forall k | k in a && !AtSource(items, r, away, k)
      ensures k in b && b[k] == a[k]
    {
      assert !(p <= k) && !(q <= k);
    }
    forall k | k in b && k !in a
      ensures AtTarget(items, r, away, k)
    {
      assert q <= k;
    }
  }

  // Directories on the way to either place are never blocked by what the protocol itself puts on the disk.

  ghost predicate Passable(items: seq<Item>, fs: FS) {
    forall i | 0 <= i < |items| ::
      DirsOnly(fs, Dir(items[i].quarantinePath)) && DirsOnly(fs, Dir(items[i].originalPath))
  }

  lemma PassableAfterMkdir(items: seq<Item>, a: FS, b: FS, d: Path)
    requires Passable(items, a) && AddsDirs(a, b, d)
    ensures Passable(items, b)
  {
  }

  lemma DirsOnlyAfterManifests(id: string, items: seq<Item>, a: FS, b: FS, d: Path)
    requires DirsOnly(a, d) && ManifestStep(id, items, a, b)
    requires forall k | IsManifest(items, k) :: !(k <= d)
    ensures DirsOnly(b, d)
  {
    hide Temporary;
    forall k | k in b && k != [] && k <= d
      ensures b[k].Directory?
    {
      assert !IsManifest(items, k);
    }
  }

  lemma ManifestsOffTheWay(items: seq<Item>, i: nat, k: Path)
    requires i < |items| && Layout(items) && IsManifest(items, k)
    ensures OffLimits(items[i], k)
    ensures !(k <= Dir(items[i].quarantinePath)) && !(k <= Dir(items[i].originalPath))
  {
    hide Temporary;
    if k in ManifestPaths(items) {
      var j :| 0 <= j < |items| && k == items[j].manifestPath;
      assert OffLimits(items[i], items[j].manifestPath);
    } else {
      var j :| 0 <= j < |items| && k == Temporary(items[j].manifestPath);
      assert OffLimits(items[i], Temporary(items[j].manifestPath));
    }
  }

  lemma PassableAfterManifests(id: string, items: seq<Item>, a: FS, b: FS)
    requires Layout(items) && Passable(items, a) && ManifestStep(id, items, a, b)
    ensures Passable(items, b)
  {
    hide Layout, ManifestStep, IsManifest;
    forall i | 0 <= i < |items|
      ensures DirsOnly(b, Dir(items[i].quarantinePath)) && DirsOnly(b, Dir(items[i].originalPath))
    {
      forall k | IsManifest(items, k)
        ensures !(k <= Dir(items[i].quarantinePath)) && !(k <= Dir(items[i].originalPath))
      {
        ManifestsOffTheWay(items, i, k);
      }
      DirsOnlyAfterManifests(id, items, a, b, Dir(items[i].quarantinePath));
      DirsOnlyAfterManifests(id, items, a, b, Dir(items[i].originalPath));
    }
  }

  lemma DirsOnlyAfterRename(a: FS, p: Path, q: Path, d: Path)
    requires DirsOnly(a, d) && !(q <= d)
    ensures DirsOnly(Renamed(a, p, q), d)
  {
  }

  lemma TargetsOffTheWay(items: seq<Item>, i: nat, j: nat, away: bool)
    requires i < |items| && j < |items| && Layout(items)
    ensures !(Target(items[i], away) <= Dir(items[j].quarantinePath))
    ensures !(Target(items[i], away) <= Dir(items[j].originalPath))
  {
    hide Temporary;
    var q := Target(items[i], away);
    assert !Nested(items[i].originalPath, items[j].quarantinePath);
    assert !Nested(items[j].originalPath, items[i].quarantinePath);
    assert i != j ==> !Nested(items[i].originalPath, items[j].originalPath);
    assert i != j ==> !Nested(items[i].quarantinePath, items[j].quarantinePath);
    hide Layout;
    BelowDir(q, items[j].quarantinePath);
    BelowDir(q, items[j].originalPath);
  }

  lemma BelowDir(q: Path, p: Path)
    ensures q <= Dir(p) && p != [] ==> q <= p && q != p
    ensures q <= Dir(p) ==> q <= p
  {
  }

  lemma PassableAfterRename(items: seq<Item>, i: nat, away: bool, a: FS)
    requires i < |items| && Layout(items) && Passable(items, a)
    ensures Passable(items, Renamed(a, Source(items[i], away), Target(items[i], away)))
  {
    hide Layout, Renamed;
    var p, q := Source(items[i], away), Target(items[i], away);
    forall j | 0 <= j < |items|
      ensures DirsOnly(Renamed(a, p, q), Dir(items[j].quarantinePath))
      ensures DirsOnly(Renamed(a, p, q), Dir(items[j].originalPath))
    {
      TargetsOffTheWay(items, i, j, away);
      DirsOnlyAfterRename(a, p, q, Dir(items[j].quarantinePath));
      DirsOnlyAfterRename(a, p, q, Dir(items[j].originalPath));
    }
  }

  // The effect, complete or cut short, of moving one item away or back.

  /** On a safe disk; ok says that the tree was renamed. */
  ghost predicate ItemEffect(id: string, fs0: FS, items: seq<Item>, i: nat, away: bool, ok: bool, a: FS, b: FS)
    requires i < |items|
  {
    Safe(id, fs0, b, items) && Changes(items, One(i, ok), away, a, b) && (Passable(items, a) ==> Passable(items, b)) &&
    forall j | 0 <= j < |items| && j != i :: Undisturbed(a, b, items[j])
  }

  lemma EffectReflexive(id: string, fs0: FS, items: seq<Item>, i: nat, away: bool, ok: bool, a: FS)
    requires i < |items| && Safe(id, fs0, a, items)
    ensures ItemEffect(id, fs0, items, i, away, ok, a, a)
  {
    ChangesReflexive(items, One(i, ok), away, a);
  }

  lemma EffectTransitive(id: string, fs0: FS, items: seq<Item>, i: nat, away: bool, ok: bool, a: FS, b: FS, c: FS)
    requires i < |items|
    requires ItemEffect(id, fs0, items, i, away, ok, a, b) && ItemEffect(id, fs0, items, i, away, ok, b, c)
    ensures ItemEffect(id, fs0, items, i, away, ok, a, c)
  {
    hide Changes, Safe, Passable, TreeAt, Vacant;
    ChangesTransitive(items, One(i, ok), away, a, b, c);
  }

  lemma EffectOfMkdir(id: string, fs0: FS, items: seq<Item>, i: nat, away: bool, ok: bool, a: FS, b: FS)
    requires i < |items| && Layout(items) && Safe(id, fs0, a, items)
    requires AddsDirs(a, b, Dir(Target(items[i], away)))
    ensures ItemEffect(id, fs0, items, i, away, ok, a, b) && Safe(id, fs0, b, items)
    ensures Undisturbed(a, b, items[i])
  {
    hide Layout, Safe, AddsDirs, Changes, Passable, Undisturbed;
    var d := Dir(Target(items[i], away));
    ItemsNotInTheWay(items, i, away);
    SafeAfterMkdir(id, fs0, a, b, items, d);
    MkdirChanges(items, One(i, ok), away, i, a, b);
    if Passable(items, a) {
      PassableAfterMkdir(items, a, b, d);
    }
  }

  lemma ItemsNotInTheWay(items: seq<Item>, i: nat, away: bool)
    requires i < |items| && Layout(items)
    ensures forall j | 0 <= j < |items| ::
              !(items[j].originalPath <= Dir(Target(items[i], away))) &&
              !(items[j].quarantinePath <= Dir(Target(items[i], away)))
  {
    hide Layout;
    forall j | 0 <= j < |items|
      ensures !(items[j].originalPath <= Dir(Target(items[i], away)))
      ensures !(items[j].quarantinePath <= Dir(Target(items[i], away)))
    {
      TargetsOffTheWay(items, j, i, true);
      TargetsOffTheWay(items, j, i, false);
    }
  }

  lemma EffectOfRename(id: string, fs0: FS, items: seq<Item>, i: nat, away: bool, a: FS)
    requires i < |items| && Layout(items) && Safe(id, fs0, a, items)
    requires if away then AtOriginal(fs0, a, items[i]) else InQuarantine(fs0, a, items[i])
    ensures var b := Renamed(a, Source(items[i], away), Target(items[i], away));
            ItemEffect(id, fs0, items, i, away, true, a, b) && Safe(id, fs0, b, items) &&
            if away then InQuarantine(fs0, b, items[i]) else AtOriginal(fs0, b, items[i])
  {
    hide Layout, Safe, Changes, Passable, Undisturbed, Renamed;
    SafeAfterRename(id, fs0, a, items, i, away);
    RenameChanges(items, One(i, true), away, i, a);
    if Passable(items, a) {
      PassableAfterRename(items, i, away, a);
    }
  }

  lemma EffectOfManifests(id: string, fs0: FS, items: seq<Item>, items': seq<Item>, i: nat, away: bool, ok: bool,
                          a: FS, b: FS)
    requires i < |items| && Layout(items) && Safe(id, fs0, a, items) && SamePlaces(items, items')
    requires ManifestStep(id, items', a, b)
    ensures ItemEffect(id, fs0, items, i, away, ok, a, b) && Safe(id, fs0, b, items)
    ensures Undisturbed(a, b, items[i])
  {
    hide Layout, Safe, Changes, Passable, Undisturbed, ManifestStep, DirsOnly;
    LayoutOfSamePlaces(items, items');
    SafeOfSamePlaces(id, fs0, a, items, items');
    SafeAfterManifests(id, fs0, a, b, items');
    SafeOfSamePlaces(id, fs0, b, items', items);
    ManifestStepChanges(id, items, items', One(i, ok), away, a, b);
    ManifestsDisturbNone(id, items, items', a, b);
  }

  /** Writing manifests disturbs no item and blocks no way, on any disk. */
  lemma ManifestsDisturbNone(id: string, items: seq<Item>, items': seq<Item>, a: FS, b: FS)
    requires Layout(items) && SamePlaces(items, items') && ManifestStep(id, items', a, b)
    ensures forall j | 0 <= j < |items| :: Undisturbed(a, b, items[j])
    ensures Passable(items, a) ==> Passable(items, b)
  {
    hide Layout, Passable, Undisturbed, ManifestStep, DirsOnly;
    LayoutOfSamePlaces(items, items');
    forall j | 0 <= j < |items|
      ensures Undisturbed(a, b, items[j])
    {
      ManifestUndisturbed(id, items', a, b, j);
      assert SamePlace(items[j], items'[j]);
      UndisturbedOfSamePlace(a, b, items'[j], items[j]);
    }
    if Passable(items, a) {
      PassableOfSamePlaces(items, items', a);
      PassableAfterManifests(id, items', a, b);
      PassableOfSamePlaces(items', items, b);
    }
  }

  lemma PassableOfSamePlaces(items: seq<Item>, items': seq<Item>, fs: FS)
    requires SamePlaces(items, items') && Passable(items, fs)
    ensures Passable(items', fs)
  {
    hide DirsOnly;
    assert forall i | 0 <= i < |items| :: SamePlace(items[i], items'[i]);
  }

  /** A source that is occupied says where an intact tree is. */
  lemma OccupiedSourceDecides(id: string, fs0: FS, items: seq<Item>, i: nat, away: bool, fs: FS)
    requires i < |items| && Safe(id, fs0, fs, items) && Source(items[i], away) in fs
    ensures if away then AtOriginal(fs0, fs, items[i]) else InQuarantine(fs0, fs, items[i])
    ensures items[i].originalPath in fs0
  {
    assert Intact(fs0, fs, items[i]);
    var p := Source(items[i], away);
    assert p + [] == p && items[i].originalPath + [] == items[i].originalPath;
    assert [] in TreeAt(fs, p);
  }

  /** Once the directories are there, nothing in the way of the rename is left but the environment. */
  lemma PassageAndSource(items: seq<Item>, i: nat, away: bool, a: FS, b: FS)
    requires i < |items| && Layout(items) && AddsDirs(a, b, Dir(Target(items[i], away)))
    ensures Passable(items, a) ==> DirsOnly(a, Dir(Target(items[i], away)))
    ensures DirsExist(b, Dir(Target(items[i], away))) && Source(items[i], away) in b &&
              Vacant(b, Target(items[i], away))
            ==> CanRename(b, Source(items[i], away), Target(items[i], away))
  {
    var p, q := Source(items[i], away), Target(items[i], away);
    assert !Nested(items[i].originalPath, items[i].quarantinePath);
    if DirsExist(b, Dir(q)) && p in b && Vacant(b, q) {
      assert Dir(q)[..|Dir(q)|] == Dir(q);
    }
  }

  /** An existing tree that is wholly at the source: the source is occupied and the target is free. */
  lemma WholeTreeIsThere(fs0: FS, fs: FS, item: Item, away: bool)
    requires item.originalPath in fs0 && if away then AtOriginal(fs0, fs, item) else InQuarantine(fs0, fs, item)
    ensures Source(item, away) in fs && Vacant(fs, Target(item, away))
  {
    assert item.quarantinePath + [] == item.quarantinePath && item.originalPath + [] == item.originalPath;
    assert [] in TreeAt(fs0, item.originalPath);
  }

  lemma SamePlaceSameFate(fs0: FS, fs: FS, a: Item, b: Item)
    requires SamePlace(a, b)
    ensures AtOriginal(fs0, fs, a) <==> AtOriginal(fs0, fs, b)
    ensures InQuarantine(fs0, fs, a) <==> InQuarantine(fs0, fs, b)
  {
  }

  lemma ChangesOfSamePlaces(items: seq<Item>, items': seq<Item>, r: Reach, away: bool, a: FS, b: FS)
    requires SamePlaces(items, items') && Changes(items, r, away, a, b)
    ensures Changes(items', r, away, a, b)
  {
    SamePlacesSameManifests(items, items');
    assert forall i | 0 <= i < |items| :: SamePlace(items[i], items'[i]);
    forall k
      ensures IsManifest(items, k) == IsManifest(items', k)
      ensures AtSource(items, r, away, k) == AtSource(items', r, away, k)
      ensures AtTarget(items, r, away, k) == AtTarget(items', r, away, k)
      ensures AboveTarget(items, r, away, k) == AboveTarget(items', r, away, k)
    {
      SameReach(items, items', r, away, k);
      SameReach(items', items, r, away, k);
    }
    hide IsManifest, AtSource, AtTarget, AboveTarget;
  }

  lemma SameReach(items: seq<Item>, items': seq<Item>, r: Reach, away: bool, k: Path)
    requires SamePlaces(items, items')
    ensures AtSource(items, r, away, k) ==> AtSource(items', r, away, k)
    ensures AtTarget(items, r, away, k) ==> AtTarget(items', r, away, k)
    ensures AboveTarget(items, r, away, k) ==> AboveTarget(items', r, away, k)
  {
    if AtSource(items, r, away, k) {
      var i :| 0 <= i < |items| && i in r.done && Source(items[i], away) <= k;
      assert SamePlace(items[i], items'[i]) && Source(items'[i], away) <= k;
    }
    if AtTarget(items, r, away, k) {
      var i :| 0 <= i < |items| && i in r.done && Target(items[i], away) <= k;
      assert SamePlace(items[i], items'[i]) && Target(items'[i], away) <= k;
    }
    if AboveTarget(items, r, away, k) {
      var i :| 0 <= i < |items| && ((i in r.tried && k <= Target(items[i], away)) || k <= items[i].manifestPath);
      assert SamePlace(items[i], items'[i]);
      assert (i in r.tried && k <= Target(items'[i], away)) || k <= items'[i].manifestPath;
    }
  }

  /** During Execute the status of an item says where its tree is. */
  ghost predicate TruthfulAfterMove(fs0: FS, fs: FS, item: Item) {
    if item.status == Moved then item.originalPath in fs0 && InQuarantine(fs0, fs, item) else AtOriginal(fs0, fs, item)
  }

  /** What Move may do to an item's record. */
  predicate MoveStep(a: Item, b: Item) {
    SamePlace(a, b) && if a.status == Pending then b.status in {Moved, Failed} else b.status == a.status
  }

  lemma EffectOfSamePlaces(id: string, fs0: FS, items: seq<Item>, items': seq<Item>, i: nat, away: bool, ok: bool,
                           a: FS, b: FS)
    requires SamePlaces(items, items') && i < |items| && ItemEffect(id, fs0, items, i, away, ok, a, b)
    ensures ItemEffect(id, fs0, items', i, away, ok, a, b)
  {
    hide Safe, Changes, Passable, Undisturbed;
    SafeOfSamePlaces(id, fs0, b, items, items');
    ChangesOfSamePlaces(items, items', One(i, ok), away, a, b);
    forall j | 0 <= j < |items'| && j != i
      ensures Undisturbed(a, b, items'[j])
    {
      assert SamePlace(items[j], items'[j]);
      UndisturbedOfSamePlace(a, b, items[j], items'[j]);
    }
    SamePlacesSymmetric(items, items');
    if Passable(items', a) {
      PassableOfSamePlaces(items', items, a);
      PassableOfSamePlaces(items, items', b);
    }
  }

  lemma SamePlacesSymmetric(items: seq<Item>, items': seq<Item>)
    requires SamePlaces(items, items')
    ensures SamePlaces(items', items)
  {
    assert forall i | 0 <= i < |items| :: SamePlace(items[i], items'[i]);
  }

  lemma EffectGives(id: string, fs0: FS, items: seq<Item>, i: nat, away: bool, ok: bool, a: FS, b: FS)
    requires i < |items| && ItemEffect(id, fs0, items, i, away, ok, a, b)
    ensures Safe(id, fs0, b, items) && Changes(items, One(i, ok), away, a, b)
    ensures Passable(items, a) ==> Passable(items, b)
    ensures forall j | 0 <= j < |items| && j != i :: Undisturbed(a, b, items[j])
  {
  }

  // What becomes of an item's record.

  /** The items Move or Restore looks at, and the status it means to give them. */
  predicate Looked(item: Item, away: bool) {
    if away then item.status == Pending else item.status in {Moved, Skipped}
  }

  function Goal(away: bool): ItemStatus {
    if away then Moved else Restored
  }

  /** How far a call got, told by the statuses before and after. */
  function ReachOf(items: seq<Item>, now: seq<Item>, away: bool): Reach
    requires |items| == |now|
  {
    Reach(set j | 0 <= j < |items| && Looked(items[j], away) && now[j].status == Goal(away),
          set j | 0 <= j < |items| && Looked(items[j], away) && now[j].status in {Goal(away), Failed})
  }

  lemma ReachOfNext(items: seq<Item>, now: seq<Item>, now': seq<Item>, i: nat, away: bool)
    requires i < |items| == |now| == |now'| && now' == now[i := now'[i]] && now[i] == items[i]
    ensures Within(ReachOf(items, now, away), ReachOf(items, now', away))
    ensures Looked(items[i], away) && now'[i].status in {Goal(away), Failed} ==>
              Within(One(i, now'[i].status == Goal(away)), ReachOf(items, now', away))
    ensures ReachOf(items, now', away).done ==
              ReachOf(items, now, away).done +
              if Looked(items[i], away) && now'[i].status == Goal(away) then {i} else {}
  {
  }

  lemma TruthfulWhenUndisturbed(fs0: FS, a: FS, b: FS, place: Item, item: Item)
    requires SamePlace(place, item) && Undisturbed(a, b, place) && TruthfulAfterMove(fs0, a, item)
    ensures TruthfulAfterMove(fs0, b, item)
  {
  }

  /** What Restore may do to an item's record: only MOVED and SKIPPED items are looked at, and no MOVED one
      stays MOVED. */
  predicate RestoreStep(a: Item, b: Item) {
    SamePlace(a, b) &&
    match a.status
    case Moved => b.status in {Restored, Skipped, Failed}
    case Skipped => b.status in {Restored, Skipped, Failed}
    case _ => b.status == a.status
  }

  /** Between any two operations on an unpurged transaction: where statuses commit to a place, the tree is there. */
  ghost predicate Truthful(fs0: FS, fs: FS, item: Item) {
    (item.status == Moved ==> InQuarantine(fs0, fs, item)) &&
    (item.status in {Restored, Pending} ==> AtOriginal(fs0, fs, item))
  }

  lemma TruthKept(fs0: FS, a: FS, b: FS, place: Item, item: Item)
    requires SamePlace(place, item) && Undisturbed(a, b, place) && Truthful(fs0, a, item)
    ensures Truthful(fs0, b, item)
  {
  }

  /** Before anything moved, writing manifests disturbs no tree and fills no slot. */
  lemma PreparedAtOriginal(id: string, items: seq<Item>, fs0: FS, fs: FS, i: nat)
    requires i < |items| && Layout(items) && ManifestStep(id, items, fs0, fs)
    requires Vacant(fs0, items[i].quarantinePath)
    ensures AtOriginal(fs0, fs, items[i])
  {
    hide Layout, ManifestStep;
    ManifestUndisturbed(id, items, fs0, fs, i);
  }

  /** os.Lstat says nobody is at the target, and the directories made on the way do not change that. */
  lemma StillVacant(a: FS, b: FS, p: Path)
    requires Vacant(a, p) && AddsDirs(a, b, Dir(p))
    ensures Vacant(b, p)
  {
  }

  // What Restore does to the trees on any disk, whether its state is safe or not.

  /** The whole of what was in the slot is now at the original path, where there was nothing. */
  ghost predicate BroughtBack(a: FS, b: FS, item: Item) {
    item.quarantinePath in a && Vacant(a, item.originalPath) &&
    TreeAt(b, item.originalPath) == TreeAt(a, item.quarantinePath) && Vacant(b, item.quarantinePath)
  }

  /** Just these items were brought back, and no other was disturbed. */
  ghost predicate Brought(items: seq<Item>, done: set<int>, a: FS, b: FS) {
    forall j | 0 <= j < |items| :: if j in done then BroughtBack(a, b, items[j]) else Undisturbed(a, b, items[j])
  }

  /** Each item was brought back or left alone. */
  ghost predicate Relocated(items: seq<Item>, a: FS, b: FS) {
    forall j | 0 <= j < |items| :: Undisturbed(a, b, items[j]) || BroughtBack(a, b, items[j])
  }

  lemma BroughtReflexive(items: seq<Item>, a: FS)
    ensures Brought(items, {}, a, a)
  {
  }

  lemma BroughtJoins(items: seq<Item>, d: set<int>, e: set<int>, a: FS, b: FS, c: FS)
    requires Brought(items, d, a, b) && Brought(items, e, b, c) && d !! e
    ensures Brought(items, d + e, a, c)
  {
    hide BroughtBack, Undisturbed;
    forall j | 0 <= j < |items|
      ensures if j in d + e then BroughtBack(a, c, items[j]) else Undisturbed(a, c, items[j])
    {
      DisturbanceJoins(a, b, c, items[j]);
    }
  }

  lemma DisturbanceJoins(a: FS, b: FS, c: FS, item: Item)
    ensures Undisturbed(a, b, item) && Undisturbed(b, c, item) ==> Undisturbed(a, c, item)
    ensures Undisturbed(a, b, item) && BroughtBack(b, c, item) ==> BroughtBack(a, c, item)
    ensures BroughtBack(a, b, item) && Undisturbed(b, c, item) ==> BroughtBack(a, c, item)
  {
    assert item.quarantinePath + [] == item.quarantinePath;
    assert [] in TreeAt(a, item.quarantinePath) <==> item.quarantinePath in a;
    assert [] in TreeAt(b, item.quarantinePath) <==> item.quarantinePath in b;
  }

  lemma BroughtOfSamePlaces(items: seq<Item>, items': seq<Item>, done: set<int>, a: FS, b: FS)
    requires SamePlaces(items, items') && Brought(items, done, a, b)
    ensures Brought(items', done, a, b)
  {
    hide Undisturbed, BroughtBack;
    forall j | 0 <= j < |items|
      ensures if j in done then BroughtBack(a, b, items'[j]) else Undisturbed(a, b, items'[j])
    {
      assert SamePlace(items[j], items'[j]);
      BroughtOfSamePlace(a, b, items[j], items'[j]);
    }
  }

  lemma BroughtOfSamePlace(a: FS, b: FS, x: Item, y: Item)
    requires SamePlace(x, y)
    ensures Undisturbed(a, b, x) <==> Undisturbed(a, b, y)
    ensures BroughtBack(a, b, x) <==> BroughtBack(a, b, y)
  {
  }

  lemma MkdirBringsNone(items: seq<Item>, i: nat, a: FS, b: FS)
    requires i < |items| && Layout(items) && AddsDirs(a, b, Dir(items[i].originalPath))
    ensures Brought(items, {}, a, b)
  {
    hide Layout, AddsDirs, Undisturbed;
    ItemsNotInTheWay(items, i, false);
    forall j | 0 <= j < |items|
      ensures Undisturbed(a, b, items[j])
    {
      MkdirUndisturbed(a, b, Dir(items[i].originalPath), items[j]);
    }
  }

  lemma RenameBringsOne(items: seq<Item>, i: nat, a: FS)
    requires i < |items| && Layout(items) && items[i].quarantinePath in a && Vacant(a, items[i].originalPath)
    ensures Brought(items, {i}, a, Renamed(a, items[i].quarantinePath, items[i].originalPath))
  {
    hide Layout, Undisturbed, Renamed;
    forall j | 0 <= j < |items| && j != i
      ensures Undisturbed(a, Renamed(a, items[i].quarantinePath, items[i].originalPath), items[j])
    {
      RenameDisturbsNoOther(a, items, i, j, items[i].quarantinePath, items[i].originalPath);
    }
    PlacesApart(items, i);
    RenameMovesTree(a, items[i].quarantinePath, items[i].originalPath);
  }

  lemma PlacesApart(items: seq<Item>, i: nat)
    requires i < |items| && Layout(items)
    ensures !Nested(items[i].quarantinePath, items[i].originalPath)
  {
    assert !Nested(items[i].originalPath, items[i].quarantinePath);
  }

  lemma ManifestsBringNone(id: string, items: seq<Item>, items': seq<Item>, a: FS, b: FS)
    requires Layout(items) && SamePlaces(items, items') && ManifestStep(id, items', a, b)
    ensures Brought(items, {}, a, b)
  {
    hide Layout, ManifestStep, Undisturbed;
    ManifestsDisturbNone(id, items, items', a, b);
  }

  lemma BroughtMeansRelocated(items: seq<Item>, done: set<int>, a: FS, b: FS)
    requires Brought(items, done, a, b)
    ensures Relocated(items, a, b)
  {
    hide Undisturbed, BroughtBack;
  }

  lemma RelocatedOfSamePlaces(items: seq<Item>, items': seq<Item>, a: FS, b: FS)
    requires SamePlaces(items, items') && Relocated(items, a, b)
    ensures Relocated(items', a, b)
  {
    hide Undisturbed, BroughtBack;
    forall j | 0 <= j < |items|
      ensures Undisturbed(a, b, items'[j]) || BroughtBack(a, b, items'[j])
    {
      assert SamePlace(items[j], items'[j]);
      BroughtOfSamePlace(a, b, items[j], items'[j]);
    }
  }

  // Where nothing is in the way, manifests get written.

  /** No manifest or draft lies where another needs a directory. */
  ghost predicate ManifestsApart(items: seq<Item>) {
    (forall i | 0 <= i < |items| :: items[i].manifestPath != []) &&
    forall i, k | 0 <= i < |items| && IsManifest(items, k) :: !(k <= Dir(items[i].manifestPath))
  }

  ghost predicate FreeForFile(fs: FS, p: Path) {
    Vacant(fs, p) || (Leaf(fs, p) && fs[p].File?)
  }

  ghost predicate Writable(items: seq<Item>, fs: FS) {
    (forall i | 0 <= i < |items| :: DirsOnly(fs, Dir(items[i].manifestPath))) &&
    forall k | IsManifest(items, k) :: FreeForFile(fs, k)
  }

  lemma OwnManifest(items: seq<Item>, i: nat)
    requires i < |items|
    ensures IsManifest(items, items[i].manifestPath) && IsManifest(items, Temporary(items[i].manifestPath))
  {
  }

  lemma WritableAfterDirs(items: seq<Item>, a: FS, b: FS, d: Path)
    requires Writable(items, a) && AddsDirs(a, b, d) && forall k | IsManifest(items, k) :: !(k <= d)
    ensures Writable(items, b)
  {
    hide IsManifest;
    forall k | IsManifest(items, k)
      ensures FreeForFile(b, k)
    {
      assert FreeForFile(a, k) && !(k <= d);
      forall x | x in b && k <= x
        ensures x in a
      {
        ContainmentIsPartialOrder(d, x, k);
      }
    }
  }

  lemma WritableAfterFile(items: seq<Item>, a: FS, k: Path, data: Data)
    requires ManifestsApart(items) && Writable(items, a) && IsManifest(items, k)
    ensures Writable(items, a[k := File(data)])
  {
    hide IsManifest;
    var b := a[k := File(data)];
    forall p | IsManifest(items, p)
      ensures FreeForFile(b, p)
    {
      assert FreeForFile(a, p);
      if p <= k && p != k {
        ManifestsDoNotNest(items, p, k);
      }
    }
  }

  lemma ManifestsDoNotNest(items: seq<Item>, p: Path, k: Path)
    requires ManifestsApart(items) && IsManifest(items, p) && IsManifest(items, k) && p <= k
    ensures p == k
  {
    var i :| 0 <= i < |items| && (k == items[i].manifestPath || k == Temporary(items[i].manifestPath));
    var m := items[i].manifestPath;
    hide Temporary, Dir, IsManifest;
    assert m != [] && Dir(Temporary(m)) == Dir(m) && k != [];
    WholeOrInDir(p, k);
    assert !(p <= Dir(m));
  }

  lemma WholeOrInDir(p: Path, k: Path)
    requires p <= k && k != []
    ensures p == k || p <= Dir(k)
  {
    if |p| == |k| {
      assert p == k[..|p|] && k[..|k|] == k;
    }
  }

  lemma WritableAfterRemoval(items: seq<Item>, a: FS, k: Path)
    requires Writable(items, a)
    ensures Writable(items, a - {k})
  {
    hide IsManifest;
    forall p | IsManifest(items, p)
      ensures FreeForFile(a - {k}, p)
    {
      assert FreeForFile(a, p);
    }
  }

  lemma WaysToManifest(items: seq<Item>, a: FS, i: nat)
    requires i < |items| && Writable(items, a)
    ensures DirsOnly(a, Dir(items[i].manifestPath))
  {
  }

  lemma WaysStayClear(items: seq<Item>, a: FS, b: FS, i: nat)
    requires i < |items| && ManifestsApart(items) && Writable(items, a) && AddsDirs(a, b, Dir(items[i].manifestPath))
    ensures Writable(items, b)
  {
    hide Writable, AddsDirs, IsManifest;
    WritableAfterDirs(items, a, b, Dir(items[i].manifestPath));
  }

  /** With the directory there, draft and commit of one manifest go through. */
  lemma ManifestGoesThrough(items: seq<Item>, i: nat, a: FS, data: Data)
    requires i < |items| && ManifestsApart(items) && Writable(items, a) && DirsExist(a, Dir(items[i].manifestPath))
    ensures var path, draft := items[i].manifestPath, Temporary(items[i].manifestPath);
            CanWrite(a, draft) && CanRename(a[draft := File(data)], draft, path) &&
            Writable(items, Renamed(a[draft := File(data)], draft, path))
  {
    var path, draft := items[i].manifestPath, Temporary(items[i].manifestPath);
    var d, b := Dir(path), a[draft := File(data)];
    OwnManifest(items, i);
    assert d != [] ==> d[..|d|] == d && d in a && a[d].Directory?;
    assert HasParent(a, draft) && HasParent(a, path);
    WritableAfterFile(items, a, draft, data);
    hide IsManifest, ManifestsApart, Writable, DirsExist;
    assert FreeForFile(a, draft) && FreeForFile(b, path) && FreeForFile(b, draft) by {
      FreeManifest(items, a, draft);
      FreeManifest(items, b, path);
      FreeManifest(items, b, draft);
    }
    assert HasParent(b, path);
    RenameLeaf(b, draft, path);
    WritableAfterRemoval(items, b, draft);
    WritableAfterFile(items, b - {draft}, path, data);
  }

  lemma FreeManifest(items: seq<Item>, a: FS, k: Path)
    requires Writable(items, a) && IsManifest(items, k)
    ensures FreeForFile(a, k)
  {
  }

  /** Moving an item between its places puts nothing in the way either. */
  lemma WritableAfterRename(items: seq<Item>, i: nat, away: bool, a: FS)
    requires i < |items| && Layout(items) && Writable(items, a)
    ensures Writable(items, Renamed(a, Source(items[i], away), Target(items[i], away)))
  {
    hide Layout, Renamed, IsManifest;
    var p, q := Source(items[i], away), Target(items[i], away);
    forall j | 0 <= j < |items|
      ensures DirsOnly(Renamed(a, p, q), Dir(items[j].manifestPath))
    {
      var m := items[j].manifestPath;
      OwnManifest(items, j);
      ManifestsOffTheWay(items, i, m);
      assert q <= Dir(m) ==> q <= m;
      DirsOnlyAfterRename(a, p, q, Dir(m));
    }
    forall k | IsManifest(items, k)
      ensures FreeForFile(Renamed(a, p, q), k)
    {
      FreeManifest(items, a, k);
      ManifestsOffTheWay(items, i, k);
      FreeAfterRename(a, p, q, k);
    }
  }

  lemma MoveKeepsWritable(items: seq<Item>, i: nat, away: bool, a: FS, b: FS)
    requires i < |items| && Layout(items) && Writable(items, a) && AddsDirs(a, b, Dir(Target(items[i], away)))
    ensures Writable(items, Renamed(b, Source(items[i], away), Target(items[i], away)))
  {
    hide Layout, Renamed, IsManifest, Writable, AddsDirs;
    forall k | IsManifest(items, k)
      ensures !(k <= Dir(Target(items[i], away)))
    {
      ManifestsOffTheWay(items, i, k);
    }
    WritableAfterDirs(items, a, b, Dir(Target(items[i], away)));
    WritableAfterRename(items, i, away, b);
  }

  lemma WritableOfSamePlaces(items: seq<Item>, items': seq<Item>, fs: FS)
    requires SamePlaces(items, items') && ManifestsApart(items) && Writable(items, fs)
    ensures ManifestsApart(items') && Writable(items', fs)
  {
    SamePlacesSameManifests(items, items');
    assert forall i | 0 <= i < |items| :: SamePlace(items[i], items'[i]);
    assert forall k :: IsManifest(items, k) <==> IsManifest(items', k);
    hide IsManifest;
    forall i | 0 <= i < |items'|
      ensures items'[i].manifestPath == items[i].manifestPath
    {
    }
  }

  lemma FreeAfterRename(a: FS, p: Path, q: Path, k: Path)
    requires FreeForFile(a, k) && !Nested(p, k) && !Nested(q, k)
    ensures FreeForFile(Renamed(a, p, q), k)
  {
    var b := Renamed(a, p, q);
    forall x | k <= x
      ensures SameAt(a, b, x)
    {
      if p <= x {
        AncestorsFormAChain(x, p, k);
      }
      if q <= x {
        AncestorsFormAChain(x, q, k);
      }
    }
  }
}

/** What Prepare, Move and Restore add up to. */
module Protocol {
  import opened Paths
  import opened Transactions
  import opened FileTree
  import opened QuarantineSpec
  import opened QuarantineEngine

  const QUARANTINE := ".libra-quarantine"

  /** Two places below one transaction's quarantine directories can only nest when the directories coincide. */
  lemma NestedMeansSameRoot(p: Path, p': Path, id: string, x: Path, y: Path)
    requires id !in p && id !in p' && id != QUARANTINE
    requires (p + [QUARANTINE, id]) + x <= (p' + [QUARANTINE, id]) + y
    ensures p == p' && x <= y
  {
    var a, b := (p + [QUARANTINE, id]) + x, (p' + [QUARANTINE, id]) + y;
    assert a[|p| + 1] == id && b[|p'| + 1] == id;
    assert forall m | 0 <= m < |a| && a[m] == id :: m > |p|;
    assert forall m | 0 <= m < |b| && b[m] == id :: m > |p'|;
    assert b[|p| + 1] == a[|p| + 1];
    assert a[|p'| + 1] == b[|p'| + 1];
    assert p == a[..|p|] == b[..|p|] == p';
    assert x == a[|p| + 2..] && y == b[|p| + 2..];
  }

  /** A path that stays out of quarantine directories and of a fresh transaction nests with no place inside it,
      unless it contains the parent the quarantine directory was put in. */
  lemma OutsideQuarantine(o: Path, p: Path, id: string, x: Path)
    requires o != [] && o[|o| - 1] != QUARANTINE && id !in o
    ensures o <= (p + [QUARANTINE, id]) + x ==> o <= p
    ensures !((p + [QUARANTINE, id]) + x <= o)
  {
    var b := (p + [QUARANTINE, id]) + x;
    assert b[|p|] == QUARANTINE && b[|p| + 1] == id;
    assert |o| > |p| + 1 ==> o[|p| + 1] != id;
    if o <= b {
      assert o == b[..|o|] == p[..|o|];
    }
  }

  /** What the callers of Execute provide: items that do not contain one another, a transaction identifier that
      is new, and slot names made distinct by the digest in them. */
  ghost predicate FreshPlan(engine: Engine, id: string, items: seq<Item>) {
    id != QUARANTINE &&
    (forall i | 0 <= i < |items| ::
       var o := items[i].originalPath;
       o != [] && o[|o| - 1] != QUARANTINE && id !in o) &&
    (forall i, j | 0 <= i < j < |items| ::
       !Nested(items[i].originalPath, items[j].originalPath) &&
       engine.slotName(items[i].id, items[i].originalPath) != engine.slotName(items[j].id, items[j].originalPath))
  }

  /** The default placement under each item's parent keeps items, slots and manifests apart. */
  lemma DefaultPlacementIsLayout(engine: Engine, id: string, items: seq<Item>)
    requires engine.rootForPath.None? && FreshPlan(engine, id, items)
    ensures Layout(engine.PlacedAll(id, items)) && ManifestsApart(engine.PlacedAll(id, items))
  {
    PlacedManifestsApart(engine, id, items);
    hide ManifestsApart;
    var placed := engine.PlacedAll(id, items);
    forall i, j | 0 <= i < |placed| && 0 <= j < |placed|
      ensures !Nested(placed[i].originalPath, placed[j].quarantinePath)
      ensures placed[i].manifestPath != Temporary(placed[j].manifestPath)
      ensures OffLimits(placed[i], placed[j].manifestPath)
      ensures OffLimits(placed[i], Temporary(placed[j].manifestPath))
      ensures i != j ==> !Nested(placed[i].quarantinePath, placed[j].quarantinePath)
    {
      PlacedApart(engine, id, items, i, j);
    }
  }

  lemma PlacedManifestsApart(engine: Engine, id: string, items: seq<Item>)
    requires engine.rootForPath.None? && FreshPlan(engine, id, items)
    ensures ManifestsApart(engine.PlacedAll(id, items))
  {
    hide Temporary, Engine.Placed, FreshPlan;
    var placed := engine.PlacedAll(id, items);
    forall i, j | 0 <= i < |placed| && 0 <= j < |placed|
      ensures !(placed[j].manifestPath <= Dir(placed[i].manifestPath))
      ensures !(Temporary(placed[j].manifestPath) <= Dir(placed[i].manifestPath))
    {
      ManifestNotAbove(engine, id, items, i, j);
    }
  }

  lemma ManifestNotAbove(engine: Engine, id: string, items: seq<Item>, i: nat, j: nat)
    requires engine.rootForPath.None? && FreshPlan(engine, id, items) && i < |items| && j < |items|
    ensures var a, b := engine.Placed(id, items[i]).manifestPath, engine.Placed(id, items[j]).manifestPath;
            !(b <= Dir(a)) && !(Temporary(b) <= Dir(a))
  {
    var p, q := Dir(items[i].originalPath), Dir(items[j].originalPath);
    var root, root' := p + [QUARANTINE, id], q + [QUARANTINE, id];
    DraftName(root');
    assert Dir(root + ["manifest.json"]) == root + [];
    NotAboveRoot(p, q, id, "manifest.json");
    NotAboveRoot(p, q, id, "manifest.json.tmp");
  }

  lemma NotAboveRoot(p: Path, q: Path, id: string, name: string)
    requires id !in p && id !in q && id != QUARANTINE
    ensures !((q + [QUARANTINE, id]) + [name] <= (p + [QUARANTINE, id]) + [])
  {
    if (q + [QUARANTINE, id]) + [name] <= (p + [QUARANTINE, id]) + [] {
      NestedMeansSameRoot(q, p, id, [name], []);
    }
  }

  lemma PlacedApart(engine: Engine, id: string, items: seq<Item>, i: nat, j: nat)
    requires engine.rootForPath.None? && FreshPlan(engine, id, items) && i < |items| && j < |items|
    ensures var a, b := engine.Placed(id, items[i]), engine.Placed(id, items[j]);
            !Nested(a.originalPath, b.quarantinePath) &&
            a.manifestPath != Temporary(b.manifestPath) &&
            OffLimits(a, b.manifestPath) && OffLimits(a, Temporary(b.manifestPath)) &&
            (i != j ==> !Nested(a.quarantinePath, b.quarantinePath))
  {
    var a, b := engine.Placed(id, items[i]), engine.Placed(id, items[j]);
    var o, p, p' := a.originalPath, Dir(a.originalPath), Dir(b.originalPath);
    var slot, slot' := ["items", engine.slotName(a.id, o)], ["items", engine.slotName(b.id, b.originalPath)];
    var manifest, draft := ["manifest.json"], ["manifest.json.tmp"];
    var root, root' := p + [QUARANTINE, id], p' + [QUARANTINE, id];
    DraftName(root');
    assert !(o <= p');
    OutsideQuarantine(o, p', id, slot');
    OutsideQuarantine(o, p', id, manifest);
    OutsideQuarantine(o, p', id, draft);
    assert a.manifestPath[|a.manifestPath| - 1] == "manifest.json";
    assert (root' + draft)[|root' + draft| - 1] == "manifest.json.tmp";
    Apart(p, p', id, slot, manifest);
    Apart(p, p', id, slot, draft);
    if i != j {
      PlacedSlotsApart(engine, id, items, i, j);
    }
  }

  lemma PlacedSlotsApart(engine: Engine, id: string, items: seq<Item>, i: nat, j: nat)
    requires engine.rootForPath.None? && FreshPlan(engine, id, items) && i < |items| && j < |items| && i != j
    ensures !Nested(engine.Placed(id, items[i]).quarantinePath, engine.Placed(id, items[j]).quarantinePath)
  {
    var a, b := items[i], items[j];
    var p, p' := Dir(a.originalPath), Dir(b.originalPath);
    var slot := ["items", engine.slotName(a.id, a.originalPath)];
    var slot' := ["items", engine.slotName(b.id, b.originalPath)];
    assert slot[1] != slot'[1];
    Apart(p, p', id, slot, slot');
  }

  lemma Apart(p: Path, p': Path, id: string, x: Path, y: Path)
    requires id !in p && id !in p' && id != QUARANTINE && !Nested(x, y)
    ensures !Nested((p + [QUARANTINE, id]) + x, (p' + [QUARANTINE, id]) + y)
  {
    if (p + [QUARANTINE, id]) + x <= (p' + [QUARANTINE, id]) + y {
      NestedMeansSameRoot(p, p', id, x, y);
    }
    if (p' + [QUARANTINE, id]) + y <= (p + [QUARANTINE, id]) + x {
      NestedMeansSameRoot(p', p, id, y, x);
    }
  }

  lemma DraftName(root: Path)
    ensures Temporary(root + ["manifest.json"]) == root + ["manifest.json.tmp"]
  {
    var m := root + ["manifest.json"];
    assert m[..|m| - 1] == root && m[|m| - 1] == "manifest.json";
    assert "manifest.json" + ".tmp" == "manifest.json.tmp";
  }

  /** Any state Execute can leave behind, a crash included. */
  ghost predicate CrashSafe(id: string, fs0: FS, fs: FS, items: seq<Item>) {
    forall i | 0 <= i < |items| ::
      Intact(fs0, fs, items[i]) && (Vacant(fs, items[i].quarantinePath) || RecordedOnDisk(id, fs, items[i]))
  }
}

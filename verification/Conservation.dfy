/** Where the trees of a transaction are, over any run of Restore and Purge after its Execute, recorded or not, with any
    failure and any crash. */
module Conservation {
  import opened Wrappers
  import opened Paths
  import opened Transactions
  import opened FileTree
  import opened QuarantineSpec
  import opened QuarantineEngine
  import opened Repository
  import opened CleanupService
  import opened RoundTrip
  import opened PurgeService

  /** How a call ended: its outcome was recorded, was not recorded, or the process died when the disk was in the state
      with this number, before or after the outcome was recorded. */
  datatype End = Written | Unwritten | Cut(at: nat) | Late(at: nat)

  predicate Records(end: End) {
    end.Written? || end.Late?
  }

  /** One call: what it would record, the disk it leaves behind and, from a position on, the states on the way. */
  datatype Step =
    | Restoring(after: Record, final: FS, trace: seq<FS>, from: nat, reliable: bool, end: End)
    | Purging(after: Record, final: FS, trace: seq<FS>, from: nat, update: nat, reliable: bool, end: End)

  ghost predicate RestoreLeaves(id: string, fs0: FS, a: Record, f: FS, s: Step) {
    s.after.id == a.id && Finishes(s.after.items, true, s.after.status) &&
    RestoreProgress(a.items, s.after.items, f, s.final, s.trace, s.from, |a.items|, s.reliable) &&
    (Layout(a.items) ==> NamesKept(a.id, a.items, f, s.final, s.trace, s.from)) &&
    (Layout(a.items) && Safe(id, fs0, f, a.items) ==>
       SafeRestore(id, fs0, a.items, s.after.items, f, s.final, s.trace, s.from, |a.items|))
  }

  /** In state number update the deletions are done and the outcome is about to be recorded; only PURGED is followed by
      further states. */
  ghost predicate PurgingLeaves(a: Record, f: FS, s: Step)
    requires s.Purging?
  {
    a.status in {Quarantined, PartiallyQuarantined} && s.from <= s.update + 1 <= |s.trace| &&
    s.final == s.trace[|s.trace| - 1] &&
    (s.end.Unwritten? || s.after.status != AllPurged ==> s.update + 1 == |s.trace|) &&
    PurgesOnly(a.id, a.items, |a.items|, f, s.trace[s.update]) &&
    (forall t | s.from <= t < s.update :: PurgesOnly(a.id, a.items, |a.items|, f, s.trace[t])) &&
    (forall t | s.update <= t < |s.trace| :: Confined(a.id, a.items, f, s.trace[t])) &&
    (Records(s.end) ==> forall t | s.update <= t < |s.trace| :: PurgeRecorded(a, s.after, f, s.trace[t], s.reliable))
  }

  /** The call takes the stored record a and the disk f to b and f'. */
  ghost predicate Taken(id: string, fs0: FS, a: Record, f: FS, s: Step, b: Record, f': FS) {
    (if s.Restoring? then RestoreLeaves(id, fs0, a, f, s) else PurgingLeaves(a, f, s)) &&
    match s.end
    case Written => b == s.after && f' == s.final
    case Unwritten => b == a && f' == s.final
    case Cut(t) => b == a && s.from <= t < |s.trace| && (s.Purging? ==> t <= s.update) && f' == s.trace[t]
    case Late(t) => s.Purging? && b == s.after && s.update <= t < |s.trace| && f' == s.trace[t]
  }

  /** Execute of a transaction's items, from the disk fs0, and then any calls at all. */
  ghost predicate Run(id: string, fs0: FS, items: seq<Item>, h: seq<Record>, disks: seq<FS>, steps: seq<Step>) {
    |h| == |disks| == |steps| + 1 && Layout(items) && Executed(id, fs0, disks[0], items, h[0]) &&
    (forall k | 0 <= k < |items| :: items[k].status in {Pending, Skipped}) &&
    forall i | 0 <= i < |steps| :: Taken(id, fs0, h[i], disks[i], steps[i], h[i + 1], disks[i + 1])
  }

  // The steps are what the services do.

  lemma RestoreIsStep(id: string, fs0: FS, a: Record, f: FS, after: Record, final: FS, trace: seq<FS>, from: nat,
                      reliable: bool, end: End)
    requires after.id == a.id && Finishes(after.items, true, after.status)
    requires RestoreProgress(a.items, after.items, f, final, trace, from, |a.items|, reliable)
    requires Layout(a.items) && Safe(id, fs0, f, a.items) ==>
               SafeRestore(id, fs0, a.items, after.items, f, final, trace, from, |a.items|)
    requires Layout(a.items) ==> NamesKept(a.id, a.items, f, final, trace, from)
    requires !end.Late? && (end.Cut? ==> from <= end.at < |trace|)
    ensures Taken(id, fs0, a, f, Restoring(after, final, trace, from, reliable, end), if end.Written? then after else a,
                  if end.Cut? then trace[end.at] else final)
  {
  }

  lemma PurgeIsStep(id: string, fs0: FS, before: Record, outcome: PurgeOutcome, grants: nat -> bool, tick: nat, f: FS,
                    final: FS, trace: seq<FS>, from: nat, update: nat, reliable: bool, end: End)
    requires PurgeLeaves(before, outcome, grants, tick, f, final, trace, from, update, reliable)
    requires before.status in {Quarantined, PartiallyQuarantined} && EndsPurge(outcome, |trace|, from, update, end)
    ensures var after := if outcome.NothingPurged? then before else outcome.record;
            Taken(id, fs0, before, f, Purging(after, final, trace, from, update, reliable, end),
                  if Records(end) then after else before,
                  if end.Cut? || end.Late? then trace[end.at] else final)
  {
    hide Confined, PurgeRecorded, CutShort, Purgeable, Layout, PurgesOnly;
  }

  /** The endings of a purge with this outcome, and the crashes it may have instead. */
  predicate EndsPurge(outcome: PurgeOutcome, states: nat, from: nat, update: nat, end: End) {
    match end
    case Written => outcome.Recorded?
    case Unwritten => !outcome.Recorded?
    case Cut(t) => from <= t <= update < states
    case Late(t) => outcome.Recorded? && update <= t < states
  }

  // What a single call does to an item.

  lemma {:induction false} RunKeepsPlaces(id: string, fs0: FS, items: seq<Item>, h: seq<Record>, disks: seq<FS>,
                                          steps: seq<Step>, i: nat)
    requires Run(id, fs0, items, h, disks, steps) && i < |h|
    ensures SamePlaces(items, h[i].items) && Layout(h[i].items) && h[i].id == id
  {
    hide Executed, Taken, Layout, SamePlaces;
    if i == 0 {
      ExecutedIsRestorable(id, fs0, disks[0], items, h[0]);
    } else {
      RunKeepsPlaces(id, fs0, items, h, disks, steps, i - 1);
      StepKeepsPlaces(id, fs0, h[i - 1], disks[i - 1], steps[i - 1], h[i], disks[i]);
      SamePlacesCompose(items, h[i - 1].items, h[i].items);
      LayoutOfSamePlaces(h[i - 1].items, h[i].items);
    }
  }

  lemma StepKeepsPlaces(id: string, fs0: FS, a: Record, f: FS, s: Step, b: Record, f': FS)
    requires Taken(id, fs0, a, f, s, b, f')
    ensures SamePlaces(a.items, b.items) && b.id == a.id
  {
    hide Layout, Safe, SafeRestore, Finishes, Changes, ChangesTrace, OnlyDirs, NothingToRestore, ReachOf, Confined,
         Purgeable, Brought, RelocatedTrace, Passable, AllBack, EmptyStays, Vacant;
    if Records(s.end) {
      forall j | 0 <= j < |a.items|
        ensures SamePlace(a.items[j], b.items[j])
      {
        assert RestoreStep(a.items[j], b.items[j]) || PurgeStep(a.items[j], b.items[j]);
      }
    }
  }

  lemma SamePlacesCompose(a: seq<Item>, b: seq<Item>, c: seq<Item>)
    requires SamePlaces(a, b) && SamePlaces(b, c)
    ensures SamePlaces(a, c)
  {
    forall j | 0 <= j < |a|
      ensures SamePlace(a[j], c[j])
    {
      assert SamePlace(a[j], b[j]) && SamePlace(b[j], c[j]);
    }
  }

  lemma RestoringRelocates(id: string, fs0: FS, a: Record, f: FS, s: Step, b: Record, f': FS, k: nat)
    requires Layout(a.items) && Taken(id, fs0, a, f, s, b, f') && s.Restoring? && k < |a.items|
    ensures Undisturbed(f, f', a.items[k]) || BroughtBack(f, f', a.items[k])
  {
    hide Layout, Safe, SafeRestore, Finishes, Changes, ChangesTrace, OnlyDirs, NothingToRestore, ReachOf, Passable,
         AllBack, EmptyStays, Undisturbed, BroughtBack;
    if s.end.Cut? {
      assert Relocated(a.items, f, s.trace[s.end.at]);
    }
  }

  lemma PurgingIsConfined(id: string, fs0: FS, a: Record, f: FS, s: Step, b: Record, f': FS)
    requires Taken(id, fs0, a, f, s, b, f') && s.Purging?
    ensures Confined(a.id, a.items, f, f') && a.status in {Quarantined, PartiallyQuarantined}
    ensures !(Records(s.end) && s.after.status == AllPurged) ==> PurgesOnly(a.id, a.items, |a.items|, f, f')
  {
    hide Confined, PurgeRecorded, PurgesOnly;
    if PurgesOnly(a.id, a.items, |a.items|, f, f') {
      PurgesOnlyIsConfined(a.id, a.items, f, f');
    }
  }

  ghost predicate Part(t: map<Path, Node>, whole: map<Path, Node>) {
    forall s | s in t :: s in whole && t[s] == whole[s]
  }

  /** What is left of the item's tree, perhaps all of it, is in one of its places, and the other is empty. */
  ghost predicate Remnant(fs0: FS, fs: FS, item: Item) {
    var whole := TreeAt(fs0, item.originalPath);
    (Vacant(fs, item.quarantinePath) && Part(TreeAt(fs, item.originalPath), whole)) ||
    (Vacant(fs, item.originalPath) && Part(TreeAt(fs, item.quarantinePath), whole))
  }

  lemma RelocationKeeps(fs0: FS, a: FS, b: FS, item: Item)
    requires Undisturbed(a, b, item) || BroughtBack(a, b, item)
    ensures Intact(fs0, a, item) ==> Intact(fs0, b, item)
    ensures Remnant(fs0, a, item) ==> Remnant(fs0, b, item)
    ensures Vacant(a, item.quarantinePath) ==>
              Vacant(b, item.quarantinePath) && TreeAt(b, item.originalPath) == TreeAt(a, item.originalPath)
  {
    hide TreeAt;
    if BroughtBack(a, b, item) {
      assert !Vacant(a, item.quarantinePath);
    }
  }

  lemma PurgeKeepsRemnant(id: string, fs0: FS, items: seq<Item>, a: FS, b: FS, k: nat)
    requires k < |items| && Layout(items) && Confined(id, items, a, b)
    ensures Remnant(fs0, a, items[k]) ==> Remnant(fs0, b, items[k])
    ensures Vacant(a, items[k].quarantinePath) ==>
              Vacant(b, items[k].quarantinePath) && TreeAt(b, items[k].originalPath) == TreeAt(a, items[k].originalPath)
    ensures !Purgeable(id, a, items[k]) ==> Undisturbed(a, b, items[k])
  {
    PurgeKeepsOriginals(id, items, a, b, k);
    PurgeOnlyTakes(id, items, a, b, items[k].quarantinePath);
    hide Layout, Confined, Purgeable;
    if !Purgeable(id, a, items[k]) {
      PurgeKeepsOthers(id, items, a, b, k);
    }
    hide TreeAt, Undisturbed, Vacant;
  }

  lemma SameItemSameKeeping(fs0: FS, fs: FS, x: Item, y: Item)
    requires SamePlace(x, y)
    ensures Intact(fs0, fs, x) <==> Intact(fs0, fs, y)
    ensures Remnant(fs0, fs, x) <==> Remnant(fs0, fs, y)
  {
  }

  lemma StepKeeps(id: string, fs0: FS, a: Record, f: FS, s: Step, b: Record, f': FS, k: nat)
    requires Layout(a.items) && Taken(id, fs0, a, f, s, b, f') && k < |a.items|
    ensures Remnant(fs0, f, a.items[k]) ==> Remnant(fs0, f', a.items[k])
    ensures Intact(fs0, f, a.items[k]) && !(s.Purging? && Purgeable(a.id, f, a.items[k])) ==>
              Intact(fs0, f', a.items[k])
    ensures Vacant(f, a.items[k].quarantinePath) ==>
              Vacant(f', a.items[k].quarantinePath) &&
              TreeAt(f', a.items[k].originalPath) == TreeAt(f, a.items[k].originalPath)
  {
    hide Layout, Taken, Undisturbed, BroughtBack, Confined, Purgeable, Remnant, Intact, TreeAt, Vacant;
    if s.Restoring? {
      RestoringRelocates(id, fs0, a, f, s, b, f', k);
      RelocationKeeps(fs0, f, f', a.items[k]);
    } else {
      PurgingIsConfined(id, fs0, a, f, s, b, f');
      PurgeKeepsRemnant(a.id, fs0, a.items, f, f', k);
      if Undisturbed(f, f', a.items[k]) {
        RelocationKeeps(fs0, f, f', a.items[k]);
      }
    }
  }

  // Conservation.

  /** No purge before step i found the item's tree purgeable when it began. */
  ghost predicate Spared(h: seq<Record>, disks: seq<FS>, steps: seq<Step>, i: nat, k: nat)
    requires i < |h| == |disks| == |steps| + 1
  {
    forall j | 0 <= j < i && steps[j].Purging? && k < |h[j].items| :: !Purgeable(h[j].id, disks[j], h[j].items[k])
  }

  /** Over Execute and any calls after it the tree of every item stays whole in one of its places until a purge begins
      that may delete it, and even then only parts of it go missing. */
  lemma {:induction false} ConservedOverRuns(id: string, fs0: FS, items: seq<Item>, h: seq<Record>, disks: seq<FS>,
                                             steps: seq<Step>, i: nat, k: nat)
    requires Run(id, fs0, items, h, disks, steps) && i < |h| && k < |items|
    ensures Remnant(fs0, disks[i], items[k])
    ensures Spared(h, disks, steps, i, k) ==> Intact(fs0, disks[i], items[k])
  {
    hide *;
    RunStarts(id, fs0, items, h, disks, steps);
    if i == 0 {
      ExecutedIsIntact(id, fs0, disks[0], items, h[0], k);
    } else {
      RunGoesOn(id, fs0, items, h, disks, steps, i - 1);
      ConservedOverRuns(id, fs0, items, h, disks, steps, i - 1, k);
      RunKeepsPlaces(id, fs0, items, h, disks, steps, i - 1);
      PlacesAreAsMany(items, h[i - 1].items);
      PlaceOf(items, h[i - 1].items, k);
      SparedBefore(h, disks, steps, i, k);
      SameItemSameKeeping(fs0, disks[i - 1], items[k], h[i - 1].items[k]);
      SameItemSameKeeping(fs0, disks[i], items[k], h[i - 1].items[k]);
      StepKeeps(id, fs0, h[i - 1], disks[i - 1], steps[i - 1], h[i], disks[i], k);
    }
  }

  lemma RunStarts(id: string, fs0: FS, items: seq<Item>, h: seq<Record>, disks: seq<FS>, steps: seq<Step>)
    requires Run(id, fs0, items, h, disks, steps)
    ensures |h| == |disks| == |steps| + 1 && Layout(items) && Executed(id, fs0, disks[0], items, h[0])
  {
    hide Taken, Executed, Layout;
  }

  lemma RunGoesOn(id: string, fs0: FS, items: seq<Item>, h: seq<Record>, disks: seq<FS>, steps: seq<Step>, i: nat)
    requires Run(id, fs0, items, h, disks, steps) && i < |steps|
    ensures |h| == |disks| == |steps| + 1 && Taken(id, fs0, h[i], disks[i], steps[i], h[i + 1], disks[i + 1])
  {
    hide Taken, Executed, Layout;
  }

  lemma SparedBefore(h: seq<Record>, disks: seq<FS>, steps: seq<Step>, i: nat, k: nat)
    requires 0 < i < |h| == |disks| == |steps| + 1 && k < |h[i - 1].items|
    ensures Spared(h, disks, steps, i, k) ==>
              Spared(h, disks, steps, i - 1, k) &&
              !(steps[i - 1].Purging? && Purgeable(h[i - 1].id, disks[i - 1], h[i - 1].items[k]))
  {
    hide Purgeable;
  }

  lemma ExecutedIsIntact(id: string, fs0: FS, fs: FS, items: seq<Item>, record: Record, k: nat)
    requires Executed(id, fs0, fs, items, record) && k < |items|
    ensures Intact(fs0, fs, items[k]) && Remnant(fs0, fs, items[k])
  {
    assert Safe(id, fs0, fs, items);
    hide Executed, Layout;
    assert Intact(fs0, fs, items[k]);
  }

  lemma PlaceOf(items: seq<Item>, items': seq<Item>, k: nat)
    requires SamePlaces(items, items') && k < |items|
    ensures SamePlace(items[k], items'[k])
  {
  }

  /** A tree that is out of its slot is out of reach: whatever calls follow, a purge of a record that still says MOVED
      included, the slot stays empty and the original path keeps what it has. */
  lemma {:induction false} OutOfReach(id: string, fs0: FS, items: seq<Item>, h: seq<Record>, disks: seq<FS>,
                                      steps: seq<Step>, i: nat, j: nat, k: nat)
    requires Run(id, fs0, items, h, disks, steps) && i <= j < |h| && k < |items|
    requires Vacant(disks[i], items[k].quarantinePath)
    ensures Vacant(disks[j], items[k].quarantinePath)
    ensures TreeAt(disks[j], items[k].originalPath) == TreeAt(disks[i], items[k].originalPath)
  {
    hide Executed, Taken, Layout, Purgeable, TreeAt, Vacant, SamePlaces;
    if i < j {
      OutOfReach(id, fs0, items, h, disks, steps, i, j - 1, k);
      RunKeepsPlaces(id, fs0, items, h, disks, steps, j - 1);
      PlacesAreAsMany(items, h[j - 1].items);
      PlaceOf(items, h[j - 1].items, k);
      StepKeeps(id, fs0, h[j - 1], disks[j - 1], steps[j - 1], h[j], disks[j], k);
    }
  }

  // Manifests.

  lemma StepKeepsNames(id: string, fs0: FS, a: Record, f: FS, s: Step, b: Record, f': FS)
    requires Layout(a.items) && Taken(id, fs0, a, f, s, b, f')
    requires !Finishing(s)
    ensures StaysNamed(a.id, a.items, f, f')
  {
    hide Layout, StaysNamed, PurgesOnly, RestoreProgress, SafeRestore, Safe, Finishes;
    if s.Purging? {
      PurgingIsConfined(id, fs0, a, f, s, b, f');
      PurgesOnlyKeepsNames(a.id, a.items, f, f');
    }
  }

  /** The item has nothing in quarantine, or a complete manifest names it with both its paths. */
  ghost predicate EmptyOrNamed(id: string, fs: FS, item: Item) {
    Vacant(fs, item.quarantinePath) || RecordedOnDisk(id, fs, item)
  }

  /** Over any calls after Execute, purges included, nothing ever lies in quarantine that no manifest names. */
  lemma {:induction false} EverythingIsNamed(id: string, fs0: FS, items: seq<Item>, h: seq<Record>, disks: seq<FS>,
                                             steps: seq<Step>, i: nat, k: nat)
    requires Run(id, fs0, items, h, disks, steps) && i < |h| && k < |items|
    ensures EmptyOrNamed(id, disks[i], items[k])
  {
    hide *;
    RunStarts(id, fs0, items, h, disks, steps);
    if i == 0 {
      ExecutedIsNamed(id, fs0, disks[0], items, h[0], k);
    } else {
      EverythingIsNamed(id, fs0, items, h, disks, steps, i - 1, k);
      NextIsNamed(id, fs0, items, h, disks, steps, i - 1, k);
    }
  }

  lemma NextIsNamed(id: string, fs0: FS, items: seq<Item>, h: seq<Record>, disks: seq<FS>, steps: seq<Step>, i: nat,
                    k: nat)
    requires Run(id, fs0, items, h, disks, steps) && i < |steps| && k < |items| && |h| == |disks| == |steps| + 1
    requires EmptyOrNamed(id, disks[i], items[k])
    ensures EmptyOrNamed(id, disks[i + 1], items[k])
  {
    hide *;
    var a, f, s, b, f' := h[i], disks[i], steps[i], h[i + 1], disks[i + 1];
    RunGoesOn(id, fs0, items, h, disks, steps, i);
    RunKeepsPlaces(id, fs0, items, h, disks, steps, i);
    PlacesAreAsMany(items, a.items);
    PlaceOf(items, a.items, k);
    SamePlaceSameCare(id, f, items[k], a.items[k]);
    SamePlaceSameCare(id, f', items[k], a.items[k]);
    PurgedStepEmpties(id, fs0, items, h, disks, steps, i, k);
    StepStaysNamed(id, fs0, a, f, s, b, f', k);
  }

  ghost predicate Finishing(s: Step) {
    s.Purging? && Records(s.end) && s.after.status == AllPurged
  }

  lemma PurgedStepEmpties(id: string, fs0: FS, items: seq<Item>, h: seq<Record>, disks: seq<FS>, steps: seq<Step>,
                          i: nat, k: nat)
    requires Run(id, fs0, items, h, disks, steps) && i < |steps| && k < |items| == |h[i].items|
    ensures Finishing(steps[i]) ==> Vacant(disks[i + 1], h[i].items[k].quarantinePath)
  {
    hide Run, Vacant, SamePlaces, Taken;
    if Finishing(steps[i]) {
      RunGoesOn(id, fs0, items, h, disks, steps, i);
      PurgeWrites(id, fs0, h[i], disks[i], steps[i], h[i + 1], disks[i + 1]);
      PurgedMeansEmptied(id, fs0, items, h, disks, steps, i, k);
      RunKeepsPlaces(id, fs0, items, h, disks, steps, i);
      PlaceOf(items, h[i].items, k);
    }
  }

  lemma StepStaysNamed(id: string, fs0: FS, a: Record, f: FS, s: Step, b: Record, f': FS, k: nat)
    requires Layout(a.items) && Taken(id, fs0, a, f, s, b, f') && k < |a.items| && a.id == id
    requires Finishing(s) ==> Vacant(f', a.items[k].quarantinePath)
    ensures EmptyOrNamed(id, f, a.items[k]) ==> EmptyOrNamed(id, f', a.items[k])
  {
    hide Layout, Taken, Vacant, RecordedOnDisk;
    StepKeeps(id, fs0, a, f, s, b, f', k);
    if !Finishing(s) {
      StepKeepsNames(id, fs0, a, f, s, b, f');
    }
  }

  lemma SamePlaceSameCare(id: string, fs: FS, x: Item, y: Item)
    requires SamePlace(x, y)
    ensures EmptyOrNamed(id, fs, x) <==> EmptyOrNamed(id, fs, y)
  {
    SamePlaceSameName(id, fs, x, y);
    hide RecordedOnDisk, Vacant;
  }

  lemma ExecutedIsNamed(id: string, fs0: FS, fs: FS, items: seq<Item>, record: Record, k: nat)
    requires Executed(id, fs0, fs, items, record) && k < |items|
    ensures EmptyOrNamed(id, fs, items[k])
  {
    assert Safe(id, fs0, fs, items);
    hide Executed, Intact;
    assert RecordedOnDisk(id, fs, items[k]);
  }

  // Recorded purges.

  lemma {:induction false} QuarantinedMeansUntouched(id: string, fs0: FS, items: seq<Item>, h: seq<Record>,
                                                     disks: seq<FS>, steps: seq<Step>, i: nat)
    requires Run(id, fs0, items, h, disks, steps) && i < |h|
    ensures h[i] == h[0] || h[i].status !in {Quarantined, PartiallyQuarantined}
  {
    hide Executed, Layout, RestoreProgress, SafeRestore, Safe, Confined;
    if i > 0 {
      QuarantinedMeansUntouched(id, fs0, items, h, disks, steps, i - 1);
      assert Taken(id, fs0, h[i - 1], disks[i - 1], steps[i - 1], h[i], disks[i]);
    }
  }

  /** So the retention period of every purge of a run counts from the end of Execute. */
  lemma RetentionCountsFromExecute(id: string, fs0: FS, items: seq<Item>, h: seq<Record>, disks: seq<FS>,
                                   steps: seq<Step>, i: nat, finished: int, quarantineDays: int, now: int)
    requires Run(id, fs0, items, h, disks, steps) && i < |steps| && steps[i].Purging?
    requires h[0].finishedAt == Some(finished) && Due(h[i], quarantineDays, now)
    ensures now >= finished + 86400 * quarantineDays
  {
    hide Executed, Layout, Taken;
    QuarantinedMeansUntouched(id, fs0, items, h, disks, steps, i);
  }

  /** A rejected item, and one that could not be moved, has an empty slot ever after. */
  lemma NeverMovedMeansEmpty(id: string, fs0: FS, items: seq<Item>, h: seq<Record>, disks: seq<FS>, steps: seq<Step>,
                             i: nat, k: nat)
    requires Run(id, fs0, items, h, disks, steps) && i < |h| && k < |items| == |h[0].items|
    requires h[0].items[k].status != Moved
    ensures Vacant(disks[i], items[k].quarantinePath)
  {
    assert MoveStep(items[k], h[0].items[k]) && TruthfulAfterMove(fs0, disks[0], h[0].items[k]);
    hide Executed, Taken, Layout, TreeAt, Vacant;
    OutOfReach(id, fs0, items, h, disks, steps, 0, i, k);
  }

  /** PURGED is only recorded when no item of the transaction has anything left in quarantine. */
  lemma PurgedMeansEmptied(id: string, fs0: FS, items: seq<Item>, h: seq<Record>, disks: seq<FS>, steps: seq<Step>,
                           i: nat, k: nat)
    requires Run(id, fs0, items, h, disks, steps) && i < |steps| && k < |items|
    requires steps[i].Purging? && Records(steps[i].end) && h[i + 1].status == AllPurged
    ensures Vacant(disks[i + 1], items[k].quarantinePath)
  {
    var at, before, after := RecordedPurge(id, fs0, items, h, disks, steps, i, k);
  }

  /** After a recorded purge, one that failed for some items included, nothing is left to restore: what was MOVED is
      PURGED or FAILED, and what is SKIPPED never left. No damaged tree comes back after it. */
  lemma NothingToRestoreAfterPurge(id: string, fs0: FS, items: seq<Item>, h: seq<Record>, disks: seq<FS>,
                                   steps: seq<Step>, i: nat)
    requires Run(id, fs0, items, h, disks, steps) && i < |steps| && steps[i].Purging? && Records(steps[i].end)
    ensures NothingToRestore(h[i + 1].items, disks[i + 1])
  {
    var now := h[i + 1].items;
    RunKeepsPlaces(id, fs0, items, h, disks, steps, i + 1);
    hide Run, Vacant, SamePlaces;
    PlacesAreAsMany(items, now);
    forall k | 0 <= k < |now| && now[k].status in {Moved, Skipped}
      ensures Vacant(disks[i + 1], now[k].quarantinePath)
    {
      var at, before, after := RecordedPurge(id, fs0, items, h, disks, steps, i, k);
      PlaceOf(items, now, k);
    }
  }

  /** Nothing is left to restore or to purge, and nothing has been restored. */
  ghost predicate Exhausted(a: Record, f: FS) {
    NothingToRestore(a.items, f) && a.status !in {Quarantined, PartiallyQuarantined} &&
    forall k | 0 <= k < |a.items| :: a.items[k].status != Restored
  }

  /** So every Restore recorded at any time after it says FAILED, over PURGED too. */
  lemma RestoreAfterPurge(id: string, fs0: FS, items: seq<Item>, h: seq<Record>, disks: seq<FS>, steps: seq<Step>,
                          i: nat, j: nat)
    requires Run(id, fs0, items, h, disks, steps) && i < j < |steps|
    requires steps[i].Purging? && Records(steps[i].end) && steps[j].end.Written?
    ensures steps[j].Restoring? && h[j + 1].status == TransactionFailed
  {
    ExhaustedByPurge(id, fs0, items, h, disks, steps, i, j);
    hide *;
    RunGoesOn(id, fs0, items, h, disks, steps, j);
    StaysExhausted(id, fs0, h[j], disks[j], steps[j], h[j + 1], disks[j + 1]);
  }

  lemma {:induction false} ExhaustedByPurge(id: string, fs0: FS, items: seq<Item>, h: seq<Record>, disks: seq<FS>,
                                            steps: seq<Step>, i: nat, j: nat)
    requires Run(id, fs0, items, h, disks, steps) && i < j < |h|
    requires steps[i].Purging? && Records(steps[i].end)
    ensures Exhausted(h[j], disks[j])
  {
    hide Taken, Executed, Layout, Exhausted;
    if i + 1 < j {
      ExhaustedByPurge(id, fs0, items, h, disks, steps, i, j - 1);
      StaysExhausted(id, fs0, h[j - 1], disks[j - 1], steps[j - 1], h[j], disks[j]);
    } else {
      ExhaustedRightAfter(id, fs0, items, h, disks, steps, i);
    }
  }

  lemma ExhaustedRightAfter(id: string, fs0: FS, items: seq<Item>, h: seq<Record>, disks: seq<FS>, steps: seq<Step>,
                            i: nat)
    requires Run(id, fs0, items, h, disks, steps) && i < |steps| && steps[i].Purging? && Records(steps[i].end)
    ensures Exhausted(h[i + 1], disks[i + 1])
  {
    NothingToRestoreAfterPurge(id, fs0, items, h, disks, steps, i);
    RunGoesOn(id, fs0, items, h, disks, steps, i);
    PurgeWrites(id, fs0, h[i], disks[i], steps[i], h[i + 1], disks[i + 1]);
    RunKeepsPlaces(id, fs0, items, h, disks, steps, i + 1);
    var now := h[i + 1].items;
    PlacesAreAsMany(items, now);
    hide Run, NothingToRestore, Taken, Layout, SamePlaces, Vacant;
    forall k | 0 <= k < |now|
      ensures now[k].status != Restored
    {
      var at, before, after := RecordedPurge(id, fs0, items, h, disks, steps, i, k);
    }
  }

  lemma StaysExhausted(id: string, fs0: FS, a: Record, f: FS, s: Step, b: Record, f': FS)
    requires Taken(id, fs0, a, f, s, b, f') && Exhausted(a, f)
    ensures Exhausted(b, f') && s.Restoring? && (s.end.Written? ==> b.status == TransactionFailed)
  {
    hide Layout, Safe, SafeRestore, Changes, ChangesTrace, OnlyDirs, Brought, RelocatedTrace, Passable, AllBack,
         EmptyStays, NamesKept, Vacant;
    var now := s.after.items;
    assert s.Restoring? && f' == f;
    assert ReachOf(a.items, now, false).done == {};
    forall k | 0 <= k < |now|
      ensures now[k].status != Restored
      ensures now[k].status in {Moved, Skipped} ==> Vacant(f, now[k].quarantinePath)
    {
      assert RestoreStep(a.items[k], now[k]);
      assert k !in ReachOf(a.items, now, false).done;
    }
  }

  /** A recorded purge finds the record Execute left, and empties the slot of each item but those it calls FAILED. */
  lemma RecordedPurge(id: string, fs0: FS, items: seq<Item>, h: seq<Record>, disks: seq<FS>, steps: seq<Step>, i: nat,
                      k: nat) returns (at: Path, before: ItemStatus, after: ItemStatus)
    requires Run(id, fs0, items, h, disks, steps) && i < |steps| && k < |items|
    requires steps[i].Purging? && Records(steps[i].end)
    ensures h[i] == h[0] && |h[i + 1].items| == |items| == |h[0].items|
    ensures at == items[k].quarantinePath && before == h[0].items[k].status && after == h[i + 1].items[k].status
    ensures before in {Moved, Skipped, Failed} && if before == Moved then after in {Purged, Failed} else after == before
    ensures after != Failed || before == Failed ==> Vacant(disks[i + 1], at)
    ensures h[i + 1].status == AllPurged ==> after !in {Moved, Failed}
  {
    var s := steps[i];
    assert Taken(id, fs0, h[i], disks[i], s, h[i + 1], disks[i + 1]);
    hide Taken, PurgeRecorded, Layout, Vacant, SamePlaces, Executed;
    PurgeWrites(id, fs0, h[i], disks[i], s, h[i + 1], disks[i + 1]);
    PurgingIsConfined(id, fs0, h[i], disks[i], s, h[i + 1], disks[i + 1]);
    hide Confined;
    QuarantinedMeansUntouched(id, fs0, items, h, disks, steps, i);
    RunKeepsPlaces(id, fs0, items, h, disks, steps, 0);
    ExecutedStatus(id, fs0, disks[0], items, h[0], k);
    PlaceOf(items, h[0].items, k);
    PurgeRecordedTells(h[0], h[i + 1], disks[i], disks[i + 1], s.reliable, k);
    at, before, after := items[k].quarantinePath, h[0].items[k].status, h[i + 1].items[k].status;
    if before != Moved {
      NeverMovedMeansEmpty(id, fs0, items, h, disks, steps, i + 1, k);
    }
  }

  lemma ExecutedStatus(id: string, fs0: FS, fs: FS, items: seq<Item>, record: Record, k: nat)
    requires Executed(id, fs0, fs, items, record) && k < |items| && items[k].status in {Pending, Skipped}
    ensures |record.items| == |items| && record.items[k].status in {Moved, Skipped, Failed}
  {
    assert MoveStep(items[k], record.items[k]);
    hide Safe, Changes, Passable, Finishes, ReachOf, TruthfulAfterMove;
  }

  lemma PurgeRecordedTells(a: Record, b: Record, f: FS, f': FS, reliable: bool, k: nat)
    requires PurgeRecorded(a, b, f, f', reliable) && k < |a.items|
    ensures |b.items| == |a.items|
    ensures if a.items[k].status == Moved then b.items[k].status in {Purged, Failed}
            else b.items[k].status == a.items[k].status
    ensures a.items[k].status == Moved && b.items[k].status == Purged ==> Vacant(f', a.items[k].quarantinePath)
    ensures b.status == AllPurged ==> b.items[k].status !in {Moved, Failed}
  {
    assert PurgeStep(a.items[k], b.items[k]);
    hide Layout, Purgeable, Vacant;
  }

  /** Restores only, from any record and disk on. */
  ghost predicate Restores(id: string, fs0: FS, h: seq<Record>, disks: seq<FS>, steps: seq<Step>) {
    |h| == |disks| == |steps| + 1 &&
    forall i | 0 <= i < |steps| ::
      steps[i].Restoring? && Taken(id, fs0, h[i], disks[i], steps[i], h[i + 1], disks[i + 1])
  }

  /** Once nothing is left to restore, no Restore touches the disk again. */
  lemma {:induction false} NothingMovesAnyMore(id: string, fs0: FS, h: seq<Record>, disks: seq<FS>, steps: seq<Step>,
                                               i: nat)
    requires Restores(id, fs0, h, disks, steps) && i < |h| && NothingToRestore(h[0].items, disks[0])
    ensures disks[i] == disks[0] && NothingToRestore(h[i].items, disks[i])
  {
    hide Layout, Safe, SafeRestore, Finishes, Changes, ChangesTrace, OnlyDirs, ReachOf, Vacant;
    if i > 0 {
      NothingMovesAnyMore(id, fs0, h, disks, steps, i - 1);
      var a, f, s := h[i - 1], disks[i - 1], steps[i - 1];
      assert Taken(id, fs0, a, f, s, h[i], disks[i]);
      if s.end.Written? {
        forall j | 0 <= j < |s.after.items| && s.after.items[j].status in {Moved, Skipped}
          ensures Vacant(f, s.after.items[j].quarantinePath)
        {
          assert RestoreStep(a.items[j], s.after.items[j]);
        }
      }
    }
  }

  // While only Restore is called, the manifests stay as well.

  ghost predicate Whole(id: string, fs0: FS, a: Record, f: FS) {
    Layout(a.items) && Safe(id, fs0, f, a.items)
  }

  lemma ExecutedIsWhole(id: string, fs0: FS, fs: FS, items: seq<Item>, record: Record)
    requires Layout(items) && Executed(id, fs0, fs, items, record)
    requires forall k | 0 <= k < |items| :: items[k].status in {Pending, Skipped}
    ensures Whole(id, fs0, record, fs) && AllTruthful(fs0, fs, record.items)
  {
    hide Layout, Safe, Finishes, Changes, AtOriginal, InQuarantine, ReachOf, Passable;
    ExecutedIsRestorable(id, fs0, fs, items, record);
    forall j | 0 <= j < |items|
      ensures Truthful(fs0, fs, record.items[j])
    {
      assert MoveStep(items[j], record.items[j]) && TruthfulAfterMove(fs0, fs, record.items[j]);
    }
  }

  lemma RestoreKeepsWhole(id: string, fs0: FS, a: Record, f: FS, s: Step, b: Record, f': FS)
    requires Whole(id, fs0, a, f) && s.Restoring? && Taken(id, fs0, a, f, s, b, f')
    ensures Whole(id, fs0, b, f')
    ensures s.end.Written? && AllTruthful(fs0, f, a.items) ==> AllTruthful(fs0, f', b.items)
    ensures forall t | s.from <= t < |s.trace| :: Safe(id, fs0, s.trace[t], a.items)
  {
    hide Layout, Safe, Finishes, Changes, RestoreProgress, AllTruthful, ReachOf, SamePlaces;
    StepKeepsPlaces(id, fs0, a, f, s, b, f');
    LayoutOfSamePlaces(a.items, b.items);
    assert Safe(id, fs0, f', a.items);
    SafeOfSamePlaces(id, fs0, f', a.items, b.items);
  }

  /** Execute and then any run of Restores, crashes included: every tree is whole, in one of its two places, in every
      state the disk passes through, and its manifest names it. While outcomes get recorded, statuses tell where. */
  lemma {:induction false} ConservedOverRestores(id: string, fs0: FS, items: seq<Item>, h: seq<Record>, disks: seq<FS>,
                                                 steps: seq<Step>, i: nat)
    requires Run(id, fs0, items, h, disks, steps) && i < |h| && forall j | 0 <= j < |steps| :: steps[j].Restoring?
    ensures Whole(id, fs0, h[i], disks[i])
    ensures (forall j | 0 <= j < i :: steps[j].end.Written?) ==> AllTruthful(fs0, disks[i], h[i].items)
    ensures i < |steps| ==>
              forall t | steps[i].from <= t < |steps[i].trace| :: Safe(id, fs0, steps[i].trace[t], h[i].items)
  {
    hide Whole, Taken, AllTruthful, Executed, Layout, Safe;
    if i == 0 {
      ExecutedIsWhole(id, fs0, disks[0], items, h[0]);
    } else {
      ConservedOverRestores(id, fs0, items, h, disks, steps, i - 1);
      RestoreKeepsWhole(id, fs0, h[i - 1], disks[i - 1], steps[i - 1], h[i], disks[i]);
    }
    if i < |steps| {
      RestoreKeepsWhole(id, fs0, h[i], disks[i], steps[i], h[i + 1], disks[i + 1]);
    }
  }

  // When the record tells the truth.

  /** What a status promises. */
  ghost predicate Faithful(fs0: FS, fs: FS, item: Item) {
    match item.status
    case Moved => InQuarantine(fs0, fs, item)
    case Pending => AtOriginal(fs0, fs, item)
    case Restored => AtOriginal(fs0, fs, item)
    case Purged => Vacant(fs, item.quarantinePath)
    case Skipped => Intact(fs0, fs, item)
    case Failed => Intact(fs0, fs, item)
  }

  /** A recorded Restore; or a purge that records as PURGED whatever was purgeable when it began. */
  ghost predicate Clean(a: Record, f: FS, s: Step) {
    if s.Restoring? then s.end.Written?
    else forall k | 0 <= k < |a.items| && Purgeable(a.id, f, a.items[k]) ::
           Records(s.end) && |s.after.items| == |a.items| && s.after.items[k].status == Purged
  }

  /** Any purge on a disk and a repository that refuse nothing is clean. */
  lemma ReliablePurgeIsFaithful(before: Record, outcome: PurgeOutcome, grants: nat -> bool, tick: nat, f: FS, final: FS,
                                trace: seq<FS>, from: nat, update: nat, end: End)
    requires PurgeLeaves(before, outcome, grants, tick, f, final, trace, from, update, true) && Layout(before.items)
    requires outcome.NothingPurged? || (outcome.Recorded? && Records(end))
    ensures var after := if outcome.NothingPurged? then before else outcome.record;
            Clean(before, f, Purging(after, final, trace, from, update, true, end))
  {
    hide Layout, Confined, Purgeable, CutShort;
  }

  lemma StepKeepsFaith(id: string, fs0: FS, a: Record, f: FS, s: Step, b: Record, f': FS, k: nat)
    requires Layout(a.items) && Taken(id, fs0, a, f, s, b, f') && Clean(a, f, s) && k < |a.items| == |b.items|
    requires Faithful(fs0, f, a.items[k])
    ensures Faithful(fs0, f', b.items[k])
  {
    hide Layout, Faithful, RestoreProgress, SafeRestore, Safe, Finishes, Confined, PurgeRecorded, Purgeable;
    if s.Restoring? {
      RestoringIsFaithful(fs0, a, f, s, k);
    } else {
      PurgingIsFaithful(id, fs0, a, f, s, b, f', k);
    }
  }

  lemma PurgingIsFaithful(id: string, fs0: FS, a: Record, f: FS, s: Step, b: Record, f': FS, k: nat)
    requires Layout(a.items) && Taken(id, fs0, a, f, s, b, f') && Clean(a, f, s) && k < |a.items| == |b.items|
    requires Faithful(fs0, f, a.items[k]) && s.Purging?
    ensures Faithful(fs0, f', b.items[k])
  {
    hide *;
    StepKeepsPlaces(id, fs0, a, f, s, b, f');
    PlaceOf(a.items, b.items, k);
    PurgingIsConfined(id, fs0, a, f, s, b, f');
    PurgingTells(id, fs0, a, f, s, b, f', k);
    if !Purgeable(a.id, f, a.items[k]) {
      PurgeKeepsOthers(a.id, a.items, f, f', k);
      FaithWhenUndisturbed(fs0, f, f', a.items[k], b.items[k]);
    }
  }

  lemma PurgingTells(id: string, fs0: FS, a: Record, f: FS, s: Step, b: Record, f': FS, k: nat)
    requires Taken(id, fs0, a, f, s, b, f') && Clean(a, f, s) && k < |a.items| == |b.items| && s.Purging?
    requires SamePlace(a.items[k], b.items[k])
    ensures Purgeable(a.id, f, a.items[k]) ==> Faithful(fs0, f', b.items[k])
    ensures !Purgeable(a.id, f, a.items[k]) ==>
              b.items[k].status == a.items[k].status || (a.items[k].status == Moved && b.items[k].status == Failed)
  {
    hide Taken, Purgeable, Vacant, Layout;
    PurgeWrites(id, fs0, a, f, s, b, f');
    if Records(s.end) {
      PurgeRecordedTells(a, b, f, f', s.reliable, k);
    }
    if Purgeable(a.id, f, a.items[k]) {
      PurgeableIsMoved(a.id, f, a.items[k]);
    }
    hide PurgeRecorded;
  }

  lemma PurgeWrites(id: string, fs0: FS, a: Record, f: FS, s: Step, b: Record, f': FS)
    requires Taken(id, fs0, a, f, s, b, f') && s.Purging?
    ensures if Records(s.end) then b == s.after && PurgeRecorded(a, b, f, f', s.reliable) else b == a
  {
    hide PurgeRecorded, PurgesOnly, Confined;
  }

  lemma PurgeableIsMoved(id: string, f: FS, item: Item)
    requires Purgeable(id, f, item)
    ensures item.status == Moved
  {
  }

  /** An undisturbed item may go from MOVED to SKIPPED or FAILED, and is otherwise called what it was. */
  lemma FaithWhenUndisturbed(fs0: FS, a: FS, b: FS, x: Item, y: Item)
    requires SamePlace(x, y) && Undisturbed(a, b, x) && Faithful(fs0, a, x)
    requires y.status == x.status || (x.status == Moved && y.status in {Skipped, Failed}) ||
             (x.status == Skipped && y.status == Failed)
    ensures Faithful(fs0, b, y)
  {
    hide TreeAt, Vacant;
  }

  lemma RestoringIsFaithful(fs0: FS, a: Record, f: FS, s: Step, k: nat)
    requires Layout(a.items) && k < |a.items| == |s.after.items| && Faithful(fs0, f, a.items[k])
    requires RestoreProgress(a.items, s.after.items, f, s.final, s.trace, s.from, |a.items|, s.reliable)
    ensures Faithful(fs0, s.final, s.after.items[k])
  {
    var x, y := a.items[k], s.after.items[k];
    assert RestoreStep(x, y);
    assert k in ReachOf(a.items, s.after.items, false).done <==> x.status in {Moved, Skipped} && y.status == Restored;
    hide Layout, Changes, ChangesTrace, OnlyDirs, NothingToRestore, ReachOf, Passable, AllBack, EmptyStays,
         RelocatedTrace, Undisturbed;
    if x.status in {Moved, Skipped} && y.status == Restored {
      assert BroughtBack(f, s.final, x);
      BroughtBackIsHome(fs0, f, s.final, x, y);
    } else {
      assert Undisturbed(f, s.final, x);
      FaithWhenUndisturbed(fs0, f, s.final, x, y);
    }
  }

  lemma BroughtBackIsHome(fs0: FS, a: FS, b: FS, x: Item, y: Item)
    requires SamePlace(x, y) && BroughtBack(a, b, x) && Faithful(fs0, a, x) && x.status in {Moved, Skipped}
    ensures AtOriginal(fs0, b, y)
  {
    assert !Vacant(a, x.quarantinePath);
    hide TreeAt, Vacant;
  }

  lemma ExecutedIsFaithful(id: string, fs0: FS, fs: FS, items: seq<Item>, record: Record, k: nat)
    requires Executed(id, fs0, fs, items, record) && k < |items|
    ensures |record.items| == |items| && Faithful(fs0, fs, record.items[k])
  {
    assert MoveStep(items[k], record.items[k]) && TruthfulAfterMove(fs0, fs, record.items[k]);
    hide Safe, Changes, Passable, Finishes, ReachOf, InQuarantine, AtOriginal;
  }

  /** Over any run of clean calls every record tells the truth about every item. */
  lemma {:induction false} CleanRunIsFaithful(id: string, fs0: FS, items: seq<Item>, h: seq<Record>, disks: seq<FS>,
                                              steps: seq<Step>, i: nat, k: nat)
    requires Run(id, fs0, items, h, disks, steps) && i < |h| && k < |items| == |h[i].items|
    requires forall j | 0 <= j < i :: Clean(h[j], disks[j], steps[j])
    ensures Faithful(fs0, disks[i], h[i].items[k])
  {
    hide Executed, Taken, Layout, Clean, Faithful, SamePlaces;
    if i == 0 {
      ExecutedIsFaithful(id, fs0, disks[0], items, h[0], k);
    } else {
      RunKeepsPlaces(id, fs0, items, h, disks, steps, i - 1);
      assert |h[i - 1].items| == |items| by {
        PlacesAreAsMany(items, h[i - 1].items);
      }
      CleanRunIsFaithful(id, fs0, items, h, disks, steps, i - 1, k);
      StepKeepsFaith(id, fs0, h[i - 1], disks[i - 1], steps[i - 1], h[i], disks[i], k);
    }
  }

  lemma PlacesAreAsMany(a: seq<Item>, b: seq<Item>)
    requires SamePlaces(a, b)
    ensures |a| == |b|
  {
  }
}

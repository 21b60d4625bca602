/** cmd/daemon.go: the difference of two snapshots of the watched roots, and the log it feeds. */
module DaemonDiff {

  /** A walk never reports an empty path, and the code relies on it: "" stands for "no match found". */
  type FilePath = s: string | s != "" witness "f"

  datatype FileState = FileState(size: int, modified: int, root: string)

  type Snapshot = map<FilePath, FileState>

  datatype Event =
    | Create(path: FilePath, size: int)
    | Delete(path: FilePath, size: int)
    | Rename(oldPath: FilePath, path: FilePath, size: int)
    | SizeChange(path: FilePath, size: int)
    | Modify(path: FilePath, size: int)

  datatype Change = Change(root: string, event: Event)

  predicate Gone(before: Snapshot, after: Snapshot, p: FilePath) {
    p in before && p !in after
  }

  predicate Changed(before: Snapshot, after: Snapshot, p: FilePath) {
    p in before && p in after && (before[p].size != after[p].size || before[p].modified != after[p].modified)
  }

  /** The event is true of the two snapshots, and filed under the right root. */
  predicate Holds(before: Snapshot, after: Snapshot, c: Change) {
    match c.event
    case Create(p, size) => Gone(after, before, p) && size == after[p].size && c.root == after[p].root
    case Delete(p, size) => Gone(before, after, p) && size == before[p].size && c.root == before[p].root
    case Rename(o, p, size) =>
      Gone(before, after, o) && Gone(after, before, p) && before[o] == after[p] && size == after[p].size &&
      c.root == before[o].root
    case SizeChange(p, size) =>
      p in before && p in after && before[p].size != after[p].size && size == after[p].size && c.root == after[p].root
    case Modify(p, size) =>
      p in before && p in after && before[p].size == after[p].size && before[p].modified != after[p].modified &&
      size == after[p].size && c.root == after[p].root
  }

  function Touches(e: Event): set<FilePath> {
    if e.Rename? then {e.oldPath, e.path} else {e.path}
  }

  predicate Apart(changes: seq<Change>) {
    forall i, j | 0 <= i < j < |changes| :: Touches(changes[i].event) !! Touches(changes[j].event)
  }

  ghost predicate Covered(changes: seq<Change>, p: FilePath) {
    exists i | 0 <= i < |changes| :: p in Touches(changes[i].event)
  }

  /** A correct account of what happened: true events, each changed path in exactly one of them, and no other. */
  ghost predicate Describes(before: Snapshot, after: Snapshot, changes: seq<Change>) {
    (forall i | 0 <= i < |changes| :: Holds(before, after, changes[i])) && Apart(changes) &&
    (forall p :: Gone(before, after, p) || Gone(after, before, p) || Changed(before, after, p) <==> Covered(changes, p))
  }

  /** No deletion is left that could have been half of a rename. */
  ghost predicate MatchedOut(before: Snapshot, after: Snapshot, changes: seq<Change>) {
    forall i, j | 0 <= i < |changes| && 0 <= j < |changes| && changes[i].event.Delete? && changes[j].event.Create? &&
                  changes[i].event.path in before && changes[j].event.path in after ::
      before[changes[i].event.path] != after[changes[j].event.path]
  }

  /** The search for a rename target, over the created files in whatever order the map yields them. */
  method FindTarget(created: map<FilePath, FileState>, was: FileState) returns (renamed: string)
    ensures renamed != "" ==> renamed in created && created[renamed] == was
    ensures renamed == "" ==> forall p | p in created :: created[p] != was
  {
    renamed := "";
    var todo := created.Keys;
    while todo != {}
      invariant renamed == "" && todo <= created.Keys
      invariant forall p | p in created && p !in todo :: created[p] != was
    {
      var newPath :| newPath in todo;
      var current := created[newPath];
      if was.size == current.size && was.modified == current.modified && was.root == current.root {
        renamed := newPath;
        break;
      }
      todo := todo - {newPath};
    }
  }

  lemma Extended(changes: seq<Change>, c: Change)
    requires Apart(changes) && forall i | 0 <= i < |changes| :: Touches(changes[i].event) !! Touches(c.event)
    ensures Apart(changes + [c])
    ensures forall p :: Covered(changes + [c], p) <==> Covered(changes, p) || p in Touches(c.event)
  {
    var all := changes + [c];
    forall p
      ensures Covered(all, p) <==> Covered(changes, p) || p in Touches(c.event)
    {
      if i :| 0 <= i < |changes| && p in Touches(changes[i].event) {
        assert p in Touches(all[i].event);
      }
      if p in Touches(c.event) {
        assert p in Touches(all[|changes|].event);
      }
    }
  }

  lemma AddsChange(before: Snapshot, after: Snapshot, changes: seq<Change>, c: Change)
    requires Apart(changes) && (forall i | 0 <= i < |changes| :: Holds(before, after, changes[i]))
    requires Holds(before, after, c) && forall p | p in Touches(c.event) :: !Covered(changes, p)
    ensures Apart(changes + [c]) && forall i | 0 <= i <= |changes| :: Holds(before, after, (changes + [c])[i])
    ensures forall p :: Covered(changes + [c], p) <==> Covered(changes, p) || p in Touches(c.event)
  {
    hide Holds;
    forall i | 0 <= i < |changes|
      ensures Touches(changes[i].event) !! Touches(c.event)
    {
      assert forall p | p in Touches(changes[i].event) :: Covered(changes, p);
    }
    Extended(changes, c);
  }

  /** First pass: files in both snapshots, and the deleted ones set aside. */
  method ComparePaths(before: Snapshot, after: Snapshot)
        returns (changes: seq<Change>, deleted: map<FilePath, FileState>)
    ensures Apart(changes) && forall i | 0 <= i < |changes| :: Holds(before, after, changes[i])
    ensures forall i | 0 <= i < |changes| :: changes[i].event.SizeChange? || changes[i].event.Modify?
    ensures forall p :: Covered(changes, p) <==> Changed(before, after, p)
    ensures forall p :: p in deleted <==> Gone(before, after, p)
    ensures forall p | p in deleted :: p in before && deleted[p] == before[p]
  {
    changes, deleted := [], map[];
    var todo := before.Keys;
    while todo != {}
      invariant todo <= before.Keys
      invariant Apart(changes) && forall i | 0 <= i < |changes| :: Holds(before, after, changes[i])
      invariant forall i | 0 <= i < |changes| :: changes[i].event.SizeChange? || changes[i].event.Modify?
      invariant forall p :: Covered(changes, p) <==> p !in todo && Changed(before, after, p)
      invariant forall p :: p in deleted <==> p !in todo && Gone(before, after, p)
      invariant forall p | p in deleted :: p in before && deleted[p] == before[p]
      decreases |todo|
    {
      hide Apart, Covered, Holds;
      var path :| path in todo;
      var was := before[path];
      todo := todo - {path};
      if path !in after {
        deleted := deleted[path := was];
        continue;
      }
      var current := after[path];
      if current.size != was.size {
        var c := Change(current.root, SizeChange(path, current.size));
        EventHolds(before, after, c);
        AddsChange(before, after, changes, c);
        changes := changes + [c];
      } else if current.modified != was.modified {
        var c := Change(current.root, Modify(path, current.size));
        EventHolds(before, after, c);
        AddsChange(before, after, changes, c);
        changes := changes + [c];
      }
    }
  }

  lemma EventHolds(before: Snapshot, after: Snapshot, c: Change)
    requires c.event.SizeChange? || c.event.Modify?
    requires var p := c.event.path;
             Changed(before, after, p) && c.event.size == after[p].size && c.root == after[p].root &&
             (c.event.SizeChange? <==> before[p].size != after[p].size)
    ensures Holds(before, after, c)
  {
  }

  function Without(m: map<FilePath, FileState>, p: FilePath): (r: map<FilePath, FileState>)
    ensures forall q :: q in r <==> q in m && q != p
    ensures forall q | q in r :: r[q] == m[q]
  {
    map q | q in m && q != p :: m[q]
  }

  /** Second pass: the created files. */
  method FindCreated(before: Snapshot, after: Snapshot) returns (created: map<FilePath, FileState>)
    ensures forall p :: p in created <==> Gone(after, before, p)
    ensures forall p | p in created :: p in after && created[p] == after[p]
  {
    created := map[];
    var todo := after.Keys;
    while todo != {}
      invariant todo <= after.Keys
      invariant forall p :: p in created <==> p !in todo && Gone(after, before, p)
      invariant forall p | p in created :: p in after && created[p] == after[p]
      decreases |todo|
    {
      var path :| path in todo;
      todo := todo - {path};
      if path !in before {
        created := created[path := after[path]];
      }
    }
  }

  /** What holds while deletions are being matched: a DELETE is only written when nothing created fits, and what
      is created only shrinks. */
  ghost predicate Matching(before: Snapshot, after: Snapshot, changes: seq<Change>, todo: set<FilePath>,
                           created: map<FilePath, FileState>) {
    Apart(changes) &&
    (forall i | 0 <= i < |changes| :: Holds(before, after, changes[i]) && !changes[i].event.Create?) &&
    (forall p | p in todo :: Gone(before, after, p)) &&
    (forall p | p in created :: Gone(after, before, p) && created[p] == after[p]) &&
    (forall p :: Covered(changes, p) <==>
       Changed(before, after, p) || (Gone(before, after, p) && p !in todo) ||
       (Gone(after, before, p) && p !in created)) &&
    (forall i, p | 0 <= i < |changes| && changes[i].event.Delete? && p in created ::
       changes[i].event.path in before && created[p] != before[changes[i].event.path])
  }

  lemma MatchOne(before: Snapshot, after: Snapshot, changes: seq<Change>, todo: set<FilePath>,
                 created: map<FilePath, FileState>, p: FilePath, renamed: string)
    requires Matching(before, after, changes, todo, created) && p in todo && p in before
    requires renamed != "" ==> renamed in created && created[renamed] == before[p]
    requires renamed == "" ==> forall q | q in created :: created[q] != before[p]
    ensures renamed != "" ==>
              Matching(before, after, changes + [Change(before[p].root, Rename(p, renamed, created[renamed].size))],
                       todo - {p}, Without(created, renamed))
    ensures renamed == "" ==>
              Matching(before, after, changes + [Change(before[p].root, Delete(p, before[p].size))], todo - {p},
                       created)
  {
    hide Apart, Covered;
    var c := Change(before[p].root,
                    if renamed != "" then Rename(p, renamed, created[renamed].size) else Delete(p, before[p].size));
    assert Holds(before, after, c);
    AddsChange(before, after, changes, c);
  }

  method Diff(before: Snapshot, after: Snapshot) returns (changes: seq<Change>)
    ensures Describes(before, after, changes) && MatchedOut(before, after, changes)
  {
    hide Apart, Covered, Holds, Matching, Changed;
    var deleted: map<FilePath, FileState>;
    changes, deleted := ComparePaths(before, after);
    var created: map<FilePath, FileState> := FindCreated(before, after);
    var todo: set<FilePath> := deleted.Keys;
    MatchingStarts(before, after, changes, todo, created);
    while todo != {}
      invariant todo <= deleted.Keys
      invariant Matching(before, after, changes, todo, created)
      decreases |todo|
    {
      var oldPath :| oldPath in todo;
      var was := deleted[oldPath];
      var renamed := FindTarget(created, was);
      MatchOne(before, after, changes, todo, created, oldPath, renamed);
      todo := todo - {oldPath};
      if renamed != "" {
        var current := created[renamed];
        created := Without(created, renamed);
        changes := changes + [Change(was.root, Rename(oldPath, renamed, current.size))];
      } else {
        changes := changes + [Change(was.root, Delete(oldPath, was.size))];
      }
    }
    var left: set<FilePath> := created.Keys;
    CreatingStarts(before, after, changes, created);
    while left != {}
      invariant left <= created.Keys
      invariant Creating(before, after, changes, left, created)
      decreases |left|
    {
      var path :| path in left;
      var current := created[path];
      CreateOne(before, after, changes, left, created, path);
      left := left - {path};
      changes := changes + [Change(current.root, Create(path, current.size))];
    }
    CreatingEnds(before, after, changes, created);
  }

  lemma MatchingStarts(before: Snapshot, after: Snapshot, changes: seq<Change>, todo: set<FilePath>,
                       created: map<FilePath, FileState>)
    requires Apart(changes)
    requires forall i | 0 <= i < |changes| ::
               Holds(before, after, changes[i]) && (changes[i].event.SizeChange? || changes[i].event.Modify?)
    requires forall p :: Covered(changes, p) <==> Changed(before, after, p)
    requires forall p :: p in todo <==> Gone(before, after, p)
    requires forall p :: p in created <==> Gone(after, before, p)
    requires forall p | p in created :: p in after && created[p] == after[p]
    ensures Matching(before, after, changes, todo, created)
  {
    hide Apart, Covered, Holds;
  }

  /** What holds while the unmatched created files are written out. */
  ghost predicate Creating(before: Snapshot, after: Snapshot, changes: seq<Change>, left: set<FilePath>,
                           created: map<FilePath, FileState>) {
    Apart(changes) && (forall i | 0 <= i < |changes| :: Holds(before, after, changes[i])) && left <= created.Keys &&
    (forall p | p in created :: Gone(after, before, p) && created[p] == after[p]) &&
    (forall p :: Covered(changes, p) <==>
       Changed(before, after, p) || Gone(before, after, p) || (Gone(after, before, p) && p !in left)) &&
    (forall i, p | 0 <= i < |changes| && changes[i].event.Delete? && p in created ::
       changes[i].event.path in before && created[p] != before[changes[i].event.path]) &&
    (forall i | 0 <= i < |changes| && changes[i].event.Create? :: changes[i].event.path in created)
  }

  lemma CreatingStarts(before: Snapshot, after: Snapshot, changes: seq<Change>, created: map<FilePath, FileState>)
    requires Matching(before, after, changes, {}, created)
    ensures Creating(before, after, changes, created.Keys, created)
  {
    hide Apart, Covered, Holds;
  }

  lemma CreateOne(before: Snapshot, after: Snapshot, changes: seq<Change>, left: set<FilePath>,
                  created: map<FilePath, FileState>, p: FilePath)
    requires Creating(before, after, changes, left, created) && p in left
    ensures Creating(before, after, changes + [Change(created[p].root, Create(p, created[p].size))], left - {p},
                     created)
  {
    hide Apart, Covered;
    var c := Change(created[p].root, Create(p, created[p].size));
    assert Holds(before, after, c);
    AddsChange(before, after, changes, c);
  }

  lemma CreatingEnds(before: Snapshot, after: Snapshot, changes: seq<Change>, created: map<FilePath, FileState>)
    requires Creating(before, after, changes, {}, created)
    ensures Describes(before, after, changes) && MatchedOut(before, after, changes)
  {
    hide Apart, Covered, Holds;
  }
}

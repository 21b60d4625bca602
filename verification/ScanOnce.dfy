/** internal/scanner/scanner.go: when a scan visits no path twice. Roots are told apart by their text alone, so one root
    may lie below another. */
module ScanOnce {
  import opened Wrappers
  import opened Paths
  import opened Walk
  import opened ScanProtocol
  import opened Scan

  ghost predicate Once(entries: seq<Entry>) {
    forall i, j | 0 <= i < j < |entries| :: entries[i].path != entries[j].path
  }

  ghost predicate Apart(a: seq<Entry>, b: seq<Entry>) {
    forall e, f | e in a && f in b :: e.path != f.path
  }

  ghost predicate Different(names: seq<string>) {
    forall i, j | 0 <= i < j < |names| :: names[i] != names[j]
  }

  /** What os.ReadDir promises: the names in one directory differ. */
  ghost predicate NamesDiffer(fs: FileSystem) {
    forall p | fs.readDir(p).Some? :: Different(fs.readDir(p).value)
  }

  ghost predicate PathsDiffer(tasks: seq<Task>) {
    forall i, j | 0 <= i < j < |tasks| :: tasks[i].path != tasks[j].path
  }

  lemma OnceJoined(a: seq<Entry>, b: seq<Entry>)
    ensures Once(a + b) <==> Once(a) && Once(b) && Apart(a, b)
  {
    var ab := a + b;
    if Once(ab) {
      assert forall i | 0 <= i < |a| :: a[i] == ab[i];
      assert forall j | 0 <= j < |b| :: b[j] == ab[|a| + j];
    }
  }

  // One walk.

  lemma {:induction false} NamesOnce(c: Setting, task: Task, names: seq<string>)
    requires Different(names)
    ensures Once(ScanNames(c, task, names).entries) && PathsDiffer(ScanNames(c, task, names).children)
    ensures forall e | e in ScanNames(c, task, names).entries :: |e.path| == |task.path| + 1 && Last(e.path) in names
    ensures forall t | t in ScanNames(c, task, names).children ::
              |t.path| == |task.path| + 1 && task.path < t.path && Last(t.path) in names
  {
    hide ScanName;
    if names != [] {
      var n := |names| - 1;
      NamesOnce(c, task, names[..n]);
      OneName(c, task, names[n]);
      assert names[n] !in names[..n];
      hide Once;
      OnceJoined(ScanNames(c, task, names[..n]).entries, ScanName(c, task, names[n]).entries);
    }
  }

  lemma OneName(c: Setting, task: Task, name: string)
    ensures var r := ScanName(c, task, name);
            Once(r.entries) && |r.children| <= 1 &&
            (forall e | e in r.entries :: e.path == task.path + [name]) &&
            (forall t | t in r.children :: t.path == task.path + [name]) &&
            (task.depth + 1 < c.maxDepth ==>
               forall e | e in r.entries && e.kind == Folder :: Task(e.path, task.depth + 1) in r.children)
  {
  }

  function Last(p: Path): string
    requires p != []
  {
    p[|p| - 1]
  }

  lemma ListingOnce(c: Setting, task: Task)
    requires NamesDiffer(c.fs)
    ensures Once(ScanDirectory(c, task).entries) && PathsDiffer(ScanDirectory(c, task).children)
    ensures forall t | t in ScanDirectory(c, task).children :: |t.path| == |task.path| + 1 && task.path < t.path
  {
    if c.fs.readDir(task.path).Some? {
      NamesOnce(c, task, c.fs.readDir(task.path).value);
    }
  }

  lemma {:induction false} VisitsOnce(c: Setting, task: Task)
    requires NamesDiffer(c.fs)
    ensures Once(Visits(c, task))
    decreases c.maxDepth - task.depth, 1, 0
  {
    hide Once;
    var r := ScanDirectory(c, task);
    ListingOnce(c, task);
    BelowOnce(c, task, r.children);
    forall e, f | e in r.entries && f in VisitsBelow(c, task, r.children)
      ensures e.path != f.path
    {
      var t := VisitedBelow(c, task, r.children, f);
      assert |e.path| == |t.path| < |f.path|;
    }
    OnceJoined(r.entries, VisitsBelow(c, task, r.children));
  }

  ghost predicate Children(c: Setting, task: Task, tasks: seq<Task>) {
    forall t | t in tasks :: t.depth == task.depth + 1 < c.maxDepth && |t.path| == |task.path| + 1 && task.path < t.path
  }

  lemma {:induction false} BelowOnce(c: Setting, task: Task, tasks: seq<Task>)
    requires NamesDiffer(c.fs) && Children(c, task, tasks) && PathsDiffer(tasks)
    ensures Once(VisitsBelow(c, task, tasks))
    decreases c.maxDepth - task.depth, 0, |tasks|
  {
    if tasks != [] {
      var first, rest := tasks[0], tasks[1..];
      VisitsOnce(c, first);
      BelowOnce(c, task, rest);
      hide Visits, Once;
      forall e, f | e in Visits(c, first) && f in VisitsBelow(c, task, rest)
        ensures e.path != f.path
      {
        var t := VisitedBelow(c, task, rest, f);
        assert t in rest && first.path != t.path;
        if e.path == f.path {
          AncestorsFormAChain(e.path, first.path, t.path);
        }
      }
      OnceJoined(Visits(c, first), VisitsBelow(c, task, rest));
    }
  }

  lemma {:induction false} VisitedBelow(c: Setting, task: Task, tasks: seq<Task>, e: Entry) returns (t: Task)
    requires Children(c, task, tasks) && e in VisitsBelow(c, task, tasks)
    ensures t in tasks && e in Visits(c, t) && t.path < e.path
  {
    hide Visits;
    if e in Visits(c, tasks[0]) {
      t := tasks[0];
    } else {
      t := VisitedBelow(c, task, tasks[1..], e);
    }
  }

  lemma {:induction false} BelowVisits(c: Setting, task: Task, tasks: seq<Task>, t: Task)
    requires Children(c, task, tasks) && t in tasks
    ensures forall e | e in Visits(c, t) :: e in VisitsBelow(c, task, tasks)
  {
    hide Visits;
    if t != tasks[0] {
      BelowVisits(c, task, tasks[1..], t);
    }
  }

  // Several roots.

  /** The walk of r enters the directory of the root q, and finds something in it. */
  ghost predicate Doubled(c: Setting, r: Task, q: Task) {
    r.path < q.path && |q.path| - |r.path| < c.maxDepth && ScanDirectory(c, q).entries != [] &&
    exists e | e in Visits(c, r) :: e.path == q.path && e.kind == Folder
  }

  ghost predicate AreRoots(roots: seq<Task>) {
    PathsDiffer(roots) && forall t | t in roots :: t.depth == 0
  }

  /** A walk that visits something below q has entered q. */
  lemma {:induction false} PassesThrough(c: Setting, task: Task, e: Entry, q: Path) returns (via: Entry)
    requires NamesDiffer(c.fs) && e in Visits(c, task) && task.path < q < e.path
    ensures via in Visits(c, task) && via.path == q && via.kind == Folder
    ensures task.depth + |q| - |task.path| < c.maxDepth
    decreases c.maxDepth - task.depth
  {
    var r := ScanDirectory(c, task);
    ListingOnce(c, task);
    assert e in VisitsBelow(c, task, r.children);
    var t := VisitedBelow(c, task, r.children, e);
    AncestorsFormAChain(e.path, t.path, q);
    if t.path == q {
      via :| via in r.entries && via.path == q && via.kind == Folder;
    } else {
      via := PassesThrough(c, t, e, q);
      BelowVisits(c, task, r.children, t);
    }
  }

  /** A walk that enters a directory above the depth limit visits what the directory lists. */
  lemma {:induction false} VisitsListing(c: Setting, task: Task, via: Entry, q: Task)
    requires NamesDiffer(c.fs) && via in Visits(c, task) && via.kind == Folder && q.path == via.path
    requires q.depth == task.depth + |q.path| - |task.path| < c.maxDepth
    ensures forall e | e in ScanDirectory(c, q).entries :: e in Visits(c, task)
    decreases c.maxDepth - task.depth
  {
    var r := ScanDirectory(c, task);
    ListingOnce(c, task);
    if via in r.entries {
      FoldersAreChildren(c, task, via);
      assert q in r.children;
      BelowVisits(c, task, r.children, q);
    } else {
      var t := VisitedBelow(c, task, r.children, via);
      VisitsListing(c, t, via, q);
      BelowVisits(c, task, r.children, t);
    }
  }

  lemma FoldersAreChildren(c: Setting, task: Task, via: Entry)
    requires via in ScanDirectory(c, task).entries && via.kind == Folder && task.depth + 1 < c.maxDepth
    ensures Task(via.path, task.depth + 1) in ScanDirectory(c, task).children
  {
    FoldersOfNames(c, task, c.fs.readDir(task.path).value, via);
  }

  lemma {:induction false} FoldersOfNames(c: Setting, task: Task, names: seq<string>, via: Entry)
    requires via in ScanNames(c, task, names).entries && via.kind == Folder && task.depth + 1 < c.maxDepth
    ensures Task(via.path, task.depth + 1) in ScanNames(c, task, names).children
  {
    hide ScanName;
    var n := |names| - 1;
    OneName(c, task, names[n]);
    if via !in ScanName(c, task, names[n]).entries {
      FoldersOfNames(c, task, names[..n], via);
    }
  }

  /** Above the depth limit a directory lists the same entries at every depth. */
  lemma SameListing(c: Setting, t: Task, q: Task)
    requires t.path == q.path && t.depth < c.maxDepth && q.depth < c.maxDepth
    ensures ScanDirectory(c, t).entries == ScanDirectory(c, q).entries
  {
    if c.fs.readDir(t.path).Some? {
      SameNames(c, t, q, c.fs.readDir(t.path).value);
    }
  }

  lemma {:induction false} SameNames(c: Setting, t: Task, q: Task, names: seq<string>)
    requires t.path == q.path && t.depth < c.maxDepth && q.depth < c.maxDepth
    ensures ScanNames(c, t, names).entries == ScanNames(c, q, names).entries
  {
    if names != [] {
      SameNames(c, t, q, names[..|names| - 1]);
    }
  }

  /** Two roots have an entry in common exactly when one is doubled by the other. */
  lemma WalksMeetExactlyWhen(c: Setting, r: Task, q: Task)
    requires NamesDiffer(c.fs) && r.path != q.path && r.depth == q.depth == 0
    ensures Apart(Visits(c, r), Visits(c, q)) <==> !Doubled(c, r, q) && !Doubled(c, q, r)
  {
    hide Visits, Doubled;
    if Doubled(c, r, q) {
      DoubledMeet(c, r, q);
    }
    if Doubled(c, q, r) {
      DoubledMeet(c, q, r);
    }
    if e, f :| e in Visits(c, r) && f in Visits(c, q) && e.path == f.path {
      AncestorsFormAChain(e.path, r.path, q.path);
      if r.path < q.path {
        MeetingDoubles(c, r, q, e, f);
      } else {
        MeetingDoubles(c, q, r, f, e);
      }
    }
  }

  lemma DoubledMeet(c: Setting, r: Task, q: Task)
    requires NamesDiffer(c.fs) && r.depth == q.depth == 0 && Doubled(c, r, q)
    ensures exists e :: e in Visits(c, r) && e in Visits(c, q)
  {
    var via :| via in Visits(c, r) && via.path == q.path && via.kind == Folder;
    var deep := Task(q.path, |q.path| - |r.path|);
    SameListing(c, q, deep);
    VisitsListing(c, r, via, deep);
    var e := ScanDirectory(c, q).entries[0];
    assert e in ScanDirectory(c, deep).entries;
    assert e in Visits(c, r) && e in Visits(c, q);
  }

  lemma MeetingDoubles(c: Setting, r: Task, q: Task, e: Entry, f: Entry)
    requires NamesDiffer(c.fs) && r.depth == q.depth == 0 && r.path < q.path
    requires e in Visits(c, r) && f in Visits(c, q) && e.path == f.path
    ensures Doubled(c, r, q)
  {
    var via := PassesThrough(c, r, e, q.path);
    var r' := ScanDirectory(c, q);
    if f !in r'.entries {
      ListingOnce(c, q);
      var t := VisitedBelow(c, q, r'.children, f);
    }
  }

  lemma {:induction false} VisitedFromRoot(c: Setting, roots: seq<Task>, e: Entry)
    ensures e in VisitsOf(c, roots) <==> exists t | t in roots :: e in Visits(c, t)
  {
    hide Visits;
    if roots != [] {
      var rest := roots[1..];
      VisitedFromRoot(c, rest, e);
      assert roots == [roots[0]] + rest;
      if e in VisitsOf(c, rest) {
        var t :| t in rest && e in Visits(c, t);
        assert t in roots;
      } else if t :| t in roots && e in Visits(c, t) {
        assert t == roots[0] || t in rest;
      }
    }
  }

  ghost predicate NoneDoubled(c: Setting, roots: seq<Task>) {
    forall r, q | r in roots && q in roots :: !Doubled(c, r, q)
  }

  /** A file below two nested roots is visited from both. */
  lemma NestedRootsDouble()
    ensures var names := (p: Path) => if p == ["w"] then Some(["s"]) else if p == ["w", "s"] then Some(["f"]) else None;
            var info := (p: Path) => Some(Info(if p == ["w", "s"] then Folder else RegularFile, 1));
            var c := Setting(FileSystem(names, info), NO_EXCLUDES, 2);
            NamesDiffer(c.fs) && Doubled(c, Task(["w"], 0), Task(["w", "s"], 0))
  {
    var names := (p: Path) => if p == ["w"] then Some(["s"]) else if p == ["w", "s"] then Some(["f"]) else None;
    var info := (p: Path) => Some(Info(if p == ["w", "s"] then Folder else RegularFile, 1));
    var c := Setting(FileSystem(names, info), NO_EXCLUDES, 2);
    var r, q := Task(["w"], 0), Task(["w", "s"], 0);
    hide ScanDirectory, Visits;
    assert ["w"] + ["s"] == ["w", "s"] && ["w"] < ["w", "s"];
    SoleEntry(c, r, "s");
    SoleEntry(c, q, "f");
    ListedIsVisited(c, r, Entry(["w", "s"], Folder, 0));
  }

  lemma ListedIsVisited(c: Setting, t: Task, e: Entry)
    requires e in ScanDirectory(c, t).entries
    ensures e in Visits(c, t)
  {
    hide ScanDirectory;
  }

  lemma SoleEntry(c: Setting, t: Task, name: string)
    requires c.matcher == NO_EXCLUDES && t.depth < c.maxDepth
    requires c.fs.readDir(t.path) == Some([name]) && c.fs.lstat(t.path + [name]).Some?
    ensures ScanDirectory(c, t).entries == [EntryFromInfo(t.path + [name], c.fs.lstat(t.path + [name]).value)]
  {
    assert [name][..0] == [];
    assert ScanNames(c, t, [name]).entries == ScanNames(c, t, []).entries + ScanName(c, t, name).entries;
  }

  /** The walks of all roots visit no path twice, exactly when no root is doubled by another. */
  lemma {:induction false} OnceExactlyWhen(c: Setting, roots: seq<Task>)
    requires NamesDiffer(c.fs) && AreRoots(roots)
    ensures Once(VisitsOf(c, roots)) <==> NoneDoubled(c, roots)
  {
    hide Visits, Doubled, Once, Apart;
    if roots == [] {
      NothingVisited(c);
    } else {
      var first, rest := roots[0], roots[1..];
      assert first in roots && forall t | t in rest :: t in roots && t.path != first.path;
      OnceExactlyWhen(c, rest);
      VisitsOnce(c, first);
      OnceJoined(Visits(c, first), VisitsOf(c, rest));
      ApartFromAll(c, first, rest);
      assert !Doubled(c, first, first) by {
        NotDoubledByItself(c, first);
      }
      assert forall t | t in roots :: t == first || t in rest;
    }
  }

  lemma NothingVisited(c: Setting)
    ensures Once(VisitsOf(c, []))
  {
  }

  lemma NotDoubledByItself(c: Setting, t: Task)
    ensures !Doubled(c, t, t)
  {
  }

  lemma ApartFromAll(c: Setting, first: Task, rest: seq<Task>)
    requires NamesDiffer(c.fs) && first.depth == 0 && forall t | t in rest :: t.depth == 0 && t.path != first.path
    ensures Apart(Visits(c, first), VisitsOf(c, rest)) <==>
            forall t | t in rest :: !Doubled(c, first, t) && !Doubled(c, t, first)
  {
    hide Visits, Doubled;
    forall t | t in rest
      ensures Apart(Visits(c, first), Visits(c, t)) <==> !Doubled(c, first, t) && !Doubled(c, t, first)
    {
      WalksMeetExactlyWhen(c, first, t);
    }
    forall e
      ensures e in VisitsOf(c, rest) <==> exists t | t in rest :: e in Visits(c, t)
    {
      VisitedFromRoot(c, rest, e);
    }
  }

  // Every schedule.

  lemma {:induction false} OnceMeansOne(entries: seq<Entry>, e: Entry)
    requires Once(entries)
    ensures multiset(entries)[e] <= 1
  {
    if entries != [] {
      var n := |entries| - 1;
      assert entries == entries[..n] + [entries[n]];
      OnceMeansOne(entries[..n], e);
      assert e == entries[n] ==> e !in entries[..n];
    }
  }

  lemma PartVisitsOnce(part: seq<Entry>, whole: seq<Entry>)
    requires multiset(part) <= multiset(whole) && Once(whole)
    ensures Once(part)
  {
    forall i, j | 0 <= i < j < |part|
      ensures part[i].path != part[j].path
    {
      var e, f := part[i], part[j];
      assert e in multiset(whole) && f in multiset(whole);
      if e == f {
        assert part == part[..j] + [e] + part[j + 1..];
        assert e in part[..j];
        assert multiset(part)[e] >= 2;
        OnceMeansOne(whole, e);
      } else {
        assert e in whole && f in whole;
      }
    }
  }

  /** In every state of every run, a scan with roots of which none is doubled has visited no path twice; and if one
      is doubled, every completed scan has visited some path twice. */
  lemma EveryScheduleVisitsOnce(c: Setting, roots: seq<Task>, workers: nat, run: seq<State>, i: nat)
    requires IsRun(c, roots, workers, run) && i < |run| && NamesDiffer(c.fs) && AreRoots(roots)
    ensures NoneDoubled(c, roots) ==> Once(run[i].visited)
    ensures run[i].phase == Stopped(Completed) ==> (Once(run[i].visited) <==> NoneDoubled(c, roots))
  {
    hide Once, NoneDoubled, WalkAll;
    var s := run[i];
    VisitedSoFar(c, roots, workers, run, i);
    VisitsOfRoots(c, roots);
    OnceExactlyWhen(c, roots);
    if NoneDoubled(c, roots) {
      PartVisitsOnce(s.visited, VisitsOf(c, roots));
    } else if s.phase == Stopped(Completed) && Once(s.visited) {
      PartVisitsOnce(VisitsOf(c, roots), s.visited);
    }
  }

  lemma VisitedSoFar(c: Setting, roots: seq<Task>, workers: nat, run: seq<State>, i: nat)
    requires IsRun(c, roots, workers, run) && i < |run|
    ensures multiset(run[i].visited) <= WalkAll(c, roots).visited
    ensures run[i].phase == Stopped(Completed) ==> multiset(run[i].visited) == WalkAll(c, roots).visited
  {
    RunKeepsInvariant(c, roots, workers, run, i);
    if run[i].phase.Running? {
      SomeCounted(c, roots, run[i]);
    }
  }

  /** So no path is visited twice where no root lies below another. */
  lemma RootsThatDoNotNest(c: Setting, roots: seq<Task>)
    requires forall i, j | 0 <= i < j < |roots| :: !Nested(roots[i].path, roots[j].path)
    ensures PathsDiffer(roots) && NoneDoubled(c, roots)
  {
    forall r, q | r in roots && q in roots
      ensures !Doubled(c, r, q)
    {
      var i :| 0 <= i < |roots| && roots[i] == r;
      var j :| 0 <= j < |roots| && roots[j] == q;
      if i < j {
        assert !Nested(roots[i].path, roots[j].path);
      } else if j < i {
        assert !Nested(roots[j].path, roots[i].path);
      }
    }
  }
}

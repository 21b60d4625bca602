/** internal/scanner/scanner.go on a fixed file system: reading one directory, and the sequential walk that
    every schedule of the parallel scanner has to agree with. */
module Walk {
  import opened Wrappers
  import opened Paths
  import opened Excludes

  datatype Kind = RegularFile | Folder | Symlink | Other

  datatype Info = Info(kind: Kind, size: int)

  /** What os.ReadDir and os.Lstat answer, None being an error. */
  datatype FileSystem = FileSystem(readDir: Path -> Option<seq<string>>, lstat: Path -> Option<Info>)

  datatype Entry = Entry(path: Path, kind: Kind, size: nat)

  datatype Operation = ReadDirectory | InspectEntry | InspectRoot | NormalizeRoot

  datatype Issue = Issue(path: Path, operation: Operation)

  datatype Task = Task(path: Path, depth: nat)

  datatype Listing = Listing(entries: seq<Entry>, children: seq<Task>, issues: seq<Issue>)

  /** A scan's fixed surroundings. */
  datatype Setting = Setting(fs: FileSystem, matcher: Matcher, maxDepth: int)

  /** A negative size that the system reports counts as none. */
  function EntryFromInfo(path: Path, info: Info): Entry {
    Entry(path, info.kind, if info.kind.Symlink? || info.kind.Folder? || info.size < 0 then 0 else info.size)
  }

  /** What one directory entry contributes. */
  function ScanName(c: Setting, task: Task, name: string): Listing {
    var path := task.path + [name];
    if task.depth + 1 > c.maxDepth || Matches(c.matcher, path) then Listing([], [], [])
    else match c.fs.lstat(path)
      case None => Listing([], [], [Issue(path, InspectEntry)])
      case Some(info) =>
        Listing([EntryFromInfo(path, info)],
                if info.kind.Folder? && task.depth + 1 < c.maxDepth then [Task(path, task.depth + 1)] else [],
                [])
  }

  function ScanNames(c: Setting, task: Task, names: seq<string>): (r: Listing)
    ensures forall t | t in r.children :: t.depth == task.depth + 1 < c.maxDepth && Dir(t.path) == task.path
    ensures forall e | e in r.entries :: |e.path| == |task.path| + 1 && Dir(e.path) == task.path
    ensures forall t | t in r.children :: exists e | e in r.entries :: e.path == t.path && e.kind == Folder
  {
    if names == [] then Listing([], [], []) else
      var n := |names| - 1;
      var before, last := ScanNames(c, task, names[..n]), ScanName(c, task, names[n]);
      Listing(before.entries + last.entries, before.children + last.children, before.issues + last.issues)
  }

  function ScanDirectory(c: Setting, task: Task): (r: Listing)
    ensures forall t | t in r.children :: t.depth == task.depth + 1 < c.maxDepth && Dir(t.path) == task.path
    ensures forall e | e in r.entries :: |e.path| == |task.path| + 1 && Dir(e.path) == task.path
    ensures forall t | t in r.children :: exists e | e in r.entries :: e.path == t.path && e.kind == Folder
  {
    match c.fs.readDir(task.path)
    case None => Listing([], [], [Issue(task.path, ReadDirectory)])
    case Some(names) => ScanNames(c, task, names)
  }

  lemma ScanOneMoreName(c: Setting, task: Task, names: seq<string>, i: nat)
    requires i < |names|
    ensures var before, last := ScanNames(c, task, names[..i]), ScanName(c, task, names[i]);
            ScanNames(c, task, names[..i + 1]) ==
              Listing(before.entries + last.entries, before.children + last.children, before.issues + last.issues)
  {
    assert names[..i + 1][..i] == names[..i];
  }

  method ScanDirectoryLoop(c: Setting, task: Task) returns (result: Listing)
    ensures result == ScanDirectory(c, task)
  {
    hide ScanNames, Matches;
    var read := c.fs.readDir(task.path);
    if read.None? {
      return Listing([], [], [Issue(task.path, ReadDirectory)]);
    }
    var names := read.value;
    result := Listing([], [], []);
    NoNames(c, task);
    var childDepth := task.depth + 1;
    for i := 0 to |names|
      invariant result == ScanNames(c, task, names[..i])
    {
      ScanOneMoreName(c, task, names, i);
      if childDepth > c.maxDepth {
        continue;
      }
      var path := task.path + [names[i]];
      if Matches(c.matcher, path) {
        continue;
      }
      var info := c.fs.lstat(path);
      if info.None? {
        result := result.(issues := result.issues + [Issue(path, InspectEntry)]);
        continue;
      }
      var entry := EntryFromInfo(path, info.value);
      result := result.(entries := result.entries + [entry]);
      if entry.kind == Folder && childDepth < c.maxDepth {
        result := result.(children := result.children + [Task(path, childDepth)]);
      }
    }
    assert names[..|names|] == names;
  }

  lemma NoNames(c: Setting, task: Task)
    ensures ScanNames(c, task, []) == Listing([], [], [])
  {
  }

  /** The counters of scanner.Result, with the visited entries and the issues as multisets. */
  datatype Totals = Totals(files: nat, size: nat, directories: nat, visited: multiset<Entry>, issues: multiset<Issue>)

  const ZERO := Totals(0, 0, 0, multiset{}, multiset{})

  function Plus(a: Totals, b: Totals): Totals {
    Totals(a.files + b.files, a.size + b.size, a.directories + b.directories, a.visited + b.visited,
           a.issues + b.issues)
  }

  function CountEntries(entries: seq<Entry>): Totals {
    if entries == [] then ZERO else
      var n := |entries| - 1;
      var e := entries[n];
      var counted := e.kind == RegularFile || e.kind == Other;
      Plus(CountEntries(entries[..n]),
           Totals(if counted then 1 else 0, if counted then e.size else 0, 0, multiset{e}, multiset{}))
  }

  /** What one directory adds to the result. */
  function Local(c: Setting, task: Task): Totals {
    var r := ScanDirectory(c, task);
    Plus(Totals(0, 0, 1, multiset{}, multiset(r.issues)), CountEntries(r.entries))
  }

  /** The sequential depth-bounded walk. */
  function WalkFrom(c: Setting, task: Task): Totals
    decreases c.maxDepth - task.depth, 1, 0
  {
    Plus(Local(c, task), WalkChildren(c, task, ScanDirectory(c, task).children))
  }

  function WalkChildren(c: Setting, task: Task, tasks: seq<Task>): Totals
    requires forall t | t in tasks :: t.depth == task.depth + 1 < c.maxDepth
    decreases c.maxDepth - task.depth, 0, |tasks|
  {
    if tasks == [] then ZERO else Plus(WalkFrom(c, tasks[0]), WalkChildren(c, task, tasks[1..]))
  }

  function WalkAll(c: Setting, tasks: seq<Task>): Totals {
    if tasks == [] then ZERO else Plus(WalkFrom(c, tasks[0]), WalkAll(c, tasks[1..]))
  }

  lemma PlusLaws(a: Totals, b: Totals, d: Totals)
    ensures Plus(a, b) == Plus(b, a) && Plus(Plus(a, b), d) == Plus(a, Plus(b, d)) && Plus(a, ZERO) == a
  {
  }

  lemma {:induction false} WalkChildrenIsWalkAll(c: Setting, task: Task, tasks: seq<Task>)
    requires forall t | t in tasks :: t.depth == task.depth + 1 < c.maxDepth
    ensures WalkChildren(c, task, tasks) == WalkAll(c, tasks)
  {
    if tasks != [] {
      WalkChildrenIsWalkAll(c, task, tasks[1..]);
    }
  }

  lemma {:induction false} WalkAllConcat(c: Setting, a: seq<Task>, b: seq<Task>)
    ensures WalkAll(c, a + b) == Plus(WalkAll(c, a), WalkAll(c, b))
  {
    if a == [] {
      assert a + b == b;
      PlusLaws(WalkAll(c, b), ZERO, ZERO);
    } else {
      assert (a + b)[1..] == a[1..] + b;
      WalkAllConcat(c, a[1..], b);
      PlusLaws(WalkFrom(c, a[0]), WalkAll(c, a[1..]), WalkAll(c, b));
    }
  }

  lemma WalkAllPulls(c: Setting, a: seq<Task>, t: Task, b: seq<Task>)
    ensures WalkAll(c, a + [t] + b) == Plus(WalkFrom(c, t), WalkAll(c, a + b))
  {
    hide WalkFrom, Plus;
    var ab, tb := a + b, [t] + b;
    assert a + [t] + b == a + tb && tb[1..] == b;
    assert WalkAll(c, tb) == Plus(WalkFrom(c, t), WalkAll(c, b));
    WalkAllConcat(c, a, tb);
    WalkAllConcat(c, a, b);
    PlusLaws(WalkAll(c, a), WalkFrom(c, t), WalkAll(c, b));
    PlusLaws(WalkFrom(c, t), WalkAll(c, a), WalkAll(c, b));
  }

  /** The walk of several directories does not depend on their order. */
  lemma {:induction false} WalkAllOrderless(c: Setting, a: seq<Task>, b: seq<Task>)
    requires multiset(a) == multiset(b)
    ensures WalkAll(c, a) == WalkAll(c, b)
    decreases |a|
  {
    hide WalkFrom, Plus;
    if a == [] {
      assert |multiset(b)| == |b|;
      assert b == [];
    } else {
      var t := a[0];
      assert t in multiset(a);
      var i :| 0 <= i < |b| && b[i] == t;
      TakenOut(a, 0);
      TakenOut(b, i);
      assert a[..0] + a[1..] == a[1..];
      WalkAllOrderless(c, a[1..], b[..i] + b[i + 1..]);
      WalkAllPulls(c, b[..i], t, b[i + 1..]);
    }
  }

  lemma TakenOut<T>(s: seq<T>, i: nat)
    requires i < |s|
    ensures s == s[..i] + [s[i]] + s[i + 1..]
    ensures multiset(s[..i] + s[i + 1..]) == multiset(s) - multiset{s[i]}
  {
    assert s == s[..i] + [s[i]] + s[i + 1..];
    assert multiset(s) == multiset(s[..i]) + multiset{s[i]} + multiset(s[i + 1..]);
  }

  lemma WalkUnfolds(c: Setting, task: Task)
    ensures WalkFrom(c, task) == Plus(Local(c, task), WalkAll(c, ScanDirectory(c, task).children))
  {
    WalkChildrenIsWalkAll(c, task, ScanDirectory(c, task).children);
  }

  // Excluding is filtering.

  /** The entries of the sequential walk, in the order of a depth-first traversal. */
  function Visits(c: Setting, task: Task): (r: seq<Entry>)
    ensures forall e | e in r :: task.path < e.path
    decreases c.maxDepth - task.depth, 1, 0
  {
    ScanDirectory(c, task).entries + VisitsBelow(c, task, ScanDirectory(c, task).children)
  }

  function VisitsBelow(c: Setting, task: Task, tasks: seq<Task>): (r: seq<Entry>)
    requires forall t | t in tasks :: t.depth == task.depth + 1 < c.maxDepth && task.path <= t.path
    ensures forall e | e in r :: task.path < e.path
    decreases c.maxDepth - task.depth, 0, |tasks|
  {
    if tasks == [] then [] else Visits(c, tasks[0]) + VisitsBelow(c, task, tasks[1..])
  }

  lemma {:induction false} VisitsAreVisited(c: Setting, task: Task)
    ensures WalkFrom(c, task).visited == multiset(Visits(c, task))
    decreases c.maxDepth - task.depth, 1, 0
  {
    CountedOnce(ScanDirectory(c, task).entries);
    VisitsBelowAreVisited(c, task, ScanDirectory(c, task).children);
  }

  lemma {:induction false} VisitsBelowAreVisited(c: Setting, task: Task, tasks: seq<Task>)
    requires forall t | t in tasks :: t.depth == task.depth + 1 < c.maxDepth && task.path <= t.path
    ensures WalkChildren(c, task, tasks).visited == multiset(VisitsBelow(c, task, tasks))
    decreases c.maxDepth - task.depth, 0, |tasks|
  {
    if tasks != [] {
      VisitsAreVisited(c, tasks[0]);
      VisitsBelowAreVisited(c, task, tasks[1..]);
    }
  }

  lemma {:induction false} CountedOnce(entries: seq<Entry>)
    ensures CountEntries(entries).visited == multiset(entries)
  {
    if entries != [] {
      var n := |entries| - 1;
      assert entries == entries[..n] + [entries[n]];
      CountedOnce(entries[..n]);
    }
  }

  const NO_EXCLUDES := Matcher([], [], [], [])

  function Kept(m: Matcher, entries: seq<Entry>): seq<Entry> {
    if entries == [] then [] else (if Matches(m, entries[0].path) then [] else [entries[0]]) + Kept(m, entries[1..])
  }

  function KeptTasks(m: Matcher, tasks: seq<Task>): seq<Task> {
    if tasks == [] then [] else (if Matches(m, tasks[0].path) then [] else [tasks[0]]) + KeptTasks(m, tasks[1..])
  }

  lemma {:induction false} KeptConcat(m: Matcher, a: seq<Entry>, b: seq<Entry>)
    ensures Kept(m, a + b) == Kept(m, a) + Kept(m, b)
  {
    if a == [] {
      assert a + b == b;
    } else {
      assert (a + b)[1..] == a[1..] + b;
      KeptConcat(m, a[1..], b);
    }
  }

  lemma {:induction false} KeptTasksConcat(m: Matcher, a: seq<Task>, b: seq<Task>)
    ensures KeptTasks(m, a + b) == KeptTasks(m, a) + KeptTasks(m, b)
  {
    if a == [] {
      assert a + b == b;
    } else {
      assert (a + b)[1..] == a[1..] + b;
      KeptTasksConcat(m, a[1..], b);
    }
  }

  lemma {:induction false} AllExcluded(m: Matcher, entries: seq<Entry>)
    requires forall e | e in entries :: Matches(m, e.path)
    ensures Kept(m, entries) == []
  {
    if entries != [] {
      assert entries[0] in entries;
      AllExcluded(m, entries[1..]);
    }
  }

  /** One directory: excluding names drops exactly the excluded entries and the excluded subdirectories. */
  lemma {:induction false} ListingKept(c: Setting, task: Task, names: seq<string>)
    ensures ScanNames(c, task, names).entries ==
              Kept(c.matcher, ScanNames(c.(matcher := NO_EXCLUDES), task, names).entries)
    ensures ScanNames(c, task, names).children ==
              KeptTasks(c.matcher, ScanNames(c.(matcher := NO_EXCLUDES), task, names).children)
  {
    var free := c.(matcher := NO_EXCLUDES);
    if names != [] {
      var n := |names| - 1;
      ListingKept(c, task, names[..n]);
      NameKept(c, task, names[n]);
      KeptConcat(c.matcher, ScanNames(free, task, names[..n]).entries, ScanName(free, task, names[n]).entries);
      KeptTasksConcat(c.matcher, ScanNames(free, task, names[..n]).children, ScanName(free, task, names[n]).children);
    }
  }

  lemma NameKept(c: Setting, task: Task, name: string)
    ensures ScanName(c, task, name).entries == Kept(c.matcher, ScanName(c.(matcher := NO_EXCLUDES), task, name).entries)
    ensures ScanName(c, task, name).children ==
              KeptTasks(c.matcher, ScanName(c.(matcher := NO_EXCLUDES), task, name).children)
  {
    assert !Matches(NO_EXCLUDES, task.path + [name]);
  }

  /** Pruning at excluded directories visits exactly the entries of the unpruned walk that are not themselves
      excluded, in the same order. */
  lemma {:induction false} PruningIsFiltering(c: Setting, task: Task)
    ensures Visits(c, task) == Kept(c.matcher, Visits(c.(matcher := NO_EXCLUDES), task))
    decreases c.maxDepth - task.depth, 1, 0
  {
    var free := c.(matcher := NO_EXCLUDES);
    match c.fs.readDir(task.path)
    case None =>
    case Some(names) =>
      ListingKept(c, task, names);
      var children := ScanDirectory(free, task).children;
      assert forall t | t in children :: t.depth == task.depth + 1 < c.maxDepth && task.path <= t.path && t.path != [];
      PruningBelow(c, task, children);
      KeptConcat(c.matcher, ScanDirectory(free, task).entries, VisitsBelow(free, task, children));
  }

  lemma {:induction false} PruningBelow(c: Setting, task: Task, tasks: seq<Task>)
    requires forall t | t in tasks :: t.depth == task.depth + 1 < c.maxDepth && task.path <= t.path && t.path != []
    ensures forall t | t in KeptTasks(c.matcher, tasks) :: t in tasks
    ensures VisitsBelow(c, task, KeptTasks(c.matcher, tasks)) ==
              Kept(c.matcher, VisitsBelow(c.(matcher := NO_EXCLUDES), task, tasks))
    decreases c.maxDepth - task.depth, 0, |tasks|
  {
    var free := c.(matcher := NO_EXCLUDES);
    if tasks != [] {
      hide Matches, Visits, Kept, ScanDirectory;
      var t, rest := tasks[0], tasks[1..];
      assert t in tasks && forall x | x in rest :: x in tasks;
      PruningBelow(c, task, rest);
      KeptConcat(c.matcher, Visits(free, t), VisitsBelow(free, task, rest));
      assert VisitsBelow(free, task, tasks) == Visits(free, t) + VisitsBelow(free, task, rest);
      var kept, all := KeptTasks(c.matcher, rest), KeptTasks(c.matcher, tasks);
      assert all == if Matches(c.matcher, t.path) then kept else [t] + kept;
      hide KeptTasks;
      if Matches(c.matcher, t.path) {
        ExcludedSubtree(c, free, t);
      } else {
        PruningIsFiltering(c, t);
        assert all[1..] == kept;
        assert VisitsBelow(c, task, all) == Visits(c, t) + VisitsBelow(c, task, kept);
      }
    } else {
      assert Kept(c.matcher, []) == [];
    }
  }

  lemma ExcludedSubtree(c: Setting, free: Setting, t: Task)
    requires Matches(c.matcher, t.path) && t.path != []
    ensures Kept(c.matcher, Visits(free, t)) == []
  {
    hide Matches, Kept;
    forall e | e in Visits(free, t)
      ensures Matches(c.matcher, e.path)
    {
      MatchesBelow(c.matcher, t.path, e.path);
    }
    AllExcluded(c.matcher, Visits(free, t));
  }
}

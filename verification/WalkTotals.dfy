/** internal/scanner/scanner.go: what a walk visits and counts, said by the answers of the file system alone. */
module WalkTotals {
  import opened Wrappers
  import opened Paths
  import opened Excludes
  import opened Walk
  import opened ScanProtocol
  import opened Scan
  import opened ScanOnce

  /** The directory of q lists it, no exclude matches it, and it can be inspected. */
  ghost predicate Found(c: Setting, q: Path) {
    Listed(c, q) && c.fs.lstat(q).Some?
  }

  ghost predicate Listed(c: Setting, q: Path) {
    q != [] && c.fs.readDir(Dir(q)).Some? && Last(q) in c.fs.readDir(Dir(q)).value && !Matches(c.matcher, q)
  }

  ghost predicate FoundFolder(c: Setting, q: Path) {
    Found(c, q) && c.fs.lstat(q).value.kind == Folder
  }

  /** Every directory between the two is found and is a directory. */
  ghost predicate WayDown(c: Setting, top: Path, q: Path) {
    forall k | |top| < k < |q| :: FoundFolder(c, q[..k])
  }

  /** The entry tells kind and size, which only files and special files have, and never a negative one. */
  predicate Tells(e: Entry, info: Info) {
    e.kind == info.kind && e.size == if info.kind in {RegularFile, Other} && info.size >= 0 then info.size else 0
  }

  // One directory.

  lemma {:induction false} NamesExactly(c: Setting, task: Task, names: seq<string>, e: Entry)
    ensures e in ScanNames(c, task, names).entries <==>
              exists name | name in names :: e in ScanName(c, task, name).entries
  {
    hide ScanName;
    if names != [] {
      var n := |names| - 1;
      assert names == names[..n] + [names[n]];
      NamesExactly(c, task, names[..n], e);
      if e in ScanName(c, task, names[n]).entries {
        assert names[n] in names;
      }
    }
  }

  lemma NameExactly(c: Setting, task: Task, name: string, e: Entry)
    ensures e in ScanName(c, task, name).entries <==>
              task.depth + 1 <= c.maxDepth && e.path == task.path + [name] && !Matches(c.matcher, e.path) &&
              c.fs.lstat(e.path).Some? && Tells(e, c.fs.lstat(e.path).value)
  {
    hide Matches;
  }

  lemma ListingExactly(c: Setting, task: Task, e: Entry)
    ensures e in ScanDirectory(c, task).entries <==>
              task.path < e.path && |e.path| == |task.path| + 1 && task.depth + 1 <= c.maxDepth && Found(c, e.path) &&
              Tells(e, c.fs.lstat(e.path).value)
  {
    hide ScanName, Matches, Tells;
    var p := e.path;
    if task.path < p && |p| == |task.path| + 1 {
      assert p == task.path + [Last(p)] && Dir(p) == task.path;
      NameExactly(c, task, Last(p), e);
    }
    match c.fs.readDir(task.path)
    case None =>
    case Some(names) =>
      NamesExactly(c, task, names, e);
      forall name | name in names && e in ScanName(c, task, name).entries
        ensures task.path < p && |p| == |task.path| + 1 && Last(p) == name
      {
        NameExactly(c, task, name, e);
      }
  }

  /** The subdirectories to be read are the directories it lists, above the depth limit. */
  lemma ChildExactly(c: Setting, task: Task, q: Path)
    ensures Task(q, task.depth + 1) in ScanDirectory(c, task).children <==>
              task.path < q && |q| == |task.path| + 1 && task.depth + 1 < c.maxDepth && FoundFolder(c, q)
  {
    var r := ScanDirectory(c, task);
    hide ScanDirectory;
    if Task(q, task.depth + 1) in r.children {
      var e :| e in r.entries && e.path == q && e.kind == Folder;
      ListingExactly(c, task, e);
    }
    if task.path < q && |q| == |task.path| + 1 && task.depth + 1 < c.maxDepth && FoundFolder(c, q) {
      var e := Entry(q, Folder, 0);
      ListingExactly(c, task, e);
      FoldersAreChildren(c, task, e);
    }
  }

  lemma ChildrenOf(c: Setting, task: Task)
    ensures Children(c, task, ScanDirectory(c, task).children)
    ensures forall t | t in ScanDirectory(c, task).children ::
              t == Task(t.path, task.depth + 1) && FoundFolder(c, t.path)
  {
    var r := ScanDirectory(c, task);
    hide ScanDirectory, FoundFolder;
    forall t | t in r.children
      ensures task.path < t.path && |t.path| == |task.path| + 1 && FoundFolder(c, t.path)
    {
      assert t == Task(t.path, task.depth + 1);
      ChildExactly(c, task, t.path);
    }
  }

  // What a walk visits.

  lemma WayThrough(c: Setting, top: Path, child: Path, q: Path)
    requires top < child && |child| == |top| + 1 && child < q
    ensures WayDown(c, top, q) <==> FoundFolder(c, child) && WayDown(c, child, q)
  {
    hide FoundFolder;
    assert q[..|child|] == child;
  }

  /** A walk visits exactly what is found below its directory, within the depth limit, along a way of directories that
      are found themselves; and it tells of each just what the file system answers. */
  lemma {:induction false} VisitedExactly(c: Setting, task: Task, e: Entry)
    ensures e in Visits(c, task) <==>
              task.path < e.path && task.depth + |e.path| - |task.path| <= c.maxDepth &&
              WayDown(c, task.path, e.path) && Found(c, e.path) && Tells(e, c.fs.lstat(e.path).value)
    decreases c.maxDepth - task.depth
  {
    hide FoundFolder, Found, Tells;
    var r := ScanDirectory(c, task);
    assert Visits(c, task) == r.entries + VisitsBelow(c, task, r.children);
    ListingExactly(c, task, e);
    ChildrenOf(c, task);
    hide ScanDirectory;
    if e in VisitsBelow(c, task, r.children) {
      var t := VisitedBelow(c, task, r.children, e);
      VisitedExactly(c, t, e);
      WayThrough(c, task.path, t.path, e.path);
    } else if task.path < e.path && |task.path| + 1 < |e.path| && task.depth + 1 < c.maxDepth {
      var t := Task(e.path[..|task.path| + 1], task.depth + 1);
      WayThrough(c, task.path, t.path, e.path);
      ChildExactly(c, task, t.path);
      VisitedExactly(c, t, e);
      if t in r.children {
        BelowVisits(c, task, r.children, t);
      }
    }
  }

  // What it counts.

  predicate IsFile(e: Entry) {
    e.kind in {RegularFile, Other}
  }

  /** How many of these are files or special files. */
  function FilesIn(entries: seq<Entry>): nat {
    if entries == [] then 0 else (if IsFile(entries[0]) then 1 else 0) + FilesIn(entries[1..])
  }

  /** The sum of their sizes. */
  function SizesIn(entries: seq<Entry>): nat {
    if entries == [] then 0 else (if IsFile(entries[0]) then entries[0].size else 0) + SizesIn(entries[1..])
  }

  /** How many of these are directories with paths shorter than that. */
  function FoldersIn(entries: seq<Entry>, length: int): nat {
    if entries == [] then 0
    else (if entries[0].kind == Folder && |entries[0].path| < length then 1 else 0) + FoldersIn(entries[1..], length)
  }

  lemma {:induction false} CountsAddUp(a: seq<Entry>, b: seq<Entry>, length: int)
    ensures FilesIn(a + b) == FilesIn(a) + FilesIn(b)
    ensures SizesIn(a + b) == SizesIn(a) + SizesIn(b)
    ensures FoldersIn(a + b, length) == FoldersIn(a, length) + FoldersIn(b, length)
  {
    if a == [] {
      assert a + b == b;
    } else {
      assert (a + b)[1..] == a[1..] + b;
      CountsAddUp(a[1..], b, length);
    }
  }

  lemma {:induction false} CountedEntries(entries: seq<Entry>)
    ensures CountEntries(entries).files == FilesIn(entries)
    ensures CountEntries(entries).size == SizesIn(entries)
    ensures CountEntries(entries).directories == 0 && CountEntries(entries).issues == multiset{}
  {
    if entries != [] {
      var n := |entries| - 1;
      assert entries == entries[..n] + [entries[n]];
      CountedEntries(entries[..n]);
      CountsAddUp(entries[..n], [entries[n]], 0);
    }
  }

  lemma {:induction false} FolderChildren(c: Setting, task: Task, names: seq<string>, length: int)
    requires length == |task.path| + c.maxDepth - task.depth
    ensures |ScanNames(c, task, names).children| == FoldersIn(ScanNames(c, task, names).entries, length)
  {
    hide ScanName;
    if names != [] {
      var n := |names| - 1;
      FolderChildren(c, task, names[..n], length);
      FolderChild(c, task, names[n], length);
      hide FoldersIn;
      CountsAddUp(ScanNames(c, task, names[..n]).entries, ScanName(c, task, names[n]).entries, length);
    }
  }

  lemma FolderChild(c: Setting, task: Task, name: string, length: int)
    requires length == |task.path| + c.maxDepth - task.depth
    ensures |ScanName(c, task, name).children| == FoldersIn(ScanName(c, task, name).entries, length)
  {
    hide Matches;
  }

  /** Files, sizes and directories of one walk: those it visits, and the directories it enters, its own first. */
  lemma {:induction false} TotalsOfWalk(c: Setting, task: Task)
    ensures WalkCounts(WalkFrom(c, task), Visits(c, task), 1, |task.path| + c.maxDepth - task.depth)
    decreases c.maxDepth - task.depth, 1, 0
  {
    hide *;
    var r, length := ScanDirectory(c, task), |task.path| + c.maxDepth - task.depth;
    ChildrenOf(c, task);
    TotalsBelow(c, task, r.children, length);
    LocalTotals(c, task, length);
    WalkSplits(c, task);
    var below, n := WalkChildren(c, task, r.children), |r.children|;
    CountsJoin(Local(c, task), below, r.entries, VisitsBelow(c, task, r.children), 1 - n, n, length);
  }

  /** These totals belong to these visits, with so many directories that are not among them. */
  ghost predicate WalkCounts(totals: Totals, visits: seq<Entry>, others: int, length: int) {
    totals.files == FilesIn(visits) && totals.size == SizesIn(visits) &&
    totals.directories == others + FoldersIn(visits, length)
  }

  lemma CountsJoin(a: Totals, b: Totals, v: seq<Entry>, w: seq<Entry>, m: int, n: int, length: int)
    requires WalkCounts(a, v, m, length) && WalkCounts(b, w, n, length)
    ensures WalkCounts(Plus(a, b), v + w, m + n, length)
  {
    CountsAddUp(v, w, length);
    hide FilesIn, SizesIn, FoldersIn;
  }

  lemma WalkSplits(c: Setting, task: Task)
    requires Children(c, task, ScanDirectory(c, task).children)
    ensures Visits(c, task) ==
              ScanDirectory(c, task).entries + VisitsBelow(c, task, ScanDirectory(c, task).children)
    ensures WalkFrom(c, task) == Plus(Local(c, task), WalkChildren(c, task, ScanDirectory(c, task).children))
  {
    hide Local, VisitsBelow, WalkChildren, Plus;
  }

  lemma BelowSplits(c: Setting, task: Task, tasks: seq<Task>)
    requires Children(c, task, tasks) && tasks != []
    ensures VisitsBelow(c, task, tasks) == Visits(c, tasks[0]) + VisitsBelow(c, task, tasks[1..])
    ensures WalkChildren(c, task, tasks) == Plus(WalkFrom(c, tasks[0]), WalkChildren(c, task, tasks[1..]))
    ensures Children(c, task, tasks[1..]) && tasks[0].depth == task.depth + 1 < c.maxDepth
    ensures |tasks[0].path| == |task.path| + 1
  {
    hide Visits, WalkFrom, Plus;
    assert tasks[0] in tasks;
  }

  lemma LocalTotals(c: Setting, task: Task, length: int)
    requires length == |task.path| + c.maxDepth - task.depth
    ensures var r, totals := ScanDirectory(c, task), Local(c, task);
            WalkCounts(totals, r.entries, 1 - |r.children|, length)
  {
    hide ScanDirectory, CountEntries, FilesIn, SizesIn, FoldersIn;
    CountedEntries(ScanDirectory(c, task).entries);
    LocalChildren(c, task, length);
  }

  lemma LocalChildren(c: Setting, task: Task, length: int)
    requires length == |task.path| + c.maxDepth - task.depth
    ensures |ScanDirectory(c, task).children| == FoldersIn(ScanDirectory(c, task).entries, length)
  {
    hide ScanNames;
    match c.fs.readDir(task.path)
    case None =>
    case Some(names) => FolderChildren(c, task, names, length);
  }

  lemma NothingBelow(c: Setting, task: Task, length: int)
    ensures WalkCounts(WalkChildren(c, task, []), VisitsBelow(c, task, []), 0, length)
  {
  }

  lemma {:induction false} TotalsBelow(c: Setting, task: Task, tasks: seq<Task>, length: int)
    requires Children(c, task, tasks) && length == |task.path| + c.maxDepth - task.depth
    ensures WalkCounts(WalkChildren(c, task, tasks), VisitsBelow(c, task, tasks), |tasks|, length)
    decreases c.maxDepth - task.depth, 0, |tasks|
  {
    hide Visits, WalkFrom, WalkChildren, VisitsBelow, WalkCounts, Plus;
    if tasks == [] {
      NothingBelow(c, task, length);
    } else {
      BelowSplits(c, task, tasks);
      TotalsOfWalk(c, tasks[0]);
      TotalsBelow(c, task, tasks[1..], length);
      CountsJoin(WalkFrom(c, tasks[0]), WalkChildren(c, task, tasks[1..]), Visits(c, tasks[0]),
                 VisitsBelow(c, task, tasks[1..]), 1, |tasks| - 1, length);
    }
  }

  /** Of a scan: files are the number, and size the sum of the sizes, of the files and special files it visits. */
  lemma {:induction false} TotalsOfScan(c: Setting, roots: seq<Task>)
    ensures WalkAll(c, roots).files == FilesIn(VisitsOf(c, roots))
    ensures WalkAll(c, roots).size == SizesIn(VisitsOf(c, roots))
  {
    if roots != [] {
      hide WalkFrom, Visits;
      TotalsOfWalk(c, roots[0]);
      TotalsOfScan(c, roots[1..]);
      CountsAddUp(Visits(c, roots[0]), VisitsOf(c, roots[1..]), 0);
    }
  }

  /** So whatever the schedule, a completed scan reports just these numbers. */
  lemma CompletedScan(c: Setting, roots: seq<Task>, workers: nat, run: seq<State>)
    requires IsRun(c, roots, workers, run) && run[|run| - 1].phase == Stopped(Completed)
    ensures run[|run| - 1].totals.files == FilesIn(VisitsOf(c, roots))
    ensures run[|run| - 1].totals.size == SizesIn(VisitsOf(c, roots))
    ensures multiset(run[|run| - 1].visited) == multiset(VisitsOf(c, roots))
  {
    EverySchedule(c, roots, workers, run);
    TotalsOfScan(c, roots);
    VisitsOfRoots(c, roots);
  }

  // What it reports.

  /** The walk reads this directory: its own, or one it finds above the depth limit. */
  ghost predicate Opened(c: Setting, task: Task, p: Path) {
    p == task.path ||
    (task.path < p && WayDown(c, task.path, p) && FoundFolder(c, p) && task.depth + |p| - |task.path| < c.maxDepth)
  }

  /** It reports a directory it cannot read, and a listed entry it cannot inspect. */
  ghost predicate Reportable(c: Setting, task: Task, issue: Issue) {
    (issue.operation == ReadDirectory && Opened(c, task, issue.path) && c.fs.readDir(issue.path).None?) ||
    (issue.operation == InspectEntry && Listed(c, issue.path) && c.fs.lstat(issue.path).None? &&
     Opened(c, task, Dir(issue.path)) && task.depth + |issue.path| - |task.path| <= c.maxDepth)
  }

  lemma {:induction false} NameIssues(c: Setting, task: Task, names: seq<string>, issue: Issue)
    ensures issue in ScanNames(c, task, names).issues <==>
              issue.operation == InspectEntry && task.depth + 1 <= c.maxDepth && !Matches(c.matcher, issue.path) &&
              c.fs.lstat(issue.path).None? && exists name | name in names :: issue.path == task.path + [name]
  {
    hide Matches;
    if names != [] {
      var n := |names| - 1;
      assert names == names[..n] + [names[n]];
      NameIssues(c, task, names[..n], issue);
      assert issue.path == task.path + [names[n]] ==> names[n] in names;
    }
  }

  lemma LocalListing(c: Setting, task: Task, issue: Issue)
    ensures issue in Local(c, task).issues <==> issue in ScanDirectory(c, task).issues
  {
    hide ScanDirectory;
    CountedEntries(ScanDirectory(c, task).entries);
    hide CountEntries;
  }

  lemma LocalIssues(c: Setting, task: Task, issue: Issue)
    ensures issue in Local(c, task).issues <==>
              (issue == Issue(task.path, ReadDirectory) && c.fs.readDir(task.path).None?) ||
              (issue.operation == InspectEntry && task.path < issue.path && |issue.path| == |task.path| + 1 &&
               task.depth + 1 <= c.maxDepth && Listed(c, issue.path) && c.fs.lstat(issue.path).None?)
  {
    hide Matches, Local, ScanNames;
    var p := issue.path;
    LocalListing(c, task, issue);
    if task.path < p && |p| == |task.path| + 1 {
      assert p == task.path + [Last(p)] && Dir(p) == task.path;
    }
    match c.fs.readDir(task.path)
    case None =>
    case Some(names) =>
      NameIssues(c, task, names, issue);
      forall name | name in names && p == task.path + [name]
        ensures task.path < p && |p| == |task.path| + 1 && Last(p) == name
      {
      }
  }

  lemma {:induction false} IssuesBelow(c: Setting, task: Task, tasks: seq<Task>, issue: Issue)
    requires Children(c, task, tasks)
    ensures issue in WalkChildren(c, task, tasks).issues <==>
              exists t :: t in tasks && issue in WalkFrom(c, t).issues
  {
    hide WalkFrom;
    if tasks != [] {
      var rest := tasks[1..];
      IssuesBelow(c, task, rest, issue);
      assert tasks == [tasks[0]] + rest;
      assert forall t :: t in tasks <==> t == tasks[0] || t in rest;
    }
  }

  lemma OpenedBelow(c: Setting, task: Task, t: Task, p: Path)
    requires t.depth == task.depth + 1 < c.maxDepth && task.path < t.path && |t.path| == |task.path| + 1
    requires FoundFolder(c, t.path) && t.path <= p
    ensures Opened(c, task, p) <==> Opened(c, t, p)
  {
    hide FoundFolder;
    if p != t.path {
      WayThrough(c, task.path, t.path, p);
    }
  }

  /** The directory whose reading brings an issue up. */
  function PlaceOf(issue: Issue): Path {
    if issue.operation == InspectEntry then Dir(issue.path) else issue.path
  }

  lemma ReportableBelow(c: Setting, task: Task, t: Task, issue: Issue)
    requires t.depth == task.depth + 1 < c.maxDepth && task.path < t.path && |t.path| == |task.path| + 1
    requires FoundFolder(c, t.path)
    ensures Reportable(c, t, issue) ==> t.path <= PlaceOf(issue)
    ensures t.path <= PlaceOf(issue) ==> (Reportable(c, t, issue) <==> Reportable(c, task, issue))
  {
    hide FoundFolder, WayDown, Listed;
    if t.path <= PlaceOf(issue) {
      OpenedBelow(c, task, t, PlaceOf(issue));
      hide Opened;
    }
  }

  lemma OpenedHere(c: Setting, task: Task, issue: Issue)
    ensures Reportable(c, task, issue) ==> Opened(c, task, PlaceOf(issue))
    ensures PlaceOf(issue) == task.path ==>
              (Reportable(c, task, issue) <==>
                 (issue == Issue(task.path, ReadDirectory) && c.fs.readDir(task.path).None?) ||
                 (issue.operation == InspectEntry && task.path < issue.path && |issue.path| == |task.path| + 1 &&
                  task.depth + 1 <= c.maxDepth && Listed(c, issue.path) && c.fs.lstat(issue.path).None?))
  {
    hide WayDown, FoundFolder;
  }

  /** A walk reports exactly the directories it enters and cannot read, and the entries it meets and cannot inspect. */
  lemma {:induction false} IssuesExactly(c: Setting, task: Task, issue: Issue)
    ensures issue in WalkFrom(c, task).issues <==> Reportable(c, task, issue)
    decreases c.maxDepth - task.depth
  {
    hide FoundFolder, Matches, WalkFrom, WalkChildren, Local, ScanDirectory, Opened, Listed;
    var tasks := ScanDirectory(c, task).children;
    ChildrenOf(c, task);
    WalkSplits(c, task);
    LocalIssues(c, task, issue);
    IssuesBelow(c, task, tasks, issue);
    var place := PlaceOf(issue);
    forall t | t in tasks
      ensures issue in WalkFrom(c, t).issues ==> Reportable(c, task, issue)
      ensures Reportable(c, task, issue) && t.path <= place ==> issue in WalkFrom(c, t).issues
    {
      IssuesExactly(c, t, issue);
      ReportableBelow(c, task, t, issue);
    }
    OpenedHere(c, task, issue);
    if Reportable(c, task, issue) && place != task.path {
      OpenedFirst(c, task, place);
      var t := Task(place[..|task.path| + 1], task.depth + 1);
      ChildExactly(c, task, t.path);
      assert t in tasks;
    }
  }

  lemma OpenedFirst(c: Setting, task: Task, p: Path)
    requires Opened(c, task, p) && p != task.path
    ensures task.path < p && task.depth + 1 < c.maxDepth && FoundFolder(c, p[..|task.path| + 1])
  {
    if |p| == |task.path| + 1 {
      assert p[..|p|] == p;
    }
  }
}

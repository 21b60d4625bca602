/** What the scanner promises, over all schedules: progress, termination, agreement with the sequential walk. */
module Scan {
  import opened Wrappers
  import opened Paths
  import opened Excludes
  import opened Walk
  import opened ScanProtocol

  // No deadlock.

  /** As long as Scan has not returned, something other than an outside cancellation can happen next. */
  lemma NeverStuck(c: Setting, roots: seq<Task>, s: State) returns (step: Step)
    requires Invariant(c, roots, s) && !Returned(s)
    ensures Enabled(c, s, step) && step != CancelContext && !step.ReceiveUntil?
  {
    hide Accounted, Orderly, ScanDirectory, Busy;
    if s.phase.Stopped? {
      var w :| 0 <= w < |s.workers| && !s.workers[w].Exited?;
      step := if s.workers[w].Idle? then Leave(w) else if s.workers[w].Scanning? then Finish(w) else Drop(w);
    } else if s.queue == [] && s.active <= 0 {
      step := Complete;
    } else if s.results != [] {
      step := Receive;
    } else if Busy(s.workers) != multiset{} {
      var w := SomebodyBusy(s.workers);
      step := if s.workers[w].Scanning? then Finish(w) else Send(w);
    } else if s.contextDone {
      step := GiveUp;
    } else {
      NotBusy(s.workers, 0);
      step := Dispatch(0);
    }
  }

  lemma {:induction false} NotBusy(workers: seq<Worker>, w: nat)
    requires w < |workers| && Busy(workers) == multiset{}
    ensures workers[w].Idle? || workers[w].Exited?
  {
    if w > 0 {
      NotBusy(workers[1..], w - 1);
    }
  }

  // No endless run.

  ghost function Directories(c: Setting, tasks: seq<Task>): nat {
    WalkAll(c, tasks).directories
  }

  ghost function Below(c: Setting, t: Task): nat {
    Directories(c, ScanDirectory(c, t).children)
  }

  ghost function WorkerCost(c: Setting, w: Worker): nat {
    match w
    case Idle => 1
    case Scanning(t) => 4 * Below(c, t) + 4
    case Sending(t) => 4 * Below(c, t) + 3
    case Exited => 0
  }

  ghost function WorkersCost(c: Setting, workers: seq<Worker>): nat {
    if workers == [] then 0 else WorkerCost(c, workers[0]) + WorkersCost(c, workers[1..])
  }

  ghost function ResultsCost(c: Setting, results: seq<Task>): nat {
    if results == [] then 0 else 4 * Below(c, results[0]) + 1 + ResultsCost(c, results[1..])
  }

  ghost function Measure(c: Setting, s: State): nat {
    (if s.contextDone then 0 else 1) + (if s.phase.Running? then 1 else 0) +
    4 * Directories(c, s.queue) + WorkersCost(c, s.workers) + ResultsCost(c, s.results)
  }

  lemma {:induction false} WorkersCostUpdate(c: Setting, workers: seq<Worker>, w: nat, worker: Worker)
    requires w < |workers|
    ensures WorkersCost(c, workers[w := worker]) + WorkerCost(c, workers[w]) ==
            WorkersCost(c, workers) + WorkerCost(c, worker)
  {
    hide WorkerCost;
    var updated := workers[w := worker];
    if w == 0 {
      assert updated[1..] == workers[1..];
    } else {
      assert updated[1..] == workers[1..][w - 1 := worker];
      WorkersCostUpdate(c, workers[1..], w - 1, worker);
    }
  }

  lemma {:induction false} ResultsCostAppend(c: Setting, results: seq<Task>, t: Task)
    ensures ResultsCost(c, results + [t]) == ResultsCost(c, results) + 4 * Below(c, t) + 1
  {
    hide Below;
    if results == [] {
      assert ([] + [t])[1..] == [];
    } else {
      assert (results + [t])[1..] == results[1..] + [t];
      ResultsCostAppend(c, results[1..], t);
    }
  }

  lemma DirectoriesOfFirst(c: Setting, queue: seq<Task>)
    requires queue != []
    ensures Directories(c, queue) == 1 + Below(c, queue[0]) + Directories(c, queue[1..])
  {
    hide ScanDirectory, CountEntries, WalkFrom;
    var t := queue[0];
    WalkUnfolds(c, t);
    NoDirectories(ScanDirectory(c, t).entries);
  }

  lemma DirectoriesConcat(c: Setting, a: seq<Task>, b: seq<Task>)
    ensures Directories(c, a + b) == Directories(c, a) + Directories(c, b)
  {
    hide WalkAll;
    WalkAllConcat(c, a, b);
  }

  lemma StepMakesProgress(c: Setting, s: State, step: Step)
    requires Enabled(c, s, step)
    ensures Measure(c, Apply(c, s, step)) < Measure(c, s)
  {
    hide Directories, Below, ResultsCost, WorkersCost, Absorb, ScanDirectory;
    var s' := Apply(c, s, step);
    if Moves(step) {
      WorkersCostUpdate(c, s.workers, step.worker, s'.workers[step.worker]);
      if step.Dispatch? {
        DirectoriesOfFirst(c, s.queue);
      } else if step.Send? {
        ResultsCostAppend(c, s.results, s.workers[step.worker].task);
      }
    } else if step.Receive? || step.ReceiveUntil? {
      ReceivedCost(c, s);
    }
  }

  lemma ReceivedCost(c: Setting, s: State)
    requires s.results != []
    ensures 4 * Directories(c, s.queue + ScanDirectory(c, s.results[0]).children) + ResultsCost(c, s.results[1..]) <
            4 * Directories(c, s.queue) + ResultsCost(c, s.results)
  {
    hide Directories, ScanDirectory;
    DirectoriesConcat(c, s.queue, ScanDirectory(c, s.results[0]).children);
  }

  // Runs.

  ghost predicate Next(c: Setting, s: State, s': State) {
    exists step :: Enabled(c, s, step) && s' == Apply(c, s, step)
  }

  /** Any interleaving of coordinator, workers and outside events, of any length, for any number of workers. */
  ghost predicate IsRun(c: Setting, roots: seq<Task>, workers: nat, run: seq<State>) {
    workers > 0 && run != [] && run[0] == Init(roots, workers) &&
    forall i | 0 < i < |run| :: Next(c, run[i - 1], run[i])
  }

  lemma {:induction false} RunKeepsInvariant(c: Setting, roots: seq<Task>, workers: nat, run: seq<State>, i: nat)
    requires IsRun(c, roots, workers, run) && i < |run|
    ensures Invariant(c, roots, run[i])
    ensures Measure(c, run[i]) + i <= Measure(c, Init(roots, workers))
  {
    hide Invariant, Measure;
    if i == 0 {
      InitInvariant(c, roots, workers);
    } else {
      RunKeepsInvariant(c, roots, workers, run, i - 1);
      assert Next(c, run[i - 1], run[i]);
      var step :| Enabled(c, run[i - 1], step) && run[i] == Apply(c, run[i - 1], step);
      StepKeepsInvariant(c, roots, run[i - 1], step);
      StepMakesProgress(c, run[i - 1], step);
    }
  }

  ghost predicate Stuck(c: Setting, s: State) {
    forall step | step != CancelContext :: !Enabled(c, s, step)
  }

  /** Every run is finite, with a bound known in advance; and one that cannot be continued has returned. */
  lemma EveryRunEnds(c: Setting, roots: seq<Task>, workers: nat, run: seq<State>)
    requires IsRun(c, roots, workers, run)
    ensures |run| <= Measure(c, Init(roots, workers)) + 1
    ensures Stuck(c, run[|run| - 1]) ==> Returned(run[|run| - 1])
  {
    hide Measure, Invariant, Returned, Enabled;
    var last := run[|run| - 1];
    RunKeepsInvariant(c, roots, workers, run, |run| - 1);
    if !Returned(last) {
      var step := NeverStuck(c, roots, last);
    }
  }

  ghost predicate VisitorFails(c: Setting, s: State, s': State) {
    exists k: nat :: Enabled(c, s, ReceiveUntil(k)) && s' == Apply(c, s, ReceiveUntil(k))
  }

  /** Whatever the schedule: a scan that completes has counted and visited what the sequential walk does; one that
      was cut short has counted nothing twice and nothing else; and only an outside cancellation or the visitor
      cuts a scan short. */
  lemma EverySchedule(c: Setting, roots: seq<Task>, workers: nat, run: seq<State>)
    requires IsRun(c, roots, workers, run) && run[|run| - 1].phase.Stopped?
    ensures var last := run[|run| - 1];
            (last.phase.outcome == Completed ==> last.totals == WalkAll(c, roots)) &&
            AtMost(last.totals, WalkAll(c, roots)) &&
            last.totals.visited == multiset(last.visited) &&
            (last.phase.outcome == ContextDone ==> last.contextDone) &&
            (last.phase.outcome == VisitorFailed ==>
               exists i | 0 < i < |run| :: VisitorFails(c, run[i - 1], run[i]))
  {
    var last := run[|run| - 1];
    RunKeepsInvariant(c, roots, workers, run, |run| - 1);
    assert AtMost(WalkAll(c, roots), WalkAll(c, roots));
    if last.phase.outcome == VisitorFailed {
      hide Enabled, Invariant, Apply;
      SomebodyFailed(c, roots, workers, run, |run| - 1);
    }
  }

  lemma {:induction false} SomebodyFailed(c: Setting, roots: seq<Task>, workers: nat, run: seq<State>, n: nat)
    requires IsRun(c, roots, workers, run) && n < |run| && run[n].phase == Stopped(VisitorFailed)
    ensures exists i | 0 < i <= n :: VisitorFails(c, run[i - 1], run[i])
  {
    hide VisitorFails;
    if n > 0 {
      assert Next(c, run[n - 1], run[n]);
      if run[n - 1].phase != Stopped(VisitorFailed) {
        FailureIsTheVisitors(c, run[n - 1], run[n]);
      } else {
        SomebodyFailed(c, roots, workers, run, n - 1);
      }
    }
  }

  lemma FailureIsTheVisitors(c: Setting, s: State, s': State)
    requires Next(c, s, s') && s.phase != Stopped(VisitorFailed) && s'.phase == Stopped(VisitorFailed)
    ensures VisitorFails(c, s, s')
  {
    hide ScanDirectory, Absorb;
    var step :| Enabled(c, s, step) && s' == Apply(c, s, step);
    assert step.ReceiveUntil?;
    assert step == ReceiveUntil(step.failing);
  }

  /** However far a run has come, it can be continued, without outside help, until Scan returns. */
  lemma {:induction false} CanFinish(c: Setting, roots: seq<Task>, s: State) returns (run: seq<State>)
    requires Invariant(c, roots, s)
    ensures run != [] && run[0] == s && Returned(run[|run| - 1])
    ensures forall i | 0 < i < |run| :: Next(c, run[i - 1], run[i])
    ensures forall i | 0 <= i < |run| :: run[i].contextDone == s.contextDone
    ensures s.phase.Stopped? ==> run[|run| - 1].phase == s.phase
    ensures s.phase.Running? && !s.contextDone ==> run[|run| - 1].phase == Stopped(Completed)
    decreases Measure(c, s)
  {
    hide Measure, Invariant, Absorb;
    if Returned(s) {
      run := [s];
    } else {
      var step := NeverStuck(c, roots, s);
      var s' := Apply(c, s, step);
      StepKeepsInvariant(c, roots, s, step);
      StepMakesProgress(c, s, step);
      assert Next(c, s, s');
      var rest := CanFinish(c, roots, s');
      run := [s] + rest;
    }
  }

  // Order of the visits.

  predicate Between(above: Path, p: Path, below: Path) {
    above < p < below
  }

  /** At every moment of every run: whatever was visited has a root above it, and every directory between the two was
      visited before it. */
  lemma AncestorsFirst(c: Setting, roots: seq<Task>, workers: nat, run: seq<State>, n: nat, i: nat)
      returns (root: Task)
    requires IsRun(c, roots, workers, run) && n < |run| && i < |run[n].visited|
    ensures root in roots && root.path < run[n].visited[i].path
    ensures forall q | Between(root.path, q, run[n].visited[i].path) ::
              exists j | 0 <= j < i :: run[n].visited[j].path == q && run[n].visited[j].kind == Folder
  {
    RunKeepsInvariant(c, roots, workers, run, n);
    root := AncestorsInList(roots, run[n].visited, i);
  }

  lemma {:induction false} AncestorsInList(roots: seq<Task>, visited: seq<Entry>, i: nat) returns (root: Task)
    requires ParentsFirst(roots, visited) && i < |visited|
    ensures root in roots && root.path < visited[i].path
    ensures forall q | Between(root.path, q, visited[i].path) ::
              exists j | 0 <= j < i :: visited[j].path == q && visited[j].kind == Folder
    decreases i
  {
    var p := visited[i].path;
    var parent := Dir(p);
    assert Rooted(roots, visited[..i], parent);
    if k :| 0 <= k < |roots| && roots[k].path == parent {
      root := roots[k];
    } else {
      var j :| 0 <= j < i && visited[j].path == parent && visited[j].kind == Folder;
      root := AncestorsInList(roots, visited, j);
      forall q | Between(root.path, q, p)
        ensures exists j | 0 <= j < i :: visited[j].path == q && visited[j].kind == Folder
      {
        if q != parent {
          assert Between(root.path, q, parent);
          var j' :| 0 <= j' < j && visited[j'].path == q && visited[j'].kind == Folder;
        }
      }
    }
  }

  // The two ends of Scan: the roots it starts from, and the loop over one received listing.

  /** The configuration names the path of s before that of t. */
  ghost predicate ComesFirst(roots: seq<Option<Path>>, s: Task, t: Task) {
    exists n | 0 <= n < |roots| :: Some(s.path) in roots[..n] && Some(t.path) !in roots[..n]
  }

  /** A configured root, None when it cannot be normalized. */
  method PrepareRoots(fs: FileSystem, matcher: Matcher, roots: seq<Option<Path>>)
      returns (tasks: seq<Task>, issues: seq<Issue>)
    ensures forall t :: t in tasks <==> t.depth == 0 && Some(t.path) in roots && Accepted(fs, matcher, t.path)
    ensures forall i, j | 0 <= i < j < |tasks| ::
              tasks[i].path != tasks[j].path && ComesFirst(roots, tasks[i], tasks[j])
    ensures Reports(fs, matcher, roots, issues)
    ensures |tasks| + |issues| <= |roots|
  {
    hide Matches;
    tasks, issues := [], [];
    assert Reports(fs, matcher, roots[..0], issues);
    hide Reports;
    var seen: set<Path> := {};
    for n := 0 to |roots|
      invariant forall p :: p in seen <==> Some(p) in roots[..n] && !Matches(matcher, p)
      invariant forall t :: t in tasks <==> t.depth == 0 && t.path in seen && Accepted(fs, matcher, t.path)
      invariant forall t | t in tasks :: Some(t.path) in roots[..n]
      invariant forall i, j | 0 <= i < j < |tasks| ::
                  tasks[i].path != tasks[j].path && ComesFirst(roots, tasks[i], tasks[j])
      invariant Reports(fs, matcher, roots[..n], issues)
      invariant |tasks| + |issues| <= n
    {
      assert roots[..n + 1] == roots[..n] + [roots[n]];
      ReportsOneMore(fs, matcher, roots[..n], issues, roots[n]);
      if roots[n].None? {
        issues := issues + [Issue([], NormalizeRoot)];
        continue;
      }
      var p := roots[n].value;
      if p in seen || Matches(matcher, p) {
        continue;
      }
      seen := seen + {p};
      var info := fs.lstat(p);
      if info.None? || info.value.kind != Folder {
        issues := issues + [Issue(p, InspectRoot)];
        continue;
      }
      tasks := tasks + [Task(p, 0)];
      assert Task(p, 0) in tasks;
    }
    assert roots[..|roots|] == roots;
  }

  /** One issue for each root that cannot be normalized, one for each other that is no directory, and no more. */
  ghost predicate Reports(fs: FileSystem, matcher: Matcher, roots: seq<Option<Path>>, issues: seq<Issue>) {
    forall x :: multiset(issues)[x] ==
                if x == Issue([], NormalizeRoot) then multiset(roots)[None]
                else if x.operation == InspectRoot && Some(x.path) in roots && !Matches(matcher, x.path) &&
                        !Accepted(fs, matcher, x.path) then 1
                else 0
  }

  lemma ReportsOneMore(fs: FileSystem, matcher: Matcher, roots: seq<Option<Path>>, issues: seq<Issue>,
                       root: Option<Path>)
    requires Reports(fs, matcher, roots, issues)
    ensures match root
            case None => Reports(fs, matcher, roots + [root], issues + [Issue([], NormalizeRoot)])
            case Some(p) =>
              if root in roots || Matches(matcher, p) || Accepted(fs, matcher, p)
              then Reports(fs, matcher, roots + [root], issues)
              else Reports(fs, matcher, roots + [root], issues + [Issue(p, InspectRoot)])
  {
    hide Matches, Accepted;
    assert multiset(roots + [root]) == multiset(roots) + multiset{root};
    assert forall x :: Some(x) in roots + [root] <==> Some(x) in roots || root == Some(x);
    var one := if root.None? then Issue([], NormalizeRoot) else Issue(root.value, InspectRoot);
    assert multiset(issues + [one]) == multiset(issues) + multiset{one};
  }

  /** A root the walk starts from: a real directory that no exclude covers. */
  predicate Accepted(fs: FileSystem, matcher: Matcher, p: Path) {
    !Matches(matcher, p) && fs.lstat(p).Some? && fs.lstat(p).value.kind == Folder
  }

  /** The coordinator's loop over one listing, as far as the visitor lets it get. */
  method ReceiveListing(totals: Totals, listing: Listing, visit: Entry -> bool)
        returns (result: Totals, visited: nat, failed: bool)
    ensures visited <= |listing.entries| && result == Absorb(totals, listing, visited)
    ensures failed <==> exists i | 0 <= i < |listing.entries| :: !visit(listing.entries[i])
    ensures if failed then visited > 0 && !visit(listing.entries[visited - 1]) else visited == |listing.entries|
    ensures forall i | 0 <= i < (if failed then visited - 1 else visited) :: visit(listing.entries[i])
  {
    hide Plus, CountEntries, Absorb;
    var entries := listing.entries;
    result := totals.(directories := totals.directories + 1, issues := totals.issues + multiset(listing.issues));
    ghost var start := result;
    visited, failed := 0, false;
    NothingCounted(start, entries);
    while visited < |entries|
      invariant visited <= |entries|
      invariant result == Plus(start, CountEntries(entries[..visited]))
      invariant forall i | 0 <= i < visited :: visit(entries[i])
    {
      var entry := entries[visited];
      CountOneMore(start, entries, visited);
      if entry.kind == RegularFile || entry.kind == Other {
        result := result.(files := result.files + 1, size := result.size + entry.size);
      }
      result := result.(visited := result.visited + multiset{entry});
      visited := visited + 1;
      if !visit(entry) {
        failed := true;
        break;
      }
    }
    AbsorbFromStart(totals, listing, visited);
  }

  lemma NothingCounted(start: Totals, entries: seq<Entry>)
    ensures Plus(start, CountEntries(entries[..0])) == start
  {
  }

  lemma CountOneMore(start: Totals, entries: seq<Entry>, n: nat)
    requires n < |entries|
    ensures var e, before := entries[n], Plus(start, CountEntries(entries[..n]));
            var counted := e.kind == RegularFile || e.kind == Other;
            Plus(start, CountEntries(entries[..n + 1])) ==
              before.(files := before.files + if counted then 1 else 0,
                      size := before.size + if counted then e.size else 0,
                      visited := before.visited + multiset{e})
  {
    hide Plus;
    var one := CountLastEntry(entries, n);
    hide CountEntries;
    PlusLaws(start, CountEntries(entries[..n]), one);
    PlusOne(Plus(start, CountEntries(entries[..n])), one);
  }

  lemma PlusOne(a: Totals, one: Totals)
    requires one.directories == 0 && one.issues == multiset{}
    ensures Plus(a, one) ==
              a.(files := a.files + one.files, size := a.size + one.size, visited := a.visited + one.visited)
  {
  }

  lemma CountLastEntry(entries: seq<Entry>, n: nat) returns (one: Totals)
    requires n < |entries|
    ensures CountEntries(entries[..n + 1]) == Plus(CountEntries(entries[..n]), one)
    ensures var e := entries[n];
            var counted := e.kind == RegularFile || e.kind == Other;
            one == Totals(if counted then 1 else 0, if counted then e.size else 0, 0, multiset{e}, multiset{})
  {
    hide Plus;
    var e := entries[n];
    var counted := e.kind == RegularFile || e.kind == Other;
    one := Totals(if counted then 1 else 0, if counted then e.size else 0, 0, multiset{e}, multiset{});
    assert entries[..n + 1][..n] == entries[..n];
  }

  lemma AbsorbFromStart(totals: Totals, listing: Listing, n: nat)
    requires n <= |listing.entries|
    ensures Absorb(totals, listing, n) ==
              Plus(totals.(directories := totals.directories + 1, issues := totals.issues + multiset(listing.issues)),
                   CountEntries(listing.entries[..n]))
  {
    hide CountEntries;
    var here, counted := Totals(0, 0, 1, multiset{}, multiset(listing.issues)), CountEntries(listing.entries[..n]);
    assert Absorb(totals, listing, n) == Plus(totals, Plus(here, counted));
    PlusLaws(totals, here, counted);
    assert totals.(directories := totals.directories + 1, issues := totals.issues + multiset(listing.issues)) ==
           Plus(totals, here);
  }

  /** The visits of a scan of several roots: those of the walks, root by root. */
  lemma {:induction false} VisitsOfRoots(c: Setting, roots: seq<Task>)
    ensures WalkAll(c, roots).visited == multiset(VisitsOf(c, roots))
  {
    if roots != [] {
      VisitsAreVisited(c, roots[0]);
      VisitsOfRoots(c, roots[1..]);
    }
  }

  function VisitsOf(c: Setting, roots: seq<Task>): seq<Entry> {
    if roots == [] then [] else Visits(c, roots[0]) + VisitsOf(c, roots[1..])
  }

  /** With excludes, a completed scan visits exactly what the same scan without excludes would visit and the
      excludes do not match, provided the filesystem root itself is not both a root and excluded. */
  lemma {:induction false} ExcludingIsFilteringFromRoots(c: Setting, roots: seq<Task>, accepted: seq<Task>)
    requires accepted == KeptTasks(c.matcher, roots)
    requires forall t | t in roots :: t.path == [] ==> !Matches(c.matcher, [])
    ensures VisitsOf(c, accepted) == Kept(c.matcher, VisitsOf(c.(matcher := NO_EXCLUDES), roots))
  {
    hide Visits, Matches, Kept;
    var free := c.(matcher := NO_EXCLUDES);
    if roots != [] {
      var t, rest := roots[0], roots[1..];
      assert t in roots && forall x | x in rest :: x in roots;
      ExcludingIsFilteringFromRoots(c, rest, KeptTasks(c.matcher, rest));
      KeptConcat(c.matcher, Visits(free, t), VisitsOf(free, rest));
      if Matches(c.matcher, t.path) {
        ExcludedSubtree(c, free, t);
        assert accepted == KeptTasks(c.matcher, rest);
      } else {
        PruningIsFiltering(c, t);
        assert accepted == [t] + KeptTasks(c.matcher, rest);
        assert accepted[1..] == KeptTasks(c.matcher, rest);
      }
    } else {
      AllExcluded(c.matcher, []);
    }
  }
}

/** internal/scanner/scanner.go: Scan as a protocol. A coordinator owns the queue and the result; workers take
    one directory each from an unbuffered channel and answer on a channel with one place per worker. */
module ScanProtocol {
  import opened Paths
  import opened Walk

  datatype Worker = Idle | Scanning(task: Task) | Sending(task: Task) | Exited

  datatype Outcome = Completed | ContextDone | VisitorFailed

  datatype Phase = Running | Stopped(outcome: Outcome)

  /** results holds the directories whose listings lie in the results channel; lost, those whose listing a worker
      dropped when it saw the context done. Once stopped, the worker context is cancelled and jobs is closed. */
  datatype State = State(queue: seq<Task>, active: int, workers: seq<Worker>, results: seq<Task>, ghost lost: seq<Task>,
                         totals: Totals, visited: seq<Entry>, contextDone: bool, phase: Phase)

  datatype Step =
    | CancelContext
    | Dispatch(worker: nat)
    | Finish(worker: nat)
    | Send(worker: nat)
    | Drop(worker: nat)
    | Leave(worker: nat)
    | Receive
    | ReceiveUntil(failing: nat)
    | Complete
    | GiveUp

  ghost predicate Enabled(c: Setting, s: State, step: Step) {
    match step
    case CancelContext => !s.contextDone
    case Dispatch(w) => s.phase.Running? && s.queue != [] && w < |s.workers| && s.workers[w].Idle?
    case Finish(w) => w < |s.workers| && s.workers[w].Scanning?
    case Send(w) => w < |s.workers| && s.workers[w].Sending? && |s.results| < |s.workers|
    case Drop(w) => w < |s.workers| && s.workers[w].Sending? && (s.contextDone || s.phase.Stopped?)
    case Leave(w) => w < |s.workers| && s.workers[w].Idle? && s.phase.Stopped?
    case Receive => s.phase.Running? && (s.queue != [] || s.active > 0) && s.results != []
    case ReceiveUntil(k) =>
      s.phase.Running? && (s.queue != [] || s.active > 0) && s.results != [] &&
      k < |ScanDirectory(c, s.results[0]).entries|
    case Complete => s.phase.Running? && s.queue == [] && s.active <= 0
    case GiveUp => s.phase.Running? && (s.queue != [] || s.active > 0) && s.contextDone
  }

  /** The coordinator's bookkeeping for one received listing, of which the first n entries get visited. */
  function Absorb(totals: Totals, listing: Listing, n: nat): Totals
    requires n <= |listing.entries|
  {
    Plus(totals, Plus(Totals(0, 0, 1, multiset{}, multiset(listing.issues)), CountEntries(listing.entries[..n])))
  }

  ghost function Apply(c: Setting, s: State, step: Step): State
    requires Enabled(c, s, step)
  {
    match step
    case CancelContext => s.(contextDone := true)
    case Dispatch(w) =>
      s.(queue := s.queue[1..], active := s.active + 1, workers := s.workers[w := Scanning(s.queue[0])])
    case Finish(w) => s.(workers := s.workers[w := Sending(s.workers[w].task)])
    case Send(w) => s.(workers := s.workers[w := Idle], results := s.results + [s.workers[w].task])
    case Drop(w) => s.(workers := s.workers[w := Exited], lost := s.lost + [s.workers[w].task])
    case Leave(w) => s.(workers := s.workers[w := Exited])
    case Receive =>
      var listing := ScanDirectory(c, s.results[0]);
      s.(active := s.active - 1, results := s.results[1..], queue := s.queue + listing.children,
         totals := Absorb(s.totals, listing, |listing.entries|), visited := s.visited + listing.entries)
    case ReceiveUntil(k) =>
      var listing := ScanDirectory(c, s.results[0]);
      s.(active := s.active - 1, results := s.results[1..], queue := s.queue + listing.children,
         totals := Absorb(s.totals, listing, k + 1), visited := s.visited + listing.entries[..k + 1],
         phase := Stopped(VisitorFailed))
    case Complete => s.(phase := Stopped(Completed))
    case GiveUp => s.(phase := Stopped(ContextDone))
  }

  ghost function Init(roots: seq<Task>, workers: nat): State {
    State(roots, 0, seq(workers, i => Idle), [], [], ZERO, [], false, Running)
  }

  /** Scan returns when it has stopped and every worker is gone. */
  ghost predicate Returned(s: State) {
    s.phase.Stopped? && forall w | 0 <= w < |s.workers| :: s.workers[w].Exited?
  }

  // Where each directory is that has been found and not yet counted.

  ghost function TaskOf(w: Worker): multiset<Task> {
    if w.Scanning? || w.Sending? then multiset{w.task} else multiset{}
  }

  ghost function Busy(workers: seq<Worker>): multiset<Task> {
    if workers == [] then multiset{} else TaskOf(workers[0]) + Busy(workers[1..])
  }

  ghost function Outstanding(s: State): multiset<Task> {
    multiset(s.queue) + Busy(s.workers) + multiset(s.results) + multiset(s.lost)
  }

  lemma {:induction false} BusyUpdate(workers: seq<Worker>, w: nat, worker: Worker)
    requires w < |workers|
    ensures Busy(workers[w := worker]) + TaskOf(workers[w]) == Busy(workers) + TaskOf(worker)
  {
    hide TaskOf;
    var updated := workers[w := worker];
    if w == 0 {
      assert updated[0] == worker && updated[1..] == workers[1..];
      assert Busy(updated) == TaskOf(worker) + Busy(workers[1..]);
    } else {
      var rest := workers[1..];
      assert updated[1..] == rest[w - 1 := worker] && rest[w - 1] == workers[w];
      BusyUpdate(rest, w - 1, worker);
      assert Busy(updated) == TaskOf(workers[0]) + Busy(rest[w - 1 := worker]);
      assert Busy(workers) == TaskOf(workers[0]) + Busy(rest);
      AddToBoth(TaskOf(workers[0]), Busy(rest[w - 1 := worker]), TaskOf(workers[w]), Busy(rest), TaskOf(worker));
    }
  }

  lemma AddToBoth<T>(a: multiset<T>, b: multiset<T>, c: multiset<T>, d: multiset<T>, e: multiset<T>)
    requires b + c == d + e
    ensures (a + b) + c == (a + d) + e
  {
    assert (a + b) + c == a + (b + c) && (a + d) + e == a + (d + e);
  }

  /** Some worker is busy exactly when there is a busy task. */
  lemma {:induction false} SomebodyBusy(workers: seq<Worker>) returns (w: nat)
    requires Busy(workers) != multiset{}
    ensures w < |workers| && (workers[w].Scanning? || workers[w].Sending?)
  {
    if workers[0].Scanning? || workers[0].Sending? {
      w := 0;
    } else {
      w := SomebodyBusy(workers[1..]);
      w := w + 1;
    }
  }

  /** The directory p is a root, or was visited as an entry before. */
  ghost predicate Rooted(roots: seq<Task>, visited: seq<Entry>, p: Path) {
    (exists i | 0 <= i < |roots| :: roots[i].path == p) ||
    (exists j | 0 <= j < |visited| :: visited[j].path == p && visited[j].kind == Folder)
  }

  ghost predicate ParentsFirst(roots: seq<Task>, visited: seq<Entry>) {
    forall i | 0 <= i < |visited| :: visited[i].path != [] && Rooted(roots, visited[..i], Dir(visited[i].path))
  }

  ghost predicate AtMost(a: Totals, b: Totals) {
    a.files <= b.files && a.size <= b.size && a.directories <= b.directories && a.visited <= b.visited &&
    a.issues <= b.issues
  }

  ghost predicate AddsUp(c: Setting, roots: seq<Task>, s: State, order: seq<Task>) {
    multiset(order) == Outstanding(s) && Plus(s.totals, WalkAll(c, order)) == WalkAll(c, roots)
  }

  /** Exact accounting: what has been counted and what is outstanding make up the sequential walk. */
  ghost predicate Conserved(c: Setting, roots: seq<Task>, s: State) {
    exists order :: AddsUp(c, roots, s, order)
  }

  ghost predicate Orderly(roots: seq<Task>, s: State) {
    ParentsFirst(roots, s.visited) && s.totals.visited == multiset(s.visited) &&
    (s.phase.Running? ==> forall t | t in Outstanding(s) :: Rooted(roots, s.visited, t.path))
  }

  ghost predicate Counted(s: State) {
    |s.workers| > 0 && |s.results| <= |s.workers| &&
    (s.phase.Running? ==>
       s.active == |Busy(s.workers)| + |s.results| + |s.lost| &&
       (s.lost != [] ==> s.contextDone) &&
       ((exists w | 0 <= w < |s.workers| :: s.workers[w].Exited?) ==> s.contextDone))
  }

  ghost predicate Accounted(c: Setting, roots: seq<Task>, s: State) {
    match s.phase
    case Running => Conserved(c, roots, s)
    case Stopped(Completed) => s.totals == WalkAll(c, roots)
    case Stopped(ContextDone) => s.contextDone && AtMost(s.totals, WalkAll(c, roots))
    case Stopped(VisitorFailed) => AtMost(s.totals, WalkAll(c, roots))
  }

  ghost predicate Invariant(c: Setting, roots: seq<Task>, s: State) {
    Counted(s) && Accounted(c, roots, s) && Orderly(roots, s)
  }

  lemma {:induction false} NobodyBusyAtFirst(n: nat)
    ensures Busy(seq(n, i => Idle)) == multiset{}
  {
    if n > 0 {
      assert seq(n, i => Idle)[1..] == seq(n - 1, i => Idle);
      NobodyBusyAtFirst(n - 1);
    }
  }

  lemma InitInvariant(c: Setting, roots: seq<Task>, workers: nat)
    requires workers > 0
    ensures Invariant(c, roots, Init(roots, workers))
  {
    hide WalkAll, Plus;
    var s := Init(roots, workers);
    NobodyBusyAtFirst(workers);
    assert Outstanding(s) == multiset(roots);
    PlusLaws(WalkAll(c, roots), ZERO, ZERO);
    assert AddsUp(c, roots, s, roots);
    assert forall t | t in multiset(roots) :: t in roots;
  }

  /** Steps that only pass a directory on keep the account. */
  lemma PassedOn(c: Setting, roots: seq<Task>, s: State, s': State)
    requires Conserved(c, roots, s) && s'.totals == s.totals && Outstanding(s') == Outstanding(s)
    ensures Conserved(c, roots, s')
  {
    hide WalkAll, Plus, Outstanding;
    var order :| AddsUp(c, roots, s, order);
    assert AddsUp(c, roots, s', order);
  }

  /** Receiving a listing counts one directory and puts its subdirectories in its place. */
  lemma Received(c: Setting, roots: seq<Task>, s: State, s': State, t: Task, rest: multiset<Task>)
    requires Conserved(c, roots, s) && s'.totals == Plus(s.totals, Local(c, t))
    requires Outstanding(s) == multiset{t} + rest
    requires Outstanding(s') == multiset(ScanDirectory(c, t).children) + rest
    ensures Conserved(c, roots, s')
  {
    var children := ScanDirectory(c, t).children;
    hide WalkFrom, WalkAll, Plus, Outstanding, Local, ScanDirectory;
    var order :| AddsUp(c, roots, s, order);
    assert t in multiset(order);
    var i :| 0 <= i < |order| && order[i] == t;
    TakenOut(order, i);
    var a, b := order[..i], order[i + 1..];
    var order' := children + (a + b);
    WalkAllPulls(c, a, t, b);
    WalkUnfolds(c, t);
    WalkAllConcat(c, children, a + b);
    Regroup(s.totals, Local(c, t), WalkAll(c, children), WalkAll(c, a + b));
    assert multiset(order') == Outstanding(s');
    assert AddsUp(c, roots, s', order');
  }

  lemma Regroup(counted: Totals, here: Totals, below: Totals, rest: Totals)
    ensures Plus(counted, Plus(Plus(here, below), rest)) == Plus(Plus(counted, here), Plus(below, rest))
  {
  }

  // One step at a time.

  lemma BusyGains(workers: seq<Worker>, w: nat, worker: Worker)
    requires w < |workers| && TaskOf(workers[w]) == multiset{} && TaskOf(worker) != multiset{}
    ensures Busy(workers[w := worker]) == Busy(workers) + multiset{worker.task}
    ensures |Busy(workers[w := worker])| == |Busy(workers)| + 1
  {
    BusyUpdate(workers, w, worker);
  }

  lemma BusyLoses(workers: seq<Worker>, w: nat, worker: Worker)
    requires w < |workers| && TaskOf(workers[w]) != multiset{} && TaskOf(worker) == multiset{}
    ensures Busy(workers) == Busy(workers[w := worker]) + multiset{workers[w].task}
    ensures |Busy(workers[w := worker])| == |Busy(workers)| - 1
  {
    BusyUpdate(workers, w, worker);
    assert |Busy(workers)| == |Busy(workers[w := worker]) + multiset{workers[w].task}|;
  }

  lemma TakeAway<T>(a: multiset<T>, b: multiset<T>, c: multiset<T>)
    requires a + c == b + c
    ensures a == b
  {
    assert a + c - c == a && b + c - c == b;
  }

  lemma BusyKeeps(workers: seq<Worker>, w: nat, worker: Worker)
    requires w < |workers| && TaskOf(workers[w]) == TaskOf(worker)
    ensures Busy(workers[w := worker]) == Busy(workers)
  {
    hide Busy, TaskOf;
    BusyUpdate(workers, w, worker);
    TakeAway(Busy(workers[w := worker]), Busy(workers), TaskOf(worker));
  }

  ghost function Change(step: Step): int {
    if step.Dispatch? then 1 else if step.Send? || step.Drop? then -1 else 0
  }

  ghost predicate Moves(step: Step) {
    step.Dispatch? || step.Finish? || step.Send? || step.Drop? || step.Leave?
  }

  /** Dispatching, finishing, sending and dropping move a directory from hand to hand; leaving moves none. */
  lemma HandOver(c: Setting, s: State, step: Step)
    requires Enabled(c, s, step) && Moves(step)
    ensures Outstanding(Apply(c, s, step)) == Outstanding(s)
    ensures |Busy(Apply(c, s, step).workers)| == |Busy(s.workers)| + Change(step)
  {
    hide ScanDirectory, Absorb, Busy, Outstanding;
    match step
    case Dispatch(w) => HandOut(c, s, w);
    case Finish(w) => HandOverSame(c, s, step);
    case Send(w) => HandIn(c, s, w);
    case Drop(w) => HandLost(c, s, w);
    case Leave(w) => HandOverSame(c, s, step);
  }

  lemma HandOverSame(c: Setting, s: State, step: Step)
    requires Enabled(c, s, step) && (step.Finish? || step.Leave?)
    ensures Outstanding(Apply(c, s, step)) == Outstanding(s)
    ensures Busy(Apply(c, s, step).workers) == Busy(s.workers)
  {
    BusyKeeps(s.workers, step.worker, Apply(c, s, step).workers[step.worker]);
  }

  lemma HandOut(c: Setting, s: State, w: nat)
    requires Enabled(c, s, Dispatch(w))
    ensures Outstanding(Apply(c, s, Dispatch(w))) == Outstanding(s)
    ensures |Busy(Apply(c, s, Dispatch(w)).workers)| == |Busy(s.workers)| + 1
  {
    hide Busy;
    var t := s.queue[0];
    BusyGains(s.workers, w, Scanning(t));
    assert s.queue == [t] + s.queue[1..];
    Swap(multiset(s.queue), multiset{t}, multiset(s.queue[1..]), Busy(s.workers), multiset(s.results),
         multiset(s.lost));
  }

  lemma HandIn(c: Setting, s: State, w: nat)
    requires Enabled(c, s, Send(w))
    ensures Outstanding(Apply(c, s, Send(w))) == Outstanding(s)
    ensures |Busy(Apply(c, s, Send(w)).workers)| == |Busy(s.workers)| - 1
  {
    hide Busy;
    var t := s.workers[w].task;
    BusyLoses(s.workers, w, Idle);
    assert multiset(s.results + [t]) == multiset(s.results) + multiset{t};
  }

  lemma HandLost(c: Setting, s: State, w: nat)
    requires Enabled(c, s, Drop(w))
    ensures Outstanding(Apply(c, s, Drop(w))) == Outstanding(s)
    ensures |Busy(Apply(c, s, Drop(w)).workers)| == |Busy(s.workers)| - 1
  {
    hide Busy;
    var t := s.workers[w].task;
    BusyLoses(s.workers, w, Exited);
    assert multiset(s.lost + [t]) == multiset(s.lost) + multiset{t};
  }

  lemma Swap<T>(q: multiset<T>, t: multiset<T>, q': multiset<T>, b: multiset<T>, r: multiset<T>, l: multiset<T>)
    requires q == t + q'
    ensures q' + (b + t) + r + l == q + b + r + l
  {
  }

  lemma TakeResult(c: Setting, s: State, step: Step)
    requires Enabled(c, s, step) && (step.Receive? || step.ReceiveUntil?)
    ensures var t := s.results[0];
            var rest := multiset(s.queue) + Busy(s.workers) + multiset(s.results[1..]) + multiset(s.lost);
            Outstanding(s) == multiset{t} + rest &&
            Outstanding(Apply(c, s, step)) == multiset(ScanDirectory(c, t).children) + rest
  {
    hide ScanDirectory, Absorb, Busy;
    var t, rest := s.results[0], s.results[1..];
    var children, s' := ScanDirectory(c, t).children, Apply(c, s, step);
    assert s'.queue == s.queue + children && s'.results == rest && s'.workers == s.workers && s'.lost == s.lost;
    hide Apply, Enabled;
    assert s.results == [t] + rest;
    AddOne(multiset(s.queue), multiset{t}, multiset(rest), Busy(s.workers), multiset(s.lost));
    AddFirst(multiset(s.queue), multiset(children), Busy(s.workers), multiset(rest), multiset(s.lost));
  }

  lemma AddOne<T>(a: multiset<T>, t: multiset<T>, rest: multiset<T>, b: multiset<T>, d: multiset<T>)
    ensures a + b + (t + rest) + d == t + (a + b + rest + d)
  {
  }

  lemma AddFirst<T>(a: multiset<T>, x: multiset<T>, b: multiset<T>, rest: multiset<T>, d: multiset<T>)
    ensures (a + x) + b + rest + d == x + (a + b + rest + d)
  {
  }

  lemma StepKeepsCounted(c: Setting, s: State, step: Step)
    requires Enabled(c, s, step) && Counted(s)
    ensures Counted(Apply(c, s, step))
  {
    hide ScanDirectory, Absorb, Busy, Outstanding;
    if Moves(step) {
      HandOver(c, s, step);
    }
  }

  lemma AbsorbAll(c: Setting, totals: Totals, t: Task)
    ensures var r := ScanDirectory(c, t); Absorb(totals, r, |r.entries|) == Plus(totals, Local(c, t))
  {
    var r := ScanDirectory(c, t);
    assert r.entries[..|r.entries|] == r.entries;
  }

  lemma {:induction false} CountPrefix(entries: seq<Entry>, n: nat)
    requires n <= |entries|
    ensures AtMost(CountEntries(entries[..n]), CountEntries(entries))
    decreases |entries| - n
  {
    hide CountEntries;
    if n < |entries| {
      CountPrefix(entries, n + 1);
      CountLast(entries[..n + 1]);
      assert entries[..n + 1][..n] == entries[..n];
    } else {
      assert entries[..n] == entries;
    }
  }

  lemma CountLast(entries: seq<Entry>)
    requires entries != []
    ensures AtMost(CountEntries(entries[..|entries| - 1]), CountEntries(entries))
  {
  }

  /** Counting part of a listing never counts more than the walk has. */
  lemma AbsorbSome(c: Setting, roots: seq<Task>, s: State, t: Task, rest: multiset<Task>, n: nat)
    requires Conserved(c, roots, s) && Outstanding(s) == multiset{t} + rest
    requires n <= |ScanDirectory(c, t).entries|
    ensures AtMost(Absorb(s.totals, ScanDirectory(c, t), n), WalkAll(c, roots))
  {
    var r := ScanDirectory(c, t);
    hide Outstanding, WalkFrom, ScanDirectory, CountEntries, WalkAll, Plus, AtMost;
    var order :| AddsUp(c, roots, s, order);
    assert t in multiset(order);
    var i :| 0 <= i < |order| && order[i] == t;
    TakenOut(order, i);
    WalkAllPulls(c, order[..i], t, order[i + 1..]);
    WalkUnfolds(c, t);
    CountPrefix(r.entries, n);
    PartOfTheWalk(s.totals, Totals(0, 0, 1, multiset{}, multiset(r.issues)), CountEntries(r.entries[..n]),
                  CountEntries(r.entries), WalkAll(c, r.children), WalkAll(c, order[..i] + order[i + 1..]));
  }

  lemma PartOfTheWalk(counted: Totals, here: Totals, part: Totals, entries: Totals, below: Totals, rest: Totals)
    requires AtMost(part, entries)
    ensures AtMost(Plus(counted, Plus(here, part)), Plus(counted, Plus(Plus(Plus(here, entries), below), rest)))
  {
  }

  lemma StepKeepsAccounted(c: Setting, roots: seq<Task>, s: State, step: Step)
    requires Enabled(c, s, step) && Invariant(c, roots, s)
    ensures Accounted(c, roots, Apply(c, s, step))
  {
    hide WalkAll, Outstanding, ScanDirectory, Orderly, Conserved, Absorb, Plus, AtMost, Busy;
    var s' := Apply(c, s, step);
    if Moves(step) {
      HandOver(c, s, step);
      if s.phase.Running? {
        PassedOn(c, roots, s, s');
      }
    } else if step.CancelContext? {
      if s.phase.Running? {
        SameAccount(c, roots, s, s');
      }
    } else if step.Complete? {
      NothingOutstanding(c, roots, s);
    } else if step.GiveUp? {
      SomeCounted(c, roots, s);
    } else {
      TakeResult(c, s, step);
      var rest := multiset(s.queue) + Busy(s.workers) + multiset(s.results[1..]) + multiset(s.lost);
      if step.Receive? {
        AbsorbAll(c, s.totals, s.results[0]);
        Received(c, roots, s, s', s.results[0], rest);
      } else {
        AbsorbSome(c, roots, s, s.results[0], rest, step.failing + 1);
      }
    }
  }

  lemma SameAccount(c: Setting, roots: seq<Task>, s: State, s': State)
    requires Conserved(c, roots, s) && s' == s.(contextDone := true)
    ensures Conserved(c, roots, s')
  {
    var order :| AddsUp(c, roots, s, order);
    assert AddsUp(c, roots, s', order);
  }

  /** An idle coordinator with nothing active has counted everything, and nothing was ever lost. */
  lemma NothingOutstanding(c: Setting, roots: seq<Task>, s: State)
    requires Conserved(c, roots, s) && Counted(s) && s.phase.Running? && s.queue == [] && s.active <= 0
    ensures s.totals == WalkAll(c, roots)
  {
    var order :| AddsUp(c, roots, s, order);
    assert |order| == |multiset(order)| == 0;
    PlusLaws(s.totals, ZERO, ZERO);
  }

  lemma SomeCounted(c: Setting, roots: seq<Task>, s: State)
    requires Conserved(c, roots, s)
    ensures AtMost(s.totals, WalkAll(c, roots))
  {
    var order :| AddsUp(c, roots, s, order);
    assert Plus(s.totals, WalkAll(c, order)) == WalkAll(c, roots);
  }

  lemma {:induction false} NoDirectories(entries: seq<Entry>)
    ensures CountEntries(entries).directories == 0
  {
    if entries != [] {
      NoDirectories(entries[..|entries| - 1]);
    }
  }

  lemma RootedLater(roots: seq<Task>, visited: seq<Entry>, more: seq<Entry>, p: Path)
    requires Rooted(roots, visited, p)
    ensures Rooted(roots, visited + more, p)
  {
    if j :| 0 <= j < |visited| && visited[j].path == p && visited[j].kind == Folder {
      assert (visited + more)[j].path == p;
    }
  }

  /** Visiting part of a directory's listing keeps parents first. */
  lemma ListingAfterParent(roots: seq<Task>, visited: seq<Entry>, more: seq<Entry>, p: Path)
    requires ParentsFirst(roots, visited) && Rooted(roots, visited, p)
    requires forall e | e in more :: |e.path| == |p| + 1 && Dir(e.path) == p
    ensures ParentsFirst(roots, visited + more)
  {
    var all := visited + more;
    forall i | 0 <= i < |all|
      ensures all[i].path != [] && Rooted(roots, all[..i], Dir(all[i].path))
    {
      if i < |visited| {
        assert all[..i] == visited[..i];
      } else {
        assert all[i] == more[i - |visited|];
        assert all[..i] == visited + more[..i - |visited|];
        RootedLater(roots, visited, more[..i - |visited|], p);
      }
    }
  }

  lemma StepKeepsOrderly(c: Setting, roots: seq<Task>, s: State, step: Step)
    requires Enabled(c, s, step) && Orderly(roots, s)
    ensures Orderly(roots, Apply(c, s, step))
  {
    hide Rooted, ParentsFirst, Outstanding, ScanDirectory, Absorb, Busy;
    if Moves(step) {
      HandOver(c, s, step);
    } else if step.CancelContext? {
      assert Outstanding(Apply(c, s, step)) == Outstanding(s) by {
        OutstandingOfFields(s, Apply(c, s, step));
      }
    } else if step.Receive? || step.ReceiveUntil? {
      ReceiveKeepsOrderly(c, roots, s, step);
    }
  }

  lemma OutstandingOfFields(s: State, s': State)
    requires s.queue == s'.queue && s.workers == s'.workers && s.results == s'.results && s.lost == s'.lost
    ensures Outstanding(s) == Outstanding(s')
  {
  }

  lemma ReceiveKeepsOrderly(c: Setting, roots: seq<Task>, s: State, step: Step)
    requires Enabled(c, s, step) && Orderly(roots, s) && (step.Receive? || step.ReceiveUntil?)
    ensures Orderly(roots, Apply(c, s, step))
  {
    hide Rooted, ParentsFirst, Outstanding, Busy, Absorb, ScanDirectory;
    var s' := Apply(c, s, step);
    var t := s.results[0];
    var listing := ScanDirectory(c, t);
    var rest := multiset(s.queue) + Busy(s.workers) + multiset(s.results[1..]) + multiset(s.lost);
    TakeResult(c, s, step);
    var n := Visited(c, s, step);
    var more := listing.entries[..n];
    hide Apply, Enabled;
    assert t in Outstanding(s);
    ListingAfterParent(roots, s.visited, more, t.path);
    CountedOnce(more);
    assert s'.totals.visited == multiset(s.visited) + multiset(more) by {
      AbsorbVisits(s.totals, listing, n);
    }
    if s'.phase.Running? {
      forall x | x in Outstanding(s')
        ensures Rooted(roots, s'.visited, x.path)
      {
        if x in listing.children {
          ChildIsRooted(c, roots, s.visited, t, x);
        } else {
          assert x in rest && x in Outstanding(s);
          RootedLater(roots, s.visited, more, x.path);
        }
      }
    }
  }

  /** How many entries of the received listing get visited. */
  lemma Visited(c: Setting, s: State, step: Step) returns (n: nat)
    requires Enabled(c, s, step) && (step.Receive? || step.ReceiveUntil?)
    ensures var s', listing := Apply(c, s, step), ScanDirectory(c, s.results[0]);
            n <= |listing.entries| && (s'.phase.Running? ==> n == |listing.entries|) &&
            s'.visited == s.visited + listing.entries[..n] && s'.totals == Absorb(s.totals, listing, n)
  {
    hide ScanDirectory, Absorb;
    var entries := ScanDirectory(c, s.results[0]).entries;
    n := if step.Receive? then |entries| else step.failing + 1;
    assert entries[..|entries|] == entries;
  }

  lemma AbsorbVisits(totals: Totals, listing: Listing, n: nat)
    requires n <= |listing.entries|
    ensures Absorb(totals, listing, n).visited == totals.visited + multiset(listing.entries[..n])
  {
    CountedOnce(listing.entries[..n]);
  }

  lemma ChildIsRooted(c: Setting, roots: seq<Task>, visited: seq<Entry>, t: Task, child: Task)
    requires child in ScanDirectory(c, t).children
    ensures Rooted(roots, visited + ScanDirectory(c, t).entries, child.path)
  {
    var entries := ScanDirectory(c, t).entries;
    var e :| e in entries && e.path == child.path && e.kind == Folder;
    var j :| 0 <= j < |entries| && entries[j] == e;
    assert (visited + entries)[|visited| + j] == e;
  }

  lemma StepKeepsInvariant(c: Setting, roots: seq<Task>, s: State, step: Step)
    requires Enabled(c, s, step) && Invariant(c, roots, s)
    ensures Invariant(c, roots, Apply(c, s, step))
  {
    hide Counted, Accounted, Orderly;
    StepKeepsCounted(c, s, step);
    StepKeepsAccounted(c, roots, s, step);
    StepKeepsOrderly(c, roots, s, step);
  }
}

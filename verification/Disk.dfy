/** A disk: the current file system, the environment's decision about each system call, and, for the
    proofs, every state the disk has been in, any one of which a crash may leave behind. */
module Disks {
  import opened Paths
  import opened FileTree

  datatype Lookup = Found(node: Node) | NotExist | LookupError
  datatype ReadResult = Contents(data: Data) | ReadError

  function Below(fs: FS, p: Path): set<Path> {
    set k | k in fs && p <= k
  }

  /** One of these paths that is above none of the others. */
  predicate Lowest(todo: set<Path>, k: Path) {
    k in todo && forall x | x in todo && k <= x :: x == k
  }

  lemma {:induction false} SomeLowest(todo: set<Path>) returns (lowest: Path)
    requires todo != {}
    ensures Lowest(todo, lowest)
  {
    var k :| k in todo;
    var rest := todo - {k};
    assert todo == rest + {k};
    if rest == {} {
      lowest := k;
    } else {
      lowest := SomeLowest(rest);
      if lowest <= k {
        forall x | x in todo && k <= x
          ensures x == k
        {
          ContainmentIsPartialOrder(x, k, lowest);
          ContainmentIsPartialOrder(k, lowest, k);
          assert x in rest ==> lowest <= x && x == lowest;
        }
        lowest := k;
      }
    }
  }

  /** An order in which to remove the tree at p: every node once, a directory after all that is below it. */
  ghost predicate Removal(fs: FS, p: Path, order: seq<Path>) {
    (forall k :: k in order <==> k in Below(fs, p)) &&
    forall i, j | 0 <= i < j < |order| :: !(order[i] <= order[j])
  }

  /** What is left when each node has been tried once, in this order, from system call number tick on: it goes if the
      environment lets it and nothing is left below it. */
  function Attempted(grants: nat -> bool, tick: nat, fs: FS, order: seq<Path>): FS {
    if order == [] then fs else
      var n := |order| - 1;
      Attempt(grants(tick + n), Attempted(grants, tick, fs, order[..n]), order[n])
  }

  function Attempt(granted: bool, fs: FS, k: Path): FS {
    if granted && Below(fs, k) <= {k} then fs - {k} else fs
  }

  /** The nodes in order have been tried, those in todo are to follow. */
  ghost predicate Trying(a: FS, p: Path, order: seq<Path>, todo: set<Path>) {
    (forall k :: k in order || k in todo <==> k in Below(a, p)) &&
    (forall i, j | 0 <= i < j < |order| :: !(order[i] <= order[j])) &&
    forall i, k | 0 <= i < |order| && k in todo :: !(order[i] <= k)
  }

  lemma RemovalStarts(grants: nat -> bool, tick: nat, a: FS, p: Path)
    ensures Trying(a, p, [], Below(a, p)) && Attempted(grants, tick, a, []) == a
  {
  }

  lemma TryingNext(a: FS, p: Path, order: seq<Path>, todo: set<Path>, k: Path)
    requires Trying(a, p, order, todo) && k in todo && Lowest(todo, k)
    ensures Trying(a, p, order + [k], todo - {k})
  {
    hide Below;
    forall x
      ensures x in order + [k] || x in todo - {k} <==> x in Below(a, p)
    {
    }
  }

  lemma LowestIsIn(todo: set<Path>, k: Path)
    requires Lowest(todo, k)
    ensures k in todo
  {
  }

  lemma AttemptedNext(grants: nat -> bool, tick: nat, a: FS, order: seq<Path>, k: Path)
    ensures Attempted(grants, tick, a, order + [k]) ==
              Attempt(grants(tick + |order|), Attempted(grants, tick, a, order), k)
  {
    assert (order + [k])[..|order|] == order;
  }

  lemma TryingEnds(grants: nat -> bool, tick: nat, a: FS, p: Path, order: seq<Path>, ok: bool)
    requires Trying(a, p, order, {}) && (ok <==> Vacant(Attempted(grants, tick, a, order), p))
    ensures RemovedBy(grants, tick, a, p, ok, Attempted(grants, tick, a, order), tick + |order|)
  {
    hide Attempted, Vacant;
    assert Removal(a, p, order);
  }

  lemma AttemptsStayUnder(grants: nat -> bool, tick: nat, a: FS, p: Path, order: seq<Path>, todo: set<Path>)
    requires Trying(a, p, order, todo)
    ensures RemovesUnder(a, Attempted(grants, tick, a, order), p)
  {
    AttemptsOnlyTake(grants, tick, a, order);
  }

  /** Exactly what a removal does, given which of its system calls the environment lets go ahead. */
  ghost predicate RemovedBy(grants: nat -> bool, tick: nat, a: FS, p: Path, ok: bool, b: FS, tick': nat) {
    (ok <==> Vacant(b, p)) &&
    exists order :: Removal(a, p, order) && b == Attempted(grants, tick, a, order) && tick' == tick + |order|
  }

  /** If the tree is not gone, a deletion was refused. */
  lemma GoneUnlessRefused(grants: nat -> bool, tick: nat, a: FS, p: Path, ok: bool, b: FS, tick': nat)
    requires RemovedBy(grants, tick, a, p, ok, b, tick')
    ensures (forall m | tick <= m < tick' :: grants(m)) ==> ok
    ensures RemovesUnder(a, b, p)
  {
    var order :| Removal(a, p, order) && b == Attempted(grants, tick, a, order) && tick' == tick + |order|;
    assert order[..|order|] == order;
    AttemptsOnlyTake(grants, tick, a, order);
    if forall m | tick <= m < tick' :: grants(m) {
      GrantedGo(grants, tick, a, p, order, |order|);
    }
  }

  /** A node at p, and something below it. */
  ghost predicate Branches(fs: FS, p: Path) {
    p in fs && exists k | k in fs :: p < k
  }

  ghost predicate OneGone(a: FS, b: FS, p: Path) {
    exists k | k in a :: p < k && b == a - {k}
  }

  /** Where only the first deletion goes ahead, a tree of several nodes loses one of them, and not the topmost. */
  lemma FirstGoes(grants: nat -> bool, tick: nat, a: FS, p: Path, ok: bool, b: FS, tick': nat)
    requires RemovedBy(grants, tick, a, p, ok, b, tick') && Branches(a, p)
    requires grants(tick) && forall m | tick < m :: !grants(m)
    ensures !ok && OneGone(a, b, p) && tick < tick'
  {
    hide Attempted, Attempt, Removal;
    var order :| Removal(a, p, order) && b == Attempted(grants, tick, a, order) && tick' == tick + |order|;
    FirstIsLowest(a, p, order);
    OnlyFirstTried(grants, tick, a, order);
    LowestGoes(a, order[0]);
    assert p in b;
  }

  lemma LowestGoes(a: FS, k: Path)
    requires Below(a, k) == {k}
    ensures Attempt(true, a, k) == a - {k}
  {
  }

  lemma OnlyFirstTried(grants: nat -> bool, tick: nat, a: FS, order: seq<Path>)
    requires order != [] && forall m | tick < m :: !grants(m)
    ensures Attempted(grants, tick, a, order) == Attempt(grants(tick), a, order[0])
  {
    assert order[..|order|] == order && order[..1][..0] == [];
    RefusedStay(grants, tick, a, order, 1, |order|);
    assert Attempted(grants, tick, a, []) == a;
  }

  lemma FirstIsLowest(a: FS, p: Path, order: seq<Path>)
    requires Removal(a, p, order) && Branches(a, p)
    ensures order != [] && order[0] in a && p < order[0] && Below(a, order[0]) == {order[0]}
  {
    var more :| more in a && p < more;
    assert p in order && more in order;
    var first := order[0];
    var i :| 0 <= i < |order| && order[i] == more;
    assert first in order && first != p;
    forall x | x in a && first <= x
      ensures x == first
    {
      ContainmentIsPartialOrder(x, first, p);
      assert x in order;
      var j :| 0 <= j < |order| && order[j] == x;
    }
  }

  /** A node whose deletion is refused stays, and so does every directory above it. */
  lemma {:induction false} RefusedStays(grants: nat -> bool, tick: nat, a: FS, p: Path, order: seq<Path>, n: nat,
                                        m: nat)
    requires Removal(a, p, order) && m < n <= |order| && !grants(tick + m)
    ensures forall k | k in a && k <= order[m] :: k in Attempted(grants, tick, a, order[..n])
  {
    assert order[..n][..n - 1] == order[..n - 1];
    var before := Attempted(grants, tick, a, order[..n - 1]);
    forall k | k in a && k <= order[m]
      ensures k in Attempt(grants(tick + n - 1), before, order[n - 1])
    {
      if n - 1 == m {
        NotYetTried(grants, tick, a, p, order, m, k);
      } else {
        RefusedStays(grants, tick, a, p, order, n - 1, m);
        assert order[m] in order && order[m] in before;
        assert k == order[n - 1] ==> order[m] in Below(before, k) && order[m] != k;
      }
    }
  }

  /** Before its turn, a node is there, and so is what is above it. */
  lemma {:induction false} NotYetTried(grants: nat -> bool, tick: nat, a: FS, p: Path, order: seq<Path>, m: nat,
                                       k: Path)
    requires Removal(a, p, order) && m < |order| && k in a && k <= order[m]
    ensures k in Attempted(grants, tick, a, order[..m])
  {
    assert forall i | 0 <= i < m :: !(order[i] <= order[m]);
    OnlyTriedGo(grants, tick, a, order[..m], k);
  }

  lemma {:induction false} OnlyTriedGo(grants: nat -> bool, tick: nat, a: FS, order: seq<Path>, k: Path)
    requires k in a && k !in order
    ensures k in Attempted(grants, tick, a, order)
  {
    if order != [] {
      OnlyTriedGo(grants, tick, a, order[..|order| - 1], k);
    }
  }

  /** Where nothing is refused, everything goes. */
  lemma {:induction false} GrantedGo(grants: nat -> bool, tick: nat, a: FS, p: Path, order: seq<Path>, n: nat)
    requires Removal(a, p, order) && n <= |order| && forall m | tick <= m < tick + n :: grants(m)
    ensures forall k | k in order[..n] :: k !in Attempted(grants, tick, a, order[..n])
  {
    if n > 0 {
      var rest := order[..n - 1];
      assert order[..n][..n - 1] == rest;
      GrantedGo(grants, tick, a, p, order, n - 1);
      var before := Attempted(grants, tick, a, rest);
      var last := order[n - 1];
      assert grants(tick + n - 1) && last in order;
      AttemptsOnlyTake(grants, tick, a, rest);
      forall x | x in before && last <= x
        ensures x == last
      {
        ContainmentIsPartialOrder(x, last, p);
        assert x in order && x !in rest;
        var i :| 0 <= i < |order| && order[i] == x;
      }
    }
  }

  lemma {:induction false} AttemptsOnlyTake(grants: nat -> bool, tick: nat, a: FS, order: seq<Path>)
    ensures forall k | k in Attempted(grants, tick, a, order) :: k in a && Attempted(grants, tick, a, order)[k] == a[k]
    ensures forall k | k in a && k !in order :: k in Attempted(grants, tick, a, order)
  {
    if order != [] {
      AttemptsOnlyTake(grants, tick, a, order[..|order| - 1]);
    }
  }

  /** Where everything is refused, everything stays. */
  lemma {:induction false} RefusedStay(grants: nat -> bool, tick: nat, a: FS, order: seq<Path>, from: nat, n: nat)
    requires from <= n <= |order| && forall m | tick + from <= m < tick + n :: !grants(m)
    ensures Attempted(grants, tick, a, order[..n]) == Attempted(grants, tick, a, order[..from])
  {
    if from < n {
      assert order[..n][..n - 1] == order[..n - 1];
      RefusedStay(grants, tick, a, order, from, n - 1);
      assert !grants(tick + n - 1);
    }
  }

  class Disk {
    var files: FS
    var tick: nat
    // The environment lets the n-th system call go ahead, or makes it fail.
    const grants: nat -> bool
    ghost var trace: seq<FS>

    constructor (initial: FS, environment: nat -> bool)
      ensures Valid() && files == initial && tick == 0 && grants == environment && trace == [initial]
    {
      files, tick, grants, trace := initial, 0, environment, [initial];
    }

    ghost predicate Valid()
      reads this
    {
      trace != [] && trace[|trace| - 1] == files
    }

    ghost predicate Reliable() {
      forall n: nat :: grants(n)
    }

    method Ask() returns (granted: bool)
      requires Valid()
      modifies this`tick
      ensures granted == grants(old(tick)) && tick == old(tick) + 1
      ensures Reliable() ==> granted
    {
      granted := grants(tick);
      tick := tick + 1;
    }

    method MkdirAll(d: Path) returns (ok: bool)
      requires Valid()
      modifies this
      ensures Valid() && old(trace) <= trace
      ensures forall i | |old(trace)| <= i < |trace| :: AddsDirs(old(files), trace[i], d)
      ensures AddsDirs(old(files), files, d)
      ensures ok ==> DirsExist(files, d)
      ensures Reliable() && DirsOnly(old(files), d) ==> ok
    {
      var n := 0;
      while n < |d|
        invariant 0 <= n <= |d|
        invariant Valid() && old(trace) <= trace
        invariant AddsDirs(old(files), files, d)
        invariant forall i | |old(trace)| <= i < |trace| :: AddsDirs(old(files), trace[i], d)
        invariant DirsExist(files, d[..n])
      {
        var p := d[..n + 1];
        assert p <= d && forall m | 0 < m <= n :: d[..n][..m] == d[..m] == p[..m];
        if p in files {
          if !files[p].Directory? {
            return false;
          }
        } else {
          var granted := Ask();
          if !granted {
            return false;
          }
          files := files[p := Directory];
          trace := trace + [files];
        }
        assert p[..n + 1] == p;
        n := n + 1;
      }
      assert d[..n] == d;
      return true;
    }

    method Rename(p: Path, q: Path) returns (ok: bool)
      requires Valid()
      modifies this
      ensures Valid() && trace == old(trace) + [files]
      ensures files == if ok then Renamed(old(files), p, q) else old(files)
      ensures ok ==> CanRename(old(files), p, q)
      ensures Reliable() && CanRename(old(files), p, q) ==> ok
    {
      ok := Ask();
      ok := ok && CanRename(files, p, q);
      if ok {
        files := Renamed(files, p, q);
      }
      trace := trace + [files];
    }

    /** os.WriteFile truncates before it writes, so an incomplete file is a state of its own. */
    method WriteFile(p: Path, data: Data) returns (ok: bool)
      requires Valid()
      modifies this
      ensures Valid() && old(trace) <= trace
      ensures forall i | |old(trace)| <= i < |trace| :: WritesOnly(old(files), trace[i], p)
      ensures WritesOnly(old(files), files, p)
      ensures ok ==> files == old(files)[p := File(data)] && Leaf(files, p)
      ensures Reliable() && CanWrite(old(files), p) ==> ok
    {
      ok := Ask();
      if !ok || !CanWrite(files, p) {
        return false;
      }
      files := files[p := File(Incomplete)];
      trace := trace + [files];
      ok := Ask();
      if ok {
        files := files[p := File(data)];
        trace := trace + [files];
      }
    }

    /** Below something that is no directory the answer is an error of another kind than "does not exist". */
    method Lstat(p: Path) returns (r: Lookup)
      requires Valid()
      modifies this`tick
      ensures r.Found? ==> p in files && files[p] == r.node
      ensures r.NotExist? ==> Vacant(files, p)
      ensures Reliable() && p in files ==> r.Found?
      ensures r.NotExist? ==> DirsOnly(files, Dir(p))
      ensures Reliable() && Vacant(files, p) && DirsOnly(files, Dir(p)) ==> r.NotExist?
      ensures tick == old(tick) + 1 && (grants(old(tick)) && p in files ==> r.Found?)
      ensures !grants(old(tick)) ==> r.LookupError?
    {
      var granted := Ask();
      if !granted {
        return LookupError;
      }
      if p in files {
        return Found(files[p]);
      }
      return if Vacant(files, p) && DirsOnly(files, Dir(p)) then NotExist else LookupError;
    }

    method ReadFile(p: Path) returns (r: ReadResult)
      requires Valid()
      modifies this`tick
      ensures r.Contents? ==> p in files && files[p] == File(r.data)
      ensures Reliable() && p in files && files[p].File? ==> r.Contents?
      ensures tick == old(tick) + 1 && (r.Contents? <==> grants(old(tick)) && p in files && files[p].File?)
    {
      var granted := Ask();
      if granted && p in files && files[p].File? {
        return Contents(files[p].data);
      }
      return ReadError;
    }

    /** os.RemoveAll tries every node of the tree, a directory after its contents, and goes on after a failure. */
    method RemoveAll(p: Path) returns (ok: bool)
      requires Valid()
      modifies this
      ensures Valid() && old(trace) <= trace
      ensures forall i | |old(trace)| <= i < |trace| :: RemovesUnder(old(files), trace[i], p)
      ensures RemovesUnder(old(files), files, p)
      ensures (ok <==> Vacant(files, p)) && (Reliable() ==> ok)
      ensures RemovedBy(grants, old(tick), old(files), p, ok, files, tick)
    {
      ghost var a, order: seq<Path> := files, [];
      var todo := Below(files, p);
      RemovalStarts(grants, tick, a, p);
      hide RemovesUnder, Attempt, Attempted, Lowest, Removal, Trying, RemovedBy, Below;
      while todo != {}
        invariant Valid() && old(trace) <= trace
        invariant forall i | |old(trace)| <= i < |trace| :: RemovesUnder(a, trace[i], p)
        invariant Trying(a, p, order, todo)
        invariant files == Attempted(grants, old(tick), a, order)
        invariant tick == old(tick) + |order|
        decreases |todo|
      {
        ghost var lowest := SomeLowest(todo);
        assert lowest in todo by {
          LowestIsIn(todo, lowest);
        }
        var k :| k in todo && Lowest(todo, k);
        TryingNext(a, p, order, todo, k);
        var granted := Ask();
        AttemptedNext(grants, old(tick), a, order, k);
        files := Attempt(granted, files, k);
        order := order + [k];
        AttemptsStayUnder(grants, old(tick), a, p, order, todo - {k});
        trace := trace + [files];
        todo := todo - {k};
      }
      AttemptsStayUnder(grants, old(tick), a, p, order, todo);
      ok := Vacant(files, p);
      TryingEnds(grants, old(tick), a, p, order, ok);
      GoneUnlessRefused(grants, old(tick), a, p, ok, files, tick);
    }

    /** os.Remove with its error ignored: an occupied directory stays. */
    method Remove(p: Path)
      requires Valid()
      modifies this
      ensures Valid() && trace == old(trace) + [files]
      ensures RemovesUnder(old(files), files, p)
      ensures files == old(files) || files == old(files) - {p}
      ensures files != old(files) ==> forall k | k in old(files) && p <= k :: k == p
      ensures Reliable() && (forall k | k in old(files) && p <= k :: k == p) ==> p !in files
    {
      var granted := Ask();
      if granted && forall k | k in files && p <= k :: k == p {
        files := files - {p};
      }
      trace := trace + [files];
    }
  }
}

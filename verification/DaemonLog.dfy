/** What the event log of cmd/daemon.go is good for: its counts do not depend on map order, its renames are as many
    as possible, and it replays to the present. */
module DaemonLog {
  import opened Wrappers
  import opened DaemonDiff

  // Counting events.

  datatype Kind = CREATE | DELETE | RENAME | SIZE_CHANGE | MODIFY

  function KindOf(e: Event): Kind {
    match e
    case Create(_, _) => CREATE
    case Delete(_, _) => DELETE
    case Rename(_, _, _) => RENAME
    case SizeChange(_, _) => SIZE_CHANGE
    case Modify(_, _) => MODIFY
  }

  function Those(changes: seq<Change>, kinds: set<Kind>): set<int> {
    set i | 0 <= i < |changes| && KindOf(changes[i].event) in kinds
  }

  function Count(changes: seq<Change>, kind: Kind): nat {
    |Those(changes, {kind})|
  }

  /** The path an event is about; for a rename, the one it comes from or the one it goes to. */
  function PathAt(e: Event, from: bool): FilePath {
    if e.Rename? && from then e.oldPath else e.path
  }

  function PathsAt(changes: seq<Change>, s: set<int>, from: bool): set<FilePath>
    requires forall i | i in s :: 0 <= i < |changes|
  {
    set i | i in s :: PathAt(changes[i].event, from)
  }

  lemma SomeElement<T>(s: set<T>) returns (x: T)
    requires s != {}
    ensures x in s
  {
    x :| x in s;
  }

  lemma {:induction false} OnePathEach(changes: seq<Change>, s: set<int>, from: bool)
    requires Apart(changes) && forall i | i in s :: 0 <= i < |changes|
    ensures |PathsAt(changes, s, from)| == |s|
  {
    if s != {} {
      var i := SomeElement(s);
      var p := PathAt(changes[i].event, from);
      OnePathEach(changes, s - {i}, from);
      hide PathsAt;
      forall j | j in s - {i}
        ensures PathAt(changes[j].event, from) != p
      {
        assert PathAt(changes[j].event, from) in Touches(changes[j].event) && p in Touches(changes[i].event);
        if j < i {
          assert Touches(changes[j].event) !! Touches(changes[i].event);
        } else {
          assert Touches(changes[i].event) !! Touches(changes[j].event);
        }
      }
      OnePathMore(changes, s, from, i);
    }
  }

  lemma OnePathMore(changes: seq<Change>, s: set<int>, from: bool, i: int)
    requires i in s && forall j | j in s :: 0 <= j < |changes|
    requires forall j | j in s - {i} :: PathAt(changes[j].event, from) != PathAt(changes[i].event, from)
    ensures |PathsAt(changes, s, from)| == |PathsAt(changes, s - {i}, from)| + 1
  {
    hide PathAt;
    var p, all, rest := PathAt(changes[i].event, from), PathsAt(changes, s, from), PathsAt(changes, s - {i}, from);
    assert p in all && p !in rest;
    assert forall j | j in s :: j == i || j in s - {i};
    assert all == rest + {p};
  }

  function GoneFiles(before: Snapshot, after: Snapshot): set<FilePath> {
    set p | p in before && p !in after
  }

  function GoneWith(before: Snapshot, after: Snapshot, key: FileState): set<FilePath> {
    set p | p in before && p !in after && before[p] == key
  }

  /** An event touching a path says the right thing about it. */
  lemma EventAt(before: Snapshot, after: Snapshot, changes: seq<Change>, p: FilePath) returns (i: nat)
    requires Describes(before, after, changes)
    requires Gone(before, after, p) || Gone(after, before, p) || Changed(before, after, p)
    ensures i < |changes| && p in Touches(changes[i].event) && Holds(before, after, changes[i])
    ensures Gone(before, after, p) ==>
              changes[i].event.Delete? || (changes[i].event.Rename? && changes[i].event.oldPath == p)
    ensures Gone(after, before, p) ==>
              changes[i].event.Create? || (changes[i].event.Rename? && changes[i].event.path == p)
    ensures Changed(before, after, p) ==>
              if before[p].size != after[p].size then changes[i].event.SizeChange? else changes[i].event.Modify?
  {
    assert Covered(changes, p);
    i :| 0 <= i < |changes| && p in Touches(changes[i].event);
  }

  /** Every deleted file is in one DELETE or RENAME, every created one in one CREATE or RENAME. */
  lemma DeletedAndCreated(before: Snapshot, after: Snapshot, changes: seq<Change>)
    requires Describes(before, after, changes)
    ensures PathsAt(changes, Those(changes, {DELETE, RENAME}), true) == GoneFiles(before, after)
    ensures PathsAt(changes, Those(changes, {CREATE, RENAME}), false) == GoneFiles(after, before)
  {
    hide Apart, Covered;
    var d, c := Those(changes, {DELETE, RENAME}), Those(changes, {CREATE, RENAME});
    forall p
      ensures p in PathsAt(changes, d, true) <==> p in GoneFiles(before, after)
    {
      if p in PathsAt(changes, d, true) {
        var i :| i in d && PathAt(changes[i].event, true) == p;
        assert Holds(before, after, changes[i]);
      }
      if p in GoneFiles(before, after) {
        var i := EventAt(before, after, changes, p);
        assert i in d && PathAt(changes[i].event, true) == p;
      }
    }
    forall p
      ensures p in PathsAt(changes, c, false) <==> p in GoneFiles(after, before)
    {
      if p in PathsAt(changes, c, false) {
        var i :| i in c && PathAt(changes[i].event, false) == p;
        assert Holds(before, after, changes[i]);
      }
      if p in GoneFiles(after, before) {
        var i := EventAt(before, after, changes, p);
        assert i in c && PathAt(changes[i].event, false) == p;
      }
    }
  }

  lemma ModifiedAndResized(before: Snapshot, after: Snapshot, changes: seq<Change>)
    requires Describes(before, after, changes)
    ensures PathsAt(changes, Those(changes, {SIZE_CHANGE}), false) ==
              set p | p in before && p in after && before[p].size != after[p].size
    ensures PathsAt(changes, Those(changes, {MODIFY}), false) ==
              set p | p in before && p in after && before[p].size == after[p].size &&
                      before[p].modified != after[p].modified
  {
    hide Apart, Covered;
    var z, m := Those(changes, {SIZE_CHANGE}), Those(changes, {MODIFY});
    forall i | i in z + m
      ensures Holds(before, after, changes[i])
    {
    }
    forall p | p in before && p in after && (before[p].size != after[p].size || before[p].modified != after[p].modified)
      ensures p in PathsAt(changes, if before[p].size != after[p].size then z else m, false)
    {
      var i := EventAt(before, after, changes, p);
      assert i in (if before[p].size != after[p].size then z else m) && PathAt(changes[i].event, false) == p;
    }
  }

  /** The renames of files with one and the same size, time and root. */
  function RenamesWith(before: Snapshot, changes: seq<Change>, keys: set<FileState>): set<int> {
    set i | 0 <= i < |changes| && changes[i].event.Rename? && changes[i].event.oldPath in before &&
            before[changes[i].event.oldPath] in keys
  }

  function Min(a: nat, b: nat): nat {
    if a < b then a else b
  }

  /** Files can be paired off at most as often as both sides have them ... */
  lemma RenamesAtMost(before: Snapshot, after: Snapshot, changes: seq<Change>, key: FileState)
    requires Describes(before, after, changes)
    ensures |RenamesWith(before, changes, {key})| <= |GoneWith(before, after, key)|
    ensures |RenamesWith(before, changes, {key})| <= |GoneWith(after, before, key)|
    ensures PathsAt(changes, RenamesWith(before, changes, {key}), true) <= GoneWith(before, after, key)
    ensures PathsAt(changes, RenamesWith(before, changes, {key}), false) <= GoneWith(after, before, key)
  {
    hide Apart, Covered;
    var s := RenamesWith(before, changes, {key});
    forall i | i in s
      ensures PathAt(changes[i].event, true) in GoneWith(before, after, key)
      ensures PathAt(changes[i].event, false) in GoneWith(after, before, key)
    {
      assert Holds(before, after, changes[i]);
    }
    OnePathEach(changes, s, true);
    OnePathEach(changes, s, false);
    SubsetSize(PathsAt(changes, s, true), GoneWith(before, after, key));
    SubsetSize(PathsAt(changes, s, false), GoneWith(after, before, key));
  }

  lemma {:induction false} SubsetSize<T>(a: set<T>, b: set<T>)
    requires a <= b
    ensures |a| <= |b|
    ensures |a| < |b| ==> exists x :: x in b && x !in a
  {
    assert b == a + (b - a);
    assert |b| == |a| + |b - a|;
    if |a| < |b| {
      assert b - a != {};
      var x :| x in b - a;
    }
  }

  /** ... and the greedy search does pair them off that often. */
  lemma GreedyPairsAll(before: Snapshot, after: Snapshot, changes: seq<Change>, key: FileState)
    requires Describes(before, after, changes) && MatchedOut(before, after, changes)
    ensures |RenamesWith(before, changes, {key})| == Min(|GoneWith(before, after, key)|, |GoneWith(after, before, key)|)
  {
    hide Apart, Covered;
    var s := RenamesWith(before, changes, {key});
    RenamesAtMost(before, after, changes, key);
    OnePathEach(changes, s, true);
    OnePathEach(changes, s, false);
    if |s| < |GoneWith(before, after, key)| && |s| < |GoneWith(after, before, key)| {
      SubsetSize(PathsAt(changes, s, true), GoneWith(before, after, key));
      SubsetSize(PathsAt(changes, s, false), GoneWith(after, before, key));
      var p :| p in GoneWith(before, after, key) && p !in PathsAt(changes, s, true);
      var q :| q in GoneWith(after, before, key) && q !in PathsAt(changes, s, false);
      var i := EventAt(before, after, changes, p);
      var j := EventAt(before, after, changes, q);
      UnpairedMeetUnpaired(before, after, changes, key, p, q, i, j);
    }
  }

  /** A deletion and a creation of like files are never both left over. */
  lemma UnpairedMeetUnpaired(before: Snapshot, after: Snapshot, changes: seq<Change>, key: FileState, p: FilePath,
                             q: FilePath, i: nat, j: nat)
    requires i < |changes| && Holds(before, after, changes[i]) && p == PathAt(changes[i].event, true)
    requires j < |changes| && Holds(before, after, changes[j]) && q == PathAt(changes[j].event, false)
    requires p in GoneWith(before, after, key) && q in GoneWith(after, before, key)
    requires MatchedOut(before, after, changes)
    ensures p in PathsAt(changes, RenamesWith(before, changes, {key}), true) ||
            q in PathsAt(changes, RenamesWith(before, changes, {key}), false)
  {
    if changes[i].event.Rename? {
      assert i in RenamesWith(before, changes, {key});
    }
    if changes[j].event.Rename? {
      assert j in RenamesWith(before, changes, {key});
    }
  }

  /** The sum, over size, time and root, of how many files of that description can be paired off. */
  ghost function Pairable(before: Snapshot, after: Snapshot, keys: set<FileState>): nat {
    if keys == {} then 0 else
      var key :| key in keys;
      Min(|GoneWith(before, after, key)|, |GoneWith(after, before, key)|) + Pairable(before, after, keys - {key})
  }

  function Keys(before: Snapshot): set<FileState> {
    set p | p in before :: before[p]
  }

  lemma SplitRenames(before: Snapshot, changes: seq<Change>, keys: set<FileState>, key: FileState)
    requires key in keys
    ensures |RenamesWith(before, changes, keys)| ==
            |RenamesWith(before, changes, {key})| + |RenamesWith(before, changes, keys - {key})|
  {
    var a, b := RenamesWith(before, changes, {key}), RenamesWith(before, changes, keys - {key});
    assert RenamesWith(before, changes, keys) == a + b && a !! b;
  }

  lemma {:induction false} RenamesSum(before: Snapshot, after: Snapshot, changes: seq<Change>, keys: set<FileState>)
    requires Describes(before, after, changes)
    ensures |RenamesWith(before, changes, keys)| <= Pairable(before, after, keys)
    ensures MatchedOut(before, after, changes) ==> |RenamesWith(before, changes, keys)| == Pairable(before, after, keys)
  {
    hide Describes, MatchedOut, GoneWith;
    if keys != {} {
      var key :| key in keys && Pairable(before, after, keys) ==
        Min(|GoneWith(before, after, key)|, |GoneWith(after, before, key)|) + Pairable(before, after, keys - {key});
      SplitRenames(before, changes, keys, key);
      RenamesAtMost(before, after, changes, key);
      assert |RenamesWith(before, changes, {key})| <=
             Min(|GoneWith(before, after, key)|, |GoneWith(after, before, key)|);
      RenamesSum(before, after, changes, keys - {key});
      if MatchedOut(before, after, changes) {
        GreedyPairsAll(before, after, changes, key);
      }
    } else {
      assert RenamesWith(before, changes, keys) == {};
    }
  }

  /** Greedy matching is maximum: no correct account of the same change has more renames, and the number is the sum
      over descriptions of the smaller side. */
  lemma GreedyIsMaximum(before: Snapshot, after: Snapshot, greedy: seq<Change>, other: seq<Change>)
    requires Describes(before, after, greedy) && MatchedOut(before, after, greedy) && Describes(before, after, other)
    ensures Count(greedy, RENAME) == Pairable(before, after, Keys(before))
    ensures Count(other, RENAME) <= Count(greedy, RENAME)
  {
    hide MatchedOut;
    RenamesSum(before, after, greedy, Keys(before));
    RenamesSum(before, after, other, Keys(before));
    AllRenames(before, after, greedy);
    AllRenames(before, after, other);
  }

  lemma AllRenames(before: Snapshot, after: Snapshot, changes: seq<Change>)
    requires Describes(before, after, changes)
    ensures Those(changes, {RENAME}) == RenamesWith(before, changes, Keys(before))
  {
    hide Apart, Covered;
    forall i | 0 <= i < |changes| && changes[i].event.Rename?
      ensures changes[i].event.oldPath in before && before[changes[i].event.oldPath] in Keys(before)
    {
      assert Holds(before, after, changes[i]);
    }
  }

  lemma SplitThose(changes: seq<Change>, a: Kind, b: Kind)
    requires a != b
    ensures |Those(changes, {a, b})| == Count(changes, a) + Count(changes, b)
  {
    assert Those(changes, {a, b}) == Those(changes, {a}) + Those(changes, {b});
    assert Those(changes, {a}) !! Those(changes, {b});
  }

  /** How many events of each kind there are does not depend on the order the maps are iterated in. */
  lemma CountsAreOrderFree(before: Snapshot, after: Snapshot, one: seq<Change>, two: seq<Change>)
    requires Describes(before, after, one) && MatchedOut(before, after, one)
    requires Describes(before, after, two) && MatchedOut(before, after, two)
    ensures forall kind :: Count(one, kind) == Count(two, kind)
  {
    hide MatchedOut;
    GreedyIsMaximum(before, after, one, two);
    GreedyIsMaximum(before, after, two, one);
    CountsOf(before, after, one);
    CountsOf(before, after, two);
    forall kind
      ensures Count(one, kind) == Count(two, kind)
    {
      match kind
      case CREATE =>
      case DELETE =>
      case RENAME =>
      case SIZE_CHANGE =>
      case MODIFY =>
    }
  }

  lemma CountsOf(before: Snapshot, after: Snapshot, changes: seq<Change>)
    requires Describes(before, after, changes)
    ensures Count(changes, DELETE) + Count(changes, RENAME) == |GoneFiles(before, after)|
    ensures Count(changes, CREATE) + Count(changes, RENAME) == |GoneFiles(after, before)|
    ensures Count(changes, SIZE_CHANGE) ==
              |set p | p in before && p in after && before[p].size != after[p].size|
    ensures Count(changes, MODIFY) ==
              |set p | p in before && p in after && before[p].size == after[p].size &&
                       before[p].modified != after[p].modified|
  {
    DeletedAndCreated(before, after, changes);
    ModifiedAndResized(before, after, changes);
    hide Covered;
    SplitThose(changes, DELETE, RENAME);
    SplitThose(changes, CREATE, RENAME);
    OnePathEach(changes, Those(changes, {DELETE, RENAME}), true);
    OnePathEach(changes, Those(changes, {CREATE, RENAME}), false);
    OnePathEach(changes, Those(changes, {SIZE_CHANGE}), false);
    OnePathEach(changes, Those(changes, {MODIFY}), false);
  }

  // Replaying events.

  type Sizes = map<FilePath, int>

  function SizesOf(s: Snapshot): (m: Sizes)
    ensures forall p :: p in m <==> p in s
    ensures forall p | p in m :: m[p] == s[p].size
  {
    map p | p in s :: s[p].size
  }

  function Lookup(m: Sizes, p: FilePath): Option<int> {
    if p in m then Some(m[p]) else None
  }

  /** What a reader of the log does with one event. */
  function ApplyEvent(m: Sizes, e: Event): Sizes {
    match e
    case Create(p, size) => m[p := size]
    case Delete(p, _) => map q | q in m && q != p :: m[q]
    case Rename(o, p, size) => (map q | q in m && q != o :: m[q])[p := size]
    case SizeChange(p, size) => m[p := size]
    case Modify(p, size) => m[p := size]
  }

  function Replay(m: Sizes, changes: seq<Change>): Sizes {
    if changes == [] then m else ApplyEvent(Replay(m, changes[..|changes| - 1]), changes[|changes| - 1].event)
  }

  /** What an event says about a path it touches. */
  function Says(e: Event, p: FilePath): Option<int> {
    if e.Delete? || (e.Rename? && p != e.path) then None else Some(e.size)
  }

  lemma ApplyAt(m: Sizes, e: Event, p: FilePath)
    ensures Lookup(ApplyEvent(m, e), p) == if p in Touches(e) then Says(e, p) else Lookup(m, p)
  {
  }

  lemma {:induction false} ReplayAt(m: Sizes, changes: seq<Change>, p: FilePath)
    requires Apart(changes)
    ensures !Covered(changes, p) ==> Lookup(Replay(m, changes), p) == Lookup(m, p)
    ensures forall i | 0 <= i < |changes| && p in Touches(changes[i].event) ::
              Lookup(Replay(m, changes), p) == Says(changes[i].event, p)
  {
    if changes != [] {
      var n := |changes| - 1;
      var before, last := changes[..n], changes[n];
      assert Apart(before) by {
        forall i, j | 0 <= i < j < n
          ensures Touches(before[i].event) !! Touches(before[j].event)
        {
          assert Touches(changes[i].event) !! Touches(changes[j].event);
        }
      }
      ReplayAt(m, before, p);
      ApplyAt(Replay(m, before), last.event, p);
      hide ApplyEvent, Lookup;
      if p in Touches(last.event) {
        assert Covered(changes, p);
        forall i | 0 <= i < n
          ensures p !in Touches(changes[i].event)
        {
          assert Touches(changes[i].event) !! Touches(changes[n].event);
        }
      } else {
        assert Covered(before, p) ==> Covered(changes, p) by {
          if i :| 0 <= i < |before| && p in Touches(before[i].event) {
            assert p in Touches(changes[i].event);
          }
        }
        forall i | 0 <= i < |changes| && p in Touches(changes[i].event)
          ensures Lookup(Replay(m, changes), p) == Says(changes[i].event, p)
        {
          assert before[i] == changes[i];
        }
      }
    }
  }

  /** Replaying a correct account on the old sizes gives the new ones. */
  lemma ReplayReachesAfter(before: Snapshot, after: Snapshot, changes: seq<Change>)
    requires Describes(before, after, changes)
    ensures Replay(SizesOf(before), changes) == SizesOf(after)
  {
    forall p
      ensures Lookup(Replay(SizesOf(before), changes), p) == Lookup(SizesOf(after), p)
    {
      ReplayAt(SizesOf(before), changes, p);
      if Covered(changes, p) {
        var i := EventAt(before, after, changes, p);
      }
    }
    SameLookups(Replay(SizesOf(before), changes), SizesOf(after));
  }

  lemma SameLookups(a: Sizes, b: Sizes)
    requires forall p :: Lookup(a, p) == Lookup(b, p)
    ensures a == b
  {
    forall p
      ensures p in a <==> p in b
      ensures p in a ==> a[p] == b[p]
    {
      assert Lookup(a, p) == Lookup(b, p);
    }
  }

  lemma {:induction false} TwiceInMultiset<T>(s: seq<T>, i: nat, j: nat)
    requires i < j < |s| && s[i] == s[j]
    ensures multiset(s)[s[i]] >= 2
  {
    assert s == s[..j] + [s[j]] + s[j + 1..];
    assert multiset(s) == multiset(s[..j]) + multiset{s[j]} + multiset(s[j + 1..]);
    assert s[..j][i] in multiset(s[..j]);
  }

  lemma {:induction false} TwiceInSequence<T>(s: seq<T>, x: T)
    requires multiset(s)[x] >= 2
    ensures exists i, j :: 0 <= i < j < |s| && s[i] == x && s[j] == x
  {
    assert x in multiset(s);
    var i :| 0 <= i < |s| && s[i] == x;
    assert s == s[..i] + [s[i]] + s[i + 1..];
    assert multiset(s) == multiset(s[..i]) + multiset{x} + multiset(s[i + 1..]);
    if x in s[..i] {
      var k :| 0 <= k < i && s[k] == x;
    } else {
      assert x in multiset(s[i + 1..]);
      var k :| 0 <= k < |s[i + 1..]| && s[i + 1..][k] == x;
      assert s[i + 1 + k] == x;
    }
  }

  /** An account stays correct in any order ... */
  lemma ReorderedDescribes(before: Snapshot, after: Snapshot, changes: seq<Change>, reordered: seq<Change>)
    requires Describes(before, after, changes) && multiset(changes) == multiset(reordered)
    ensures Describes(before, after, reordered)
  {
    hide Holds;
    forall i, j | 0 <= i < j < |reordered|
      ensures Touches(reordered[i].event) !! Touches(reordered[j].event)
    {
      ApartWhereverTheyAre(changes, reordered, i, j);
    }
    forall i | 0 <= i < |reordered|
      ensures Holds(before, after, reordered[i])
    {
      assert reordered[i] in multiset(changes);
    }
    forall p
      ensures Covered(reordered, p) <==> Covered(changes, p)
    {
      CoveredAlike(changes, reordered, p);
      CoveredAlike(reordered, changes, p);
    }
  }

  lemma CoveredAlike(a: seq<Change>, b: seq<Change>, p: FilePath)
    requires multiset(a) == multiset(b)
    ensures Covered(a, p) ==> Covered(b, p)
  {
    if i :| 0 <= i < |a| && p in Touches(a[i].event) {
      assert a[i] in multiset(b);
      var j :| 0 <= j < |b| && b[j] == a[i];
      assert p in Touches(b[j].event);
    }
  }

  lemma ApartWhereverTheyAre(changes: seq<Change>, reordered: seq<Change>, i: nat, j: nat)
    requires Apart(changes) && multiset(changes) == multiset(reordered) && i < j < |reordered|
    ensures Touches(reordered[i].event) !! Touches(reordered[j].event)
  {
    var x, y := reordered[i], reordered[j];
    if x == y {
      TwiceInMultiset(reordered, i, j);
      TwiceInSequence(changes, x);
      var m, n :| 0 <= m < n < |changes| && changes[m] == x && changes[n] == x;
      assert Touches(changes[m].event) !! Touches(changes[n].event);
    } else {
      assert x in multiset(changes) && y in multiset(changes);
      var m :| 0 <= m < |changes| && changes[m] == x;
      var n :| 0 <= n < |changes| && changes[n] == y;
      assert Touches(changes[if m < n then m else n].event) !! Touches(changes[if m < n then n else m].event);
    }
  }

  /** ... so the events of one poll may be replayed in any order. */
  lemma ReplayInAnyOrder(before: Snapshot, after: Snapshot, changes: seq<Change>, reordered: seq<Change>)
    requires Describes(before, after, changes) && multiset(changes) == multiset(reordered)
    ensures Replay(SizesOf(before), reordered) == SizesOf(after)
  {
    hide Describes, Replay;
    ReorderedDescribes(before, after, changes, reordered);
    ReplayReachesAfter(before, after, reordered);
  }

  // The poll loop.

  lemma {:induction false} ReplayConcat(m: Sizes, a: seq<Change>, b: seq<Change>)
    ensures Replay(m, a + b) == Replay(Replay(m, a), b)
  {
    hide ApplyEvent;
    if b == [] {
      assert a + b == a;
    } else {
      var n := |b| - 1;
      assert (a + b)[..|a + b| - 1] == a + b[..n] && (a + b)[|a + b| - 1] == b[n];
      ReplayConcat(m, a, b[..n]);
    }
  }

  /** Two snapshots a diff finds no difference between. */
  ghost predicate SameFiles(a: Snapshot, b: Snapshot) {
    forall p :: !Gone(a, b, p) && !Gone(b, a, p) && !Changed(a, b, p)
  }

  lemma NoChangesMeansSame(before: Snapshot, after: Snapshot)
    requires Describes(before, after, [])
    ensures SameFiles(before, after) && SizesOf(before) == SizesOf(after)
  {
    forall p
      ensures !Gone(before, after, p) && !Gone(after, before, p) && !Changed(before, after, p)
    {
      assert !Covered([], p);
    }
    forall p
      ensures Lookup(SizesOf(before), p) == Lookup(SizesOf(after), p)
    {
      assert !Gone(before, after, p) && !Gone(after, before, p) && !Changed(before, after, p);
    }
    SameLookups(SizesOf(before), SizesOf(after));
  }

  /** runDaemon, as far as snapshots and file events go: its state between polls. */
  class Daemon {
    var previous: Snapshot
    var log: seq<Change>
    ghost const first: Snapshot

    /** The first snapshot counts even when it failed half way. */
    constructor (initial: Snapshot)
      ensures Valid() && first == initial && previous == initial && log == []
    {
      previous, log, first := initial, [], initial;
    }

    /** All events logged since the start replay from the first snapshot to the one diffs are taken against. */
    ghost predicate Valid()
      reads this
    {
      Replay(SizesOf(first), log) == SizesOf(previous)
    }

    /** One tick. A failed snapshot changes nothing; a successful one leaves the log telling its files. */
    method Poll(current: Option<Snapshot>) returns (rescanned: set<string>)
      requires Valid()
      modifies this
      ensures Valid() && old(log) <= log
      ensures current.None? ==> previous == old(previous) && log == old(log) && rescanned == {}
      ensures current.Some? ==>
                previous == (if log == old(log) then old(previous) else current.value) &&
                SameFiles(previous, current.value) && SizesOf(previous) == SizesOf(current.value) &&
                Describes(old(previous), current.value, log[|old(log)|..]) &&
                MatchedOut(old(previous), current.value, log[|old(log)|..]) &&
                rescanned == RootsIn(log[|old(log)|..])
    {
      rescanned := {};
      if current.None? {
        return;
      }
      var changes := Diff(previous, current.value);
      hide Replay, Describes, SameFiles, MatchedOut;
      if |changes| > 0 {
        rescanned := Append(changes);
        ReplayConcat(SizesOf(first), old(log), changes);
        ReplayReachesAfter(previous, current.value, changes);
        previous := current.value;
        SameAsItself(previous);
        assert log[|old(log)|..] == changes;
      } else {
        NoChangesMeansSame(previous, current.value);
        assert log[|old(log)|..] == changes;
      }
    }

    /** Writes the changes to the event log and collects the roots to scan again. */
    method Append(changes: seq<Change>) returns (changedRoots: set<string>)
      modifies `log
      ensures log == old(log) + changes
      ensures changedRoots == RootsIn(changes)
    {
      changedRoots := {};
      for i := 0 to |changes|
        invariant log == old(log) + changes[..i]
        invariant changedRoots == RootsIn(changes[..i])
      {
        assert changes[..i + 1] == changes[..i] + [changes[i]];
        RootsOfOneMore(changes[..i], changes[i]);
        changedRoots := changedRoots + {changes[i].root};
        log := log + [changes[i]];
      }
      assert changes[..|changes|] == changes;
    }
  }

  function RootsIn(changes: seq<Change>): set<string> {
    set i | 0 <= i < |changes| :: changes[i].root
  }

  lemma RootsOfOneMore(changes: seq<Change>, c: Change)
    ensures RootsIn(changes + [c]) == RootsIn(changes) + {c.root}
  {
    var all := changes + [c];
    assert all[|changes|] == c;
    forall r | r in RootsIn(changes)
      ensures r in RootsIn(all)
    {
      var i :| 0 <= i < |changes| && changes[i].root == r;
      assert all[i].root == r;
    }
  }

  lemma SameAsItself(a: Snapshot)
    ensures SameFiles(a, a)
  {
  }

  /** The log of a run of polls is made of one account for each poll that worked, against the last snapshot that brought
      any change. */
  ghost predicate Accounts(first: Snapshot, polls: seq<Option<Snapshot>>, log: seq<Change>, previous: Snapshot)
    decreases |polls|, 0
  {
    if polls == [] then log == [] && previous == first
    else AccountsAnd(first, polls[..|polls| - 1], polls[|polls| - 1], log, previous)
  }

  ghost predicate AccountsAnd(first: Snapshot, polls: seq<Option<Snapshot>>, poll: Option<Snapshot>, log: seq<Change>,
                              previous: Snapshot)
    decreases |polls|, 1
  {
    exists logged, before ::
      Accounts(first, polls, logged, before) && logged <= log && Accounted(before, poll, log[|logged|..], previous)
  }

  ghost predicate Accounted(before: Snapshot, poll: Option<Snapshot>, changes: seq<Change>, previous: Snapshot) {
    match poll
    case None => changes == [] && previous == before
    case Some(current) =>
      Describes(before, current, changes) && MatchedOut(before, current, changes) &&
      previous == if changes == [] then before else current
  }

  lemma OneMoreAccount(first: Snapshot, polls: seq<Option<Snapshot>>, log: seq<Change>, before: Snapshot,
                       poll: Option<Snapshot>, log': seq<Change>, previous: Snapshot)
    requires Accounts(first, polls, log, before) && log <= log' && Accounted(before, poll, log'[|log|..], previous)
    ensures Accounts(first, polls + [poll], log', previous)
  {
    hide Accounted;
    var all := polls + [poll];
    assert all[..|all| - 1] == polls;
  }

  /** The file was in this snapshot, under this root. */
  ghost predicate WasUnder(s: Snapshot, p: FilePath, root: string) {
    p in s && s[p].root == root
  }

  /** The root an event is filed under is the one its file had in a snapshot that was taken. */
  lemma {:induction false} FiledUnderItsRoot(first: Snapshot, polls: seq<Option<Snapshot>>, log: seq<Change>,
                                             previous: Snapshot, i: nat)
    requires Accounts(first, polls, log, previous) && i < |log|
    ensures exists s, p :: (s == first || Some(s) in polls) && p in Touches(log[i].event) && WasUnder(s, p, log[i].root)
  {
    var earlier, poll := polls[..|polls| - 1], polls[|polls| - 1];
    assert AccountsAnd(first, earlier, poll, log, previous);
    var logged, before :|
      Accounts(first, earlier, logged, before) && logged <= log && Accounted(before, poll, log[|logged|..], previous);
    assert forall x | x in earlier :: x in polls;
    if i < |logged| {
      FiledUnderItsRoot(first, earlier, logged, before, i);
    } else {
      hide Accounts, Describes, MatchedOut;
      var n := |logged|;
      assert log[n..][i - n] == log[i] && poll.Some? && poll in polls;
      PreviousWasTaken(first, earlier, logged, before);
      HoldsUnderRoot(before, poll.value, log[n..], i - n);
    }
  }

  lemma {:induction false} PreviousWasTaken(first: Snapshot, polls: seq<Option<Snapshot>>, log: seq<Change>,
                                            previous: Snapshot)
    requires Accounts(first, polls, log, previous)
    ensures previous == first || Some(previous) in polls
  {
    hide Describes, MatchedOut;
    if polls != [] {
      var earlier, poll := polls[..|polls| - 1], polls[|polls| - 1];
      assert AccountsAnd(first, earlier, poll, log, previous);
      var logged, before :|
        Accounts(first, earlier, logged, before) && logged <= log && Accounted(before, poll, log[|logged|..], previous);
      PreviousWasTaken(first, earlier, logged, before);
    }
  }

  lemma HoldsUnderRoot(before: Snapshot, after: Snapshot, changes: seq<Change>, i: nat)
    requires Describes(before, after, changes) && i < |changes|
    ensures exists p :: p in Touches(changes[i].event) &&
              (WasUnder(before, p, changes[i].root) || WasUnder(after, p, changes[i].root))
  {
    assert Holds(before, after, changes[i]);
    var e := changes[i].event;
    var p := if e.Rename? then e.oldPath else e.path;
    assert p in Touches(e);
  }

  /** Any run of polls, failed ones included: the log always tells the files of the latest snapshot that worked. */
  method RunDaemon(first: Snapshot, polls: seq<Option<Snapshot>>) returns (daemon: Daemon)
    ensures daemon.first == first && Replay(SizesOf(first), daemon.log) == SizesOf(daemon.previous)
    ensures SizesOf(daemon.previous) == SizesOf(Latest(first, polls))
    ensures Accounts(first, polls, daemon.log, daemon.previous)
  {
    hide Replay, Describes, MatchedOut, SameFiles;
    daemon := new Daemon(first);
    assert polls[..0] == [];
    for i := 0 to |polls|
      invariant daemon.Valid() && daemon.first == first
      invariant SizesOf(daemon.previous) == SizesOf(Latest(first, polls[..i]))
      invariant Accounts(first, polls[..i], daemon.log, daemon.previous)
    {
      assert polls[..i + 1] == polls[..i] + [polls[i]];
      assert polls[..i + 1][..i] == polls[..i];
      ghost var log, before := daemon.log, daemon.previous;
      var _ := daemon.Poll(polls[i]);
      assert Accounted(before, polls[i], daemon.log[|log|..], daemon.previous);
      OneMoreAccount(first, polls[..i], log, before, polls[i], daemon.log, daemon.previous);
    }
    assert polls[..|polls|] == polls;
  }

  function Latest(first: Snapshot, polls: seq<Option<Snapshot>>): Snapshot {
    if polls == [] then first
    else match polls[|polls| - 1]
      case Some(s) => s
      case None => Latest(first, polls[..|polls| - 1])
  }
}

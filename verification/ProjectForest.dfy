/** internal/output/projects.go: project rows nested by containment. */
module ProjectForest {
  import opened Wrappers
  import opened Paths

  /** The normalized paths of the rows, in display order; None where a path does not normalize. */
  type Rows = seq<Option<Path>>

  /** The number of separators in an absolute path: the root has one, like the paths just below it. */
  function Depth(p: Path): nat {
    if p == [] then 1 else |p|
  }

  /** Row j lies strictly above row i. */
  predicate Encloses(rows: Rows, i: nat, j: nat)
    requires i < |rows| && j < |rows|
  {
    rows[i].Some? && rows[j].Some? && ProperlyInside(rows[i].value, rows[j].value)
  }

  function RowDepth(rows: Rows, j: nat): nat
    requires j < |rows|
  {
    if rows[j].None? then 0 else Depth(rows[j].value)
  }

  function Length(rows: Rows, j: nat): nat
    requires j < |rows|
  {
    if rows[j].None? then 0 else |rows[j].value|
  }

  /** Among the first n rows, the one with most separators that encloses row i, and of several the first. */
  function Nearest(rows: Rows, i: nat, n: nat): (best: Option<nat>)
    requires i < |rows| && n <= |rows|
    ensures best.Some? ==> best.value < n && Encloses(rows, i, best.value)
  {
    if n == 0 then None else
      var best := Nearest(rows, i, n - 1);
      if Encloses(rows, i, n - 1) && (best.None? || RowDepth(rows, n - 1) > RowDepth(rows, best.value)) then Some(n - 1)
      else best
  }

  /** The nearest row is enclosing, deepest by separators and first among its equals; none is found only where no row
      encloses. */
  lemma {:induction false} NearestMeans(rows: Rows, i: nat, n: nat)
    requires i < |rows| && n <= |rows|
    ensures match Nearest(rows, i, n)
            case None => forall j | 0 <= j < n :: !Encloses(rows, i, j)
            case Some(p) => forall j | 0 <= j < n && Encloses(rows, i, j) ::
              RowDepth(rows, j) <= RowDepth(rows, p) && (RowDepth(rows, j) == RowDepth(rows, p) ==> p <= j)
  {
    hide Encloses, RowDepth;
    if n > 0 {
      NearestMeans(rows, i, n - 1);
    }
  }

  function Parent(rows: Rows, i: nat): (p: Option<nat>)
    requires i < |rows|
    ensures p.Some? ==> p.value < |rows| && Length(rows, p.value) < Length(rows, i)
  {
    Nearest(rows, i, |rows|)
  }

  lemma PrefixIsProper(path: Path, parent: Path)
    ensures ProperlyInside(path, parent) <==> SameOrChild(path, parent) && path != parent
  {
    if SameOrChild(path, parent) && |path| == |parent| {
      assert path == path[..|parent|];
    }
  }

  method NearestEnclosingProject(rows: Rows, i: nat) returns (best: int)
    requires i < |rows|
    ensures match Parent(rows, i) case None => best == -1 case Some(p) => best == p
  {
    best := -1;
    var bestDepth: int := -1;
    for j := 0 to |rows|
      invariant match Nearest(rows, i, j)
                case None => best == -1 && bestDepth == -1
                case Some(p) => best == p && bestDepth == RowDepth(rows, p)
    {
      assert Encloses(rows, i, j) <==>
          rows[i].Some? && rows[j].Some? && rows[j] != rows[i] && SameOrChild(rows[i].value, rows[j].value) by {
        if rows[i].Some? && rows[j].Some? {
          PrefixIsProper(rows[i].value, rows[j].value);
        }
      }
      if i == j || rows[j].None? || rows[j] == rows[i] {
        continue;
      }
      if rows[i].None? || !SameOrChild(rows[i].value, rows[j].value) {
        continue;
      }
      var depth := Depth(rows[j].value);
      if depth > bestDepth {
        best, bestDepth := j, depth;
      }
    }
  }

  ghost predicate DeepestParent(rows: Rows, i: nat)
    requires i < |rows|
  {
    match Parent(rows, i)
    case None => true
    case Some(p) => forall j | 0 <= j < |rows| && Encloses(rows, i, j) :: Length(rows, j) <= Length(rows, p)
  }

  /** A row for the filesystem root comes before every enclosing row just below the root, and there are such rows but
      none deeper. */
  ghost predicate RootComesFirst(rows: Rows, i: nat)
    requires i < |rows|
  {
    (exists r | 0 <= r < |rows| :: Encloses(rows, i, r) && Length(rows, r) == 0 &&
       forall j | 0 <= j < r :: !(Encloses(rows, i, j) && Length(rows, j) == 1)) &&
    (exists j | 0 <= j < |rows| :: Encloses(rows, i, j) && Length(rows, j) == 1) &&
    (forall j | 0 <= j < |rows| && Encloses(rows, i, j) :: Length(rows, j) <= 1)
  }

  /** Every row hangs below its deepest proper ancestor among the rows, except where the filesystem root comes first:
      it counts as deep as what lies just below it. */
  lemma ParentIsDeepestExactlyWhen(rows: Rows, i: nat)
    requires i < |rows|
    ensures DeepestParent(rows, i) <==> !RootComesFirst(rows, i)
  {
    NearestMeans(rows, i, |rows|);
    match Parent(rows, i)
    case None =>
    case Some(p) =>
      if Length(rows, p) == 0 {
        forall j | 0 <= j < |rows| && Encloses(rows, i, j)
          ensures Length(rows, j) <= 1 && (Length(rows, j) == 1 ==> p <= j)
        {
          assert RowDepth(rows, j) <= RowDepth(rows, p);
        }
      } else {
        assert forall j | 0 <= j < |rows| && Encloses(rows, i, j) :: RowDepth(rows, j) <= RowDepth(rows, p);
        assert forall r | 0 <= r < |rows| && Encloses(rows, i, r) && Length(rows, r) == 0 ::
            RowDepth(rows, r) == RowDepth(rows, p) ==> p < r;
      }
  }

  lemma WithoutRootRowsParentIsDeepest(rows: Rows, i: nat)
    requires i < |rows| && Some([]) !in rows
    ensures DeepestParent(rows, i)
  {
    ParentIsDeepestExactlyWhen(rows, i);
    assert forall r | 0 <= r < |rows| :: rows[r] in rows;
  }

  lemma RootBeforeItsChild()
    ensures var rows := [Some([]), Some(["a"]), Some(["a", "b"])]; Parent(rows, 2) == Some(0) && Encloses(rows, 2, 1)
  {
    var rows := [Some([]), Some(["a"]), Some(["a", "b"])];
    assert ["a", "b"][..1] == ["a"];
    assert Encloses(rows, 2, 0) && Encloses(rows, 2, 1);
    assert RowDepth(rows, 0) == 1 && RowDepth(rows, 1) == 1;
    NearestMeans(rows, 2, 3);
  }

  /** Which path the parent has is settled by the paths alone: the deepest enclosing rows all have one path. */
  lemma DeepestEnclosingIsOnePath(rows: Rows, i: nat, a: nat, b: nat)
    requires i < |rows| && a < |rows| && b < |rows| && Encloses(rows, i, a) && Encloses(rows, i, b)
    requires Length(rows, a) == Length(rows, b)
    ensures rows[a] == rows[b]
  {
    AncestorsFormAChain(rows[i].value, rows[a].value, rows[b].value);
  }

  predicate AllBelow(rows: Rows, these: seq<nat>, above: int) {
    forall k | 0 <= k < |these| :: these[k] < |rows| && above < Length(rows, these[k])
  }

  predicate Ascending(s: seq<nat>) {
    forall a, b | 0 <= a < b < |s| :: s[a] < s[b]
  }

  /** How deep the rows under a parent are at least; the roots have no parent. */
  function Level(rows: Rows, parent: Option<nat>): int
    requires parent.Some? ==> parent.value < |rows|
  {
    match parent case None => -1 case Some(p) => Length(rows, p)
  }

  /** Of the first n rows, those with this parent, in order. */
  function Under(rows: Rows, parent: Option<nat>, n: nat): (r: seq<nat>)
    requires n <= |rows| && (parent.Some? ==> parent.value < |rows|)
    ensures IsUnder(rows, parent, n, r)
  {
    if n == 0 then [] else
      var before := Under(rows, parent, n - 1);
      var r := before + if Parent(rows, n - 1) == parent then [n - 1] else [];
      UnderNext(rows, parent, n - 1, before, r);
      r
  }

  ghost predicate IsUnder(rows: Rows, parent: Option<nat>, n: nat, r: seq<nat>)
    requires n <= |rows| && (parent.Some? ==> parent.value < |rows|)
  {
    (forall c: nat :: c in r <==> c < n && Parent(rows, c) == parent) && Ascending(r) &&
    AllBelow(rows, r, Level(rows, parent))
  }

  lemma UnderNext(rows: Rows, parent: Option<nat>, n: nat, before: seq<nat>, r: seq<nat>)
    requires n < |rows| && (parent.Some? ==> parent.value < |rows|) && IsUnder(rows, parent, n, before)
    requires r == before + if Parent(rows, n) == parent then [n] else []
    ensures IsUnder(rows, parent, n + 1, r)
  {
    if Parent(rows, n) == parent {
      assert Level(rows, parent) < Length(rows, n);
      hide Parent, Length, Level;
      forall c: nat
        ensures c in r <==> c < n + 1 && Parent(rows, c) == parent
      {
        assert c in r <==> c in before || c == n;
      }
      assert forall k | 0 <= k < |before| :: before[k] in before;
    }
  }

  class TreeNode {
    const line: nat
    var children: seq<TreeNode>

    constructor (line: nat)
      ensures this.line == line && children == []
    {
      this.line := line;
      children := [];
    }
  }

  function Pick(nodes: seq<TreeNode>, at: seq<nat>): (r: seq<TreeNode>)
    requires forall k | 0 <= k < |at| :: at[k] < |nodes|
    ensures |r| == |at| && forall i | 0 <= i < |r| :: r[i] == nodes[at[i]]
  {
    seq(|at|, i requires 0 <= i < |at| => nodes[at[i]])
  }

  ghost predicate OneEach(nodes: seq<TreeNode>, rows: Rows) {
    |nodes| == |rows| && (forall i | 0 <= i < |nodes| :: nodes[i].line == i)
  }

  /** The forest over the first n rows: every node knows the rows below it, in order. */
  ghost predicate Grown(nodes: seq<TreeNode>, rows: Rows, n: nat)
    requires OneEach(nodes, rows) && n <= |rows|
    reads nodes
  {
    forall p: nat | p < |nodes| :: nodes[p].children == Pick(nodes, Under(rows, Some(p), n))
  }

  lemma PickNext(nodes: seq<TreeNode>, rows: Rows, p: Option<nat>, i: nat)
    requires i < |rows| == |nodes| && (p.Some? ==> p.value < |rows|)
    ensures Pick(nodes, Under(rows, p, i + 1)) ==
              Pick(nodes, Under(rows, p, i)) + if Parent(rows, i) == p then [nodes[i]] else []
  {
    hide Parent;
  }

  method BuildProjectForest(rows: Rows) returns (roots: seq<TreeNode>, ghost nodes: seq<TreeNode>)
    ensures OneEach(nodes, rows) && fresh(nodes)
    ensures Grown(nodes, rows, |rows|) && roots == Pick(nodes, Under(rows, None, |rows|))
  {
    hide Parent, Under, Pick, Grown, Knows, ChildrenOf, Ascending;
    var all := MakeNodes(rows);
    nodes, roots := all, [];
    for i := 0 to |rows|
      invariant OneEach(all, rows) && fresh(all) && Grown(all, rows, i)
      invariant roots == Pick(all, Under(rows, None, i))
    {
      var parent := NearestEnclosingProject(rows, i);
      PickNext(all, rows, None, i);
      if parent == -1 {
        GrownWithRoot(all, rows, i);
        roots := roots + [all[i]];
        continue;
      }
      ghost var before := ChildrenOf(all);
      GrownMeans(all, rows, before, i);
      assert forall p | 0 <= p < |all| && p != parent :: all[p].line != all[parent].line;
      all[parent].children := all[parent].children + [all[i]];
      GrownWithChild(all, rows, before, i, parent);
    }
  }

  ghost function ChildrenOf(nodes: seq<TreeNode>): (r: seq<seq<TreeNode>>)
    reads nodes
    ensures |r| == |nodes| && forall p | 0 <= p < |nodes| :: r[p] == nodes[p].children
  {
    if nodes == [] then [] else [nodes[0].children] + ChildrenOf(nodes[1..])
  }

  ghost predicate Knows(nodes: seq<TreeNode>, rows: Rows, children: seq<seq<TreeNode>>, n: nat)
    requires |nodes| == |rows| == |children| && n <= |rows|
  {
    forall p: nat | p < |children| :: children[p] == Pick(nodes, Under(rows, Some(p), n))
  }

  lemma GrownMeans(nodes: seq<TreeNode>, rows: Rows, children: seq<seq<TreeNode>>, n: nat)
    requires OneEach(nodes, rows) && n <= |rows| && Grown(nodes, rows, n) && children == ChildrenOf(nodes)
    ensures Knows(nodes, rows, children, n)
  {
    hide Parent, Under, Pick;
  }

  lemma GrownWithRoot(nodes: seq<TreeNode>, rows: Rows, i: nat)
    requires OneEach(nodes, rows) && i < |rows| && Grown(nodes, rows, i) && Parent(rows, i).None?
    ensures Grown(nodes, rows, i + 1)
  {
    hide Parent, Under, Pick;
    forall p: nat | p < |nodes|
      ensures Pick(nodes, Under(rows, Some(p), i + 1)) == Pick(nodes, Under(rows, Some(p), i))
    {
      PickNext(nodes, rows, Some(p), i);
    }
  }

  lemma GrownWithChild(nodes: seq<TreeNode>, rows: Rows, before: seq<seq<TreeNode>>, i: nat, parent: nat)
    requires OneEach(nodes, rows) && i < |rows| && parent < |nodes| == |before| && Parent(rows, i) == Some(parent)
    requires Knows(nodes, rows, before, i)
    requires forall p | 0 <= p < |nodes| && p != parent :: nodes[p].children == before[p]
    requires nodes[parent].children == before[parent] + [nodes[i]]
    ensures Grown(nodes, rows, i + 1)
  {
    hide Parent, Under, Pick;
    forall p: nat | p < |nodes|
      ensures nodes[p].children == Pick(nodes, Under(rows, Some(p), i + 1))
    {
      PickNext(nodes, rows, Some(p), i);
    }
  }

  method MakeNodes(rows: Rows) returns (nodes: seq<TreeNode>)
    ensures OneEach(nodes, rows) && fresh(nodes) && Grown(nodes, rows, 0)
    ensures Pick(nodes, Under(rows, None, 0)) == []
  {
    nodes := [];
    for i := 0 to |rows|
      invariant |nodes| == i && fresh(nodes)
      invariant forall k | 0 <= k < i :: nodes[k].line == k && nodes[k].children == []
    {
      var node := new TreeNode(i);
      nodes := nodes + [node];
    }
  }

  // Printing.

  function Bound(rows: Rows, n: nat): (b: nat)
    requires n <= |rows|
    ensures forall i | 0 <= i < n :: Length(rows, i) <= b
  {
    if n == 0 then 0 else
      var b := Bound(rows, n - 1);
      if Length(rows, n - 1) > b then Length(rows, n - 1) else b
  }

  /** The rows that are printed for the subtree of row i. */
  function Printed(rows: Rows, i: nat): seq<nat>
    requires i < |rows|
    decreases Bound(rows, |rows|) - Length(rows, i), 1, 0
  {
    [i] + PrintedAll(rows, Under(rows, Some(i), |rows|), Length(rows, i))
  }

  function PrintedAll(rows: Rows, these: seq<nat>, above: int): seq<nat>
    requires above >= -1 && AllBelow(rows, these, above)
    decreases Bound(rows, |rows|) - above, 0, |these|
  {
    if these == [] then [] else Printed(rows, these[0]) + PrintedAll(rows, these[1..], above)
  }

  /** What remains to be printed from position i on completes the whole. */
  ghost predicate Printing(rows: Rows, lines: seq<nat>, these: seq<nat>, i: nat, above: int, whole: seq<nat>)
    requires i <= |these|
  {
    above >= -1 && AllBelow(rows, these, above) && lines + PrintedAll(rows, these[i..], above) == whole
  }

  lemma PrintingNext(rows: Rows, lines: seq<nat>, these: seq<nat>, i: nat, above: int, whole: seq<nat>)
    requires i < |these| && Printing(rows, lines, these, i, above, whole)
    ensures these[i] < |rows| && Printing(rows, lines + Printed(rows, these[i]), these, i + 1, above, whole)
  {
    hide Printed;
    assert these[i..][1..] == these[i + 1..];
  }

  lemma PrintingStarts(rows: Rows, parent: Option<nat>)
    requires parent.Some? ==> parent.value < |rows|
    ensures var these := Under(rows, parent, |rows|);
            Printing(rows, [], these, 0, Level(rows, parent), PrintedAll(rows, these, Level(rows, parent))) &&
            (parent.Some? ==>
               Printing(rows, [parent.value], these, 0, Level(rows, parent), Printed(rows, parent.value)))
  {
    var these := Under(rows, parent, |rows|);
    assert these[0..] == these;
  }

  method WriteProjectTree(node: TreeNode, ghost rows: Rows, ghost nodes: seq<TreeNode>) returns (lines: seq<nat>)
    requires OneEach(nodes, rows) && Grown(nodes, rows, |rows|) && node in nodes
    ensures lines == Printed(rows, node.line)
    decreases Bound(rows, |rows|) - Length(rows, node.line)
  {
    lines := [node.line];
    ghost var below, level := Under(rows, Some(node.line), |rows|), Length(rows, node.line);
    PrintingStarts(rows, Some(node.line));
    hide Printed, Under, Parent, Pick;
    for i := 0 to |node.children|
      invariant Printing(rows, lines, below, i, level, Printed(rows, node.line))
    {
      PrintingNext(rows, lines, below, i, level, Printed(rows, node.line));
      var more := WriteProjectTree(node.children[i], rows, nodes);
      lines := lines + more;
    }
    assert below[|below|..] == [];
  }

  method RenderText(rows: Rows) returns (lines: seq<nat>)
    ensures lines == PrintedAll(rows, Under(rows, None, |rows|), -1)
  {
    hide Printed, Under, Parent, Pick;
    var roots, nodes := BuildProjectForest(rows);
    lines := [];
    ghost var top := Under(rows, None, |rows|);
    ghost var whole := PrintedAll(rows, top, -1);
    PrintingStarts(rows, None);
    for i := 0 to |roots|
      invariant Grown(nodes, rows, |rows|) && Printing(rows, lines, top, i, -1, whole)
    {
      PrintingNext(rows, lines, top, i, -1, whole);
      var more := WriteProjectTree(roots[i], rows, nodes);
      lines := lines + more;
    }
    assert top[|top|..] == [];
  }

  /** Row x is row i, or hangs somewhere below it. */
  predicate InSubtree(rows: Rows, x: nat, i: nat)
    requires x < |rows| && i < |rows|
    decreases Length(rows, x)
  {
    x == i || (Parent(rows, x).Some? && InSubtree(rows, Parent(rows, x).value, i))
  }

  lemma {:induction false} SubtreeGoesDown(rows: Rows, x: nat, i: nat)
    requires x < |rows| && i < |rows| && InSubtree(rows, x, i)
    ensures Length(rows, i) <= Length(rows, x)
    decreases Length(rows, x)
  {
    hide Nearest;
    if x != i {
      SubtreeGoesDown(rows, Parent(rows, x).value, i);
    }
  }

  /** Siblings share nothing. */
  lemma {:induction false} SiblingsAreDisjoint(rows: Rows, x: nat, a: nat, b: nat)
    requires x < |rows| && a < |rows| && b < |rows| && Parent(rows, a) == Parent(rows, b)
    requires InSubtree(rows, x, a) && InSubtree(rows, x, b)
    ensures a == b
    decreases Length(rows, x)
  {
    hide Nearest;
    var p := Parent(rows, x);
    if x == a && x != b {
      SubtreeGoesDown(rows, p.value, b);
    } else if x == b && x != a {
      SubtreeGoesDown(rows, p.value, a);
    } else if x != a {
      SiblingsAreDisjoint(rows, p.value, a, b);
    }
  }

  /** Every row hangs in the tree of some root. */
  lemma {:induction false} HasRoot(rows: Rows, x: nat) returns (root: nat)
    requires x < |rows|
    ensures root < |rows| && Parent(rows, root) == None && InSubtree(rows, x, root)
    decreases Length(rows, x)
  {
    hide Nearest;
    match Parent(rows, x)
    case None => root := x;
    case Some(p) => root := HasRoot(rows, p);
  }

  lemma {:induction false} HasChildAbove(rows: Rows, x: nat, i: nat) returns (c: nat)
    requires x < |rows| && i < |rows| && InSubtree(rows, x, i) && x != i
    ensures c < |rows| && Parent(rows, c) == Some(i) && InSubtree(rows, x, c)
    decreases Length(rows, x)
  {
    hide Nearest;
    if Parent(rows, x).value == i {
      c := x;
    } else {
      c := HasChildAbove(rows, Parent(rows, x).value, i);
    }
  }

  lemma {:induction false} ChildBelongs(rows: Rows, x: nat, c: nat, i: nat)
    requires x < |rows| && c < |rows| && i < |rows| && InSubtree(rows, x, c) && Parent(rows, c) == Some(i)
    ensures InSubtree(rows, x, i) && x != i
    decreases Length(rows, x)
  {
    hide Nearest;
    SubtreeGoesDown(rows, x, c);
    if x != c {
      ChildBelongs(rows, Parent(rows, x).value, c, i);
    }
  }

  lemma {:induction false} PrintedOnce(rows: Rows, i: nat, x: nat)
    requires i < |rows| && x < |rows|
    ensures multiset(Printed(rows, i))[x] == if InSubtree(rows, x, i) then 1 else 0
    decreases Bound(rows, |rows|) - Length(rows, i), 1, 0
  {
    hide Nearest, InSubtree;
    var below := Under(rows, Some(i), |rows|);
    PrintedAllOnce(rows, below, Length(rows, i), Some(i), x);
    assert InSubtree(rows, x, i) <==> x == i || exists c | c in below :: InSubtree(rows, x, c) by {
      SubtreeOfSelf(rows, i);
      if InSubtree(rows, x, i) && x != i {
        var c := HasChildAbove(rows, x, i);
      }
      if c :| c in below && InSubtree(rows, x, c) {
        ChildBelongs(rows, x, c, i);
      }
    }
    assert !(exists c | c in below :: InSubtree(rows, i, c)) by {
      if c :| c in below && InSubtree(rows, i, c) {
        ChildBelongs(rows, i, c, i);
      }
    }
  }

  lemma SubtreeOfSelf(rows: Rows, i: nat)
    requires i < |rows|
    ensures InSubtree(rows, i, i)
  {
  }

  lemma {:induction false} PrintedAllOnce(rows: Rows, these: seq<nat>, above: int, parent: Option<nat>, x: nat)
    requires above >= -1 && AllBelow(rows, these, above)
    requires x < |rows| && (forall c | c in these :: Parent(rows, c) == parent)
    requires parent.Some? ==> parent.value < |rows|
    requires Ascending(these)
    ensures multiset(PrintedAll(rows, these, above))[x] ==
              if exists c | c in these :: InSubtree(rows, x, c) then 1 else 0
    decreases Bound(rows, |rows|) - above, 0, |these|
  {
    hide *;
    if these == [] {
      NothingPrinted(rows, above);
    } else {
      var c, rest := these[0], these[1..];
      RestIsBelow(rows, these, above, parent);
      PrintedOnce(rows, c, x);
      PrintedAllOnce(rows, rest, above, parent, x);
      PrintedFirst(rows, these, above, x);
      InOneOnly(rows, these, above, parent, x);
    }
  }

  lemma NothingPrinted(rows: Rows, above: int)
    requires above >= -1
    ensures AllBelow(rows, [], above) && PrintedAll(rows, [], above) == []
  {
  }

  lemma RestIsBelow(rows: Rows, these: seq<nat>, above: int, parent: Option<nat>)
    requires above >= -1 && AllBelow(rows, these, above) && these != [] && Ascending(these)
    requires forall c | c in these :: Parent(rows, c) == parent
    ensures these[0] in these && these[0] < |rows| && above < Length(rows, these[0])
    ensures AllBelow(rows, these[1..], above) && Ascending(these[1..])
    ensures forall c | c in these[1..] :: Parent(rows, c) == parent
  {
    hide Nearest;
  }

  /** At most one of these siblings has row x below it. */
  lemma InOneOnly(rows: Rows, these: seq<nat>, above: int, parent: Option<nat>, x: nat)
    requires above >= -1 && AllBelow(rows, these, above) && these != [] && Ascending(these) && x < |rows|
    requires forall c | c in these :: Parent(rows, c) == parent
    requires parent.Some? ==> parent.value < |rows|
    ensures (exists c | c in these :: InSubtree(rows, x, c)) <==>
              InSubtree(rows, x, these[0]) || exists c | c in these[1..] :: InSubtree(rows, x, c)
    ensures InSubtree(rows, x, these[0]) ==> forall c | c in these[1..] :: !InSubtree(rows, x, c)
  {
    hide Nearest, InSubtree, Parent;
    var c, rest := these[0], these[1..];
    assert these == [c] + rest;
    assert forall d :: d in these <==> d == c || d in rest;
    if InSubtree(rows, x, c) {
      forall d | d in rest
        ensures !InSubtree(rows, x, d)
      {
        if InSubtree(rows, x, d) {
          SiblingsAreDisjoint(rows, x, c, d);
        }
      }
    }
  }

  lemma PrintedFirst(rows: Rows, these: seq<nat>, above: int, x: nat)
    requires above >= -1 && AllBelow(rows, these, above) && these != []
    ensures multiset(PrintedAll(rows, these, above))[x] ==
              multiset(Printed(rows, these[0]))[x] + multiset(PrintedAll(rows, these[1..], above))[x]
  {
    hide Nearest, Printed;
  }

  /** The printed tree shows every row, and shows it once. */
  lemma EveryRowIsPrintedOnce(rows: Rows, x: nat)
    requires x < |rows|
    ensures multiset(PrintedAll(rows, Under(rows, None, |rows|), -1))[x] == 1
  {
    hide Nearest, InSubtree;
    PrintedAllOnce(rows, Under(rows, None, |rows|), -1, None, x);
    var root := HasRoot(rows, x);
  }
}

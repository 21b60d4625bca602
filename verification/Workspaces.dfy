/** internal/app/analysis_orchestrator.go: which Node workspaces count, and which Node projects they admit. */
module Workspaces {
  import opened Paths

  datatype WorkspaceType = Node | OtherWorkspace

  datatype Candidate = Candidate(workspaceType: WorkspaceType, manifestPath: Path, projectPaths: seq<Path>) {
    function Root(): Path {
      Dir(manifestPath)
    }
  }

  datatype Project = Project(rootPath: Path, manifestPath: Path)

  ghost predicate InsideAnother(candidates: seq<Candidate>, c: Candidate) {
    exists o | o in candidates :: o.workspaceType == Node && ProperlyInside(c.Root(), o.Root())
  }

  /** The candidates that are not Node workspaces strictly inside another Node workspace, in order. */
  ghost function TopLevel(all: seq<Candidate>, upTo: nat): seq<Candidate>
    requires upTo <= |all|
  {
    if upTo == 0 then [] else
      var c := all[upTo - 1];
      TopLevel(all, upTo - 1) + if c.workspaceType == Node && InsideAnother(all, c) then [] else [c]
  }

  lemma {:induction false} SurvivorsUpTo(all: seq<Candidate>, upTo: nat)
    requires upTo <= |all|
    ensures forall c :: c in TopLevel(all, upTo) <==>
              c in all[..upTo] && !(c.workspaceType == Node && InsideAnother(all, c))
  {
    hide InsideAnother;
    if upTo > 0 {
      assert all[..upTo] == all[..upTo - 1] + [all[upTo - 1]];
      SurvivorsUpTo(all, upTo - 1);
    }
  }

  lemma Survivors(all: seq<Candidate>)
    ensures forall c :: c in TopLevel(all, |all|) <==> c in all && !(c.workspaceType == Node && InsideAnother(all, c))
  {
    hide InsideAnother;
    assert all[..|all|] == all;
    SurvivorsUpTo(all, |all|);
  }

  lemma TopLevelNext(all: seq<Candidate>, i: nat)
    requires i <= |all|
    ensures TopLevel(all, 0) == []
    ensures i < |all| ==>
              TopLevel(all, i + 1) ==
                TopLevel(all, i) + if all[i].workspaceType == Node && InsideAnother(all, all[i]) then [] else [all[i]]
  {
  }

  method TopLevelWorkspaceCandidates(candidates: seq<Candidate>) returns (filtered: seq<Candidate>)
    ensures filtered == TopLevel(candidates, |candidates|)
  {
    hide TopLevel;
    filtered := [];
    TopLevelNext(candidates, 0);
    for i := 0 to |candidates|
      invariant filtered == TopLevel(candidates, i)
    {
      TopLevelNext(candidates, i);
      var candidate := candidates[i];
      if candidate.workspaceType != Node {
        filtered := filtered + [candidate];
        continue;
      }
      var root := candidate.Root();
      var nested := false;
      var j := 0;
      while j < |candidates|
        invariant j <= |candidates|
        invariant nested ==> InsideAnother(candidates, candidate)
        invariant !nested ==> forall k | 0 <= k < j ::
                    !(candidates[k].workspaceType == Node && ProperlyInside(root, candidates[k].Root()))
      {
        var other := candidates[j];
        if i == j || other.workspaceType != Node {
          j := j + 1;
          continue;
        }
        var otherRoot := other.Root();
        if SameOrChild(root, otherRoot) {
          if root != otherRoot {
            nested := true;
            break;
          }
        }
        j := j + 1;
      }
      if !nested {
        filtered := filtered + [candidate];
      }
    }
  }

  /** Survivors form an antichain: no Node root among them is strictly inside another. */
  lemma {:induction false} SurvivorsDoNotNest(all: seq<Candidate>, a: Candidate, b: Candidate)
    requires a in TopLevel(all, |all|) && b in TopLevel(all, |all|) && a.workspaceType == Node
    requires b.workspaceType == Node
    ensures !ProperlyInside(a.Root(), b.Root())
    ensures Nested(a.Root(), b.Root()) ==> a.Root() == b.Root()
  {
    Survivors(all);
    hide TopLevel;
  }

  /** And they cover: whatever is dropped is strictly inside a survivor. */
  lemma {:induction false} DroppedIsCovered(all: seq<Candidate>, c: Candidate) returns (survivor: Candidate)
    requires c in all && c !in TopLevel(all, |all|)
    ensures survivor in TopLevel(all, |all|) && survivor.workspaceType == Node && c.workspaceType == Node
    ensures ProperlyInside(c.Root(), survivor.Root())
    decreases |c.Root()|
  {
    Survivors(all);
    hide TopLevel;
    var o :| o in all && o.workspaceType == Node && ProperlyInside(c.Root(), o.Root());
    survivor := o;
    if o !in TopLevel(all, |all|) {
      survivor := DroppedIsCovered(all, o);
      ContainmentIsPartialOrder(c.Root(), o.Root(), survivor.Root());
    }
  }

  /** All survivors that contain a project have one root. */
  lemma {:induction false} ContainingSurvivorsShareRoot(all: seq<Candidate>, p: Path, a: Candidate, b: Candidate)
    requires a in TopLevel(all, |all|) && b in TopLevel(all, |all|) && a.workspaceType == Node
    requires b.workspaceType == Node
    requires SameOrChild(p, a.Root()) && SameOrChild(p, b.Root())
    ensures a.Root() == b.Root()
  {
    AncestorsFormAChain(p, a.Root(), b.Root());
    SurvivorsDoNotNest(all, a, b);
  }

  predicate Contains(c: Candidate, project: Project) {
    c.workspaceType == Node && SameOrChild(project.rootPath, c.Root())
  }

  predicate Admits(c: Candidate, project: Project) {
    project.rootPath == c.Root() || project.manifestPath in c.projectPaths
  }

  /** The verdict of the first Node workspace that contains the project; without one, every project passes. */
  ghost predicate AllowedByFirst(project: Project, workspaces: seq<Candidate>) {
    forall k | 0 <= k < |workspaces| && Contains(workspaces[k], project) &&
               (forall j | 0 <= j < k :: !Contains(workspaces[j], project)) ::
      Admits(workspaces[k], project)
  }

  method NodeProjectAllowedByWorkspaces(project: Project, workspaces: seq<Candidate>) returns (allowed: bool)
    ensures allowed <==> AllowedByFirst(project, workspaces)
  {
    for i := 0 to |workspaces|
      invariant forall j | 0 <= j < i :: !Contains(workspaces[j], project)
    {
      var candidate := workspaces[i];
      if candidate.workspaceType != Node {
        continue;
      }
      var root := candidate.Root();
      if !SameOrChild(project.rootPath, root) {
        continue;
      }
      if project.rootPath == root {
        return true;
      }
      for m := 0 to |candidate.projectPaths|
        invariant project.manifestPath !in candidate.projectPaths[..m]
      {
        if project.manifestPath == candidate.projectPaths[m] {
          return true;
        }
      }
      assert candidate.projectPaths[..|candidate.projectPaths|] == candidate.projectPaths;
      return false;
    }
    return true;
  }

  /** One Node candidate per root. */
  ghost predicate OnePerRoot(all: seq<Candidate>) {
    forall a, b | a in all && b in all && a.workspaceType == Node && b.workspaceType == Node && a.Root() == b.Root() ::
      a == b
  }

  ghost predicate SameElements<T(!new)>(a: seq<T>, b: seq<T>) {
    forall x :: x in a <==> x in b
  }

  lemma SurvivorsIgnoreOrder(all: seq<Candidate>, other: seq<Candidate>)
    requires SameElements(all, other)
    ensures SameElements(TopLevel(all, |all|), TopLevel(other, |other|))
  {
    Survivors(all);
    Survivors(other);
    hide TopLevel;
    forall c: Candidate
      ensures InsideAnother(all, c) <==> InsideAnother(other, c)
    {
    }
  }

  /** The first workspace that contains the project, if any does. */
  lemma {:induction false} FirstContaining(project: Project, workspaces: seq<Candidate>, k: nat) returns (first: nat)
    requires k < |workspaces| && Contains(workspaces[k], project)
    ensures first <= k && Contains(workspaces[first], project)
    ensures forall j | 0 <= j < first :: !Contains(workspaces[j], project)
  {
    if j :| 0 <= j < k && Contains(workspaces[j], project) {
      first := FirstContaining(project, workspaces, j);
    } else {
      first := k;
    }
  }

  /** With one candidate per root, a project is allowed when every surviving workspace that contains it admits it: the
      order in which workspaces were found cannot matter. */
  lemma {:induction false} AllowedByAll(project: Project, all: seq<Candidate>)
    requires OnePerRoot(all)
    ensures AllowedByFirst(project, TopLevel(all, |all|)) <==>
              forall c | c in TopLevel(all, |all|) && Contains(c, project) :: Admits(c, project)
  {
    hide TopLevel, Admits;
    var kept := TopLevel(all, |all|);
    if AllowedByFirst(project, kept) {
      forall c | c in kept && Contains(c, project)
        ensures Admits(c, project)
      {
        var k :| 0 <= k < |kept| && kept[k] == c;
        var first := FirstContaining(project, kept, k);
        ContainingSurvivorsShareRoot(all, project.rootPath, c, kept[first]);
        Survivors(all);
      }
    }
  }

  lemma {:induction false} VerdictIgnoresOrder(project: Project, all: seq<Candidate>, other: seq<Candidate>)
    requires OnePerRoot(all) && SameElements(all, other)
    ensures AllowedByFirst(project, TopLevel(all, |all|)) <==> AllowedByFirst(project, TopLevel(other, |other|))
  {
    hide TopLevel, AllowedByFirst, Admits;
    SurvivorsIgnoreOrder(all, other);
    AllowedByAll(project, all);
    AllowedByAll(project, other);
  }

  ghost predicate Allows(project: Project, order: seq<Candidate>) {
    AllowedByFirst(project, TopLevel(order, |order|))
  }

  ghost predicate Permutes<T>(a: seq<T>, b: seq<T>) {
    multiset(a) == multiset(b)
  }

  ghost predicate Disagree(project: Project, a: Candidate, b: Candidate) {
    Contains(a, project) && Contains(b, project) && Admits(a, project) && !Admits(b, project)
  }

  /** Without that, order decides exactly when two surviving workspaces that contain the project disagree about it. */
  lemma {:induction false} OrderDecidesExactlyWhen(project: Project, all: seq<Candidate>)
    ensures (exists x, y | Permutes(x, all) && Permutes(y, all) :: Allows(project, x) && !Allows(project, y)) <==>
            (exists a, b | a in TopLevel(all, |all|) && b in TopLevel(all, |all|) :: Disagree(project, a, b))
  {
    hide *;
    if a, b :| a in TopLevel(all, |all|) && b in TopLevel(all, |all|) && Disagree(project, a, b) {
      DisagreementShows(project, all, a, b);
    }
    if x, y :| Permutes(x, all) && Permutes(y, all) && Allows(project, x) && !Allows(project, y) {
      var a, b := DisagreementFound(project, all, x, y);
    }
  }

  lemma DisagreementShows(project: Project, all: seq<Candidate>, a: Candidate, b: Candidate)
    requires a in TopLevel(all, |all|) && b in TopLevel(all, |all|) && Disagree(project, a, b)
    ensures exists x, y | Permutes(x, all) && Permutes(y, all) :: Allows(project, x) && !Allows(project, y)
  {
    hide TopLevel, Admits, Contains, Allows, Permutes;
    var x := LeaderDecides(project, all, a);
    var y := LeaderDecides(project, all, b);
  }

  lemma DisagreementFound(project: Project, all: seq<Candidate>, x: seq<Candidate>, y: seq<Candidate>)
      returns (a: Candidate, b: Candidate)
    requires Permutes(x, all) && Permutes(y, all) && Allows(project, x) && !Allows(project, y)
    ensures a in TopLevel(all, |all|) && b in TopLevel(all, |all|) && Disagree(project, a, b)
  {
    hide TopLevel, Admits, Contains;
    PermutationsShareElements(x, all);
    PermutationsShareElements(y, all);
    SurvivorsIgnoreOrder(x, all);
    SurvivorsIgnoreOrder(y, all);
    var kept, dropping := TopLevel(x, |x|), TopLevel(y, |y|);
    var k :| 0 <= k < |dropping| && Contains(dropping[k], project) && !Admits(dropping[k], project);
    b := dropping[k];
    assert b in dropping && b in kept;
    var m :| 0 <= m < |kept| && kept[m] == b;
    var first := FirstContaining(project, kept, m);
    a := kept[first];
    assert a in kept;
  }

  lemma PermutationsShareElements<T(!new)>(a: seq<T>, b: seq<T>)
    requires Permutes(a, b)
    ensures SameElements(a, b)
  {
    forall x: T
      ensures x in a <==> x in b
    {
      assert x in a <==> x in multiset(a);
      assert x in b <==> x in multiset(b);
    }
  }

  /** A surviving candidate found first is the one that decides. */
  lemma LeaderDecides(project: Project, all: seq<Candidate>, a: Candidate) returns (led: seq<Candidate>)
    requires a in TopLevel(all, |all|) && Contains(a, project)
    ensures Permutes(led, all) && (Allows(project, led) <==> Admits(a, project))
  {
    hide Admits, Contains, TopLevel, Permutes, InsideAnother;
    Survivors(all);
    led := MovedToFront(all, a);
    PermutationsShareElements(led, all);
    SurvivorsIgnoreOrder(led, all);
    LeaderStaysFirst(led, |led|);
  }

  lemma MovedToFront<T>(s: seq<T>, x: T) returns (r: seq<T>)
    requires x in s
    ensures Permutes(r, s) && r != [] && r[0] == x
  {
    var i :| 0 <= i < |s| && s[i] == x;
    assert s == s[..i] + [x] + s[i + 1..];
    r := [x] + s[..i] + s[i + 1..];
  }

  lemma {:induction false} LeaderStaysFirst(all: seq<Candidate>, upTo: nat)
    requires 0 < upTo <= |all| && all[0] in TopLevel(all, |all|)
    ensures TopLevel(all, upTo) != [] && TopLevel(all, upTo)[0] == all[0]
  {
    hide InsideAnother;
    if upTo == 1 {
      Survivors(all);
      assert TopLevel(all, 0) == [];
    } else {
      LeaderStaysFirst(all, upTo - 1);
    }
  }

  /** Such candidates exist: two manifests of one directory with different members. */
  lemma SameRootCandidatesCanDisagree()
    ensures var a := Candidate(Node, ["repo", "package.json"], [["repo", "app", "package.json"]]);
            var b := Candidate(Node, ["repo", "pnpm-workspace.yaml"], []);
            var project := Project(["repo", "app"], ["repo", "app", "package.json"]);
            TopLevel([a, b], 2) == [a, b] && TopLevel([b, a], 2) == [b, a] &&
            AllowedByFirst(project, [a, b]) && !AllowedByFirst(project, [b, a])
  {
    var a := Candidate(Node, ["repo", "package.json"], [["repo", "app", "package.json"]]);
    var b := Candidate(Node, ["repo", "pnpm-workspace.yaml"], []);
    var project := Project(["repo", "app"], ["repo", "app", "package.json"]);
    assert a.Root() == ["repo"] && b.Root() == ["repo"];
    assert !InsideAnother([a, b], a) && !InsideAnother([a, b], b);
    assert !InsideAnother([b, a], a) && !InsideAnother([b, a], b);
    assert TopLevel([a, b], 1) == TopLevel([a, b], 0) + [a];
    assert TopLevel([b, a], 1) == TopLevel([b, a], 0) + [b];
    assert Contains(a, project) && Contains(b, project) by {
      assert ["repo"] <= ["repo", "app"];
    }
    assert [b, a][0] == b && [a, b][0] == a;
    assert !Admits(b, project) && Admits(a, project);
  }
}

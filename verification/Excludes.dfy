/** internal/scanner/ignore.go: which paths the configured exclude list keeps out of a walk. */
module Excludes {
  import opened Wrappers
  import opened Paths

  /** An exclude as the configuration states it, cleaned. An absolute one is None when it cannot be normalized; a
      relative one has at least one component. */
  datatype Pattern = Blank | Absolute(path: Option<Path>) | Relative(first: string, rest: seq<string>)

  datatype Matcher = Matcher(roots: seq<Path>, absolute: seq<Path>, relative: seq<Path>, anySegment: seq<string>)

  /** The matcher holds every stated exclude in its own list, and no other. */
  ghost predicate Holds(m: Matcher, excludes: seq<Pattern>) {
    Absolute(None) !in excludes &&
    (forall p :: p in m.absolute <==> Absolute(Some(p)) in excludes) &&
    (forall s :: s in m.anySegment <==> Relative(s, []) in excludes) &&
    (forall r :: r in m.relative <==> |r| >= 2 && Relative(r[0], r[1..]) in excludes)
  }

  method NewExcludeMatcher(roots: seq<Option<Path>>, excludes: seq<Pattern>) returns (m: Option<Matcher>)
    ensures m.None? <==> None in roots || Absolute(None) in excludes
    ensures m.Some? ==> |m.value.roots| == |roots| && forall i | 0 <= i < |roots| :: roots[i] == Some(m.value.roots[i])
    ensures m.Some? ==> Holds(m.value, excludes)
  {
    var matcher := Matcher([], [], [], []);
    for i := 0 to |roots|
      invariant None !in roots[..i] && |matcher.roots| == i
      invariant matcher.absolute == [] && matcher.relative == [] && matcher.anySegment == []
      invariant forall j | 0 <= j < i :: roots[j] == Some(matcher.roots[j])
    {
      if roots[i].None? {
        return None;
      }
      matcher := matcher.(roots := matcher.roots + [roots[i].value]);
    }
    assert roots[..|roots|] == roots;
    assert Holds(matcher, []);
    hide Holds;
    for i := 0 to |excludes|
      invariant |matcher.roots| == |roots| && forall j | 0 <= j < |roots| :: roots[j] == Some(matcher.roots[j])
      invariant Holds(matcher, excludes[..i])
    {
      assert excludes[..i + 1] == excludes[..i] + [excludes[i]];
      HoldsOneMore(matcher, excludes[..i], excludes[i]);
      match excludes[i]
      case Blank =>
      case Absolute(None) => return None;
      case Absolute(Some(p)) => matcher := matcher.(absolute := matcher.absolute + [p]);
      case Relative(s, rest) =>
        if rest == [] {
          matcher := matcher.(anySegment := matcher.anySegment + [s]);
          continue;
        }
        matcher := matcher.(relative := matcher.relative + [[s] + rest]);
    }
    assert excludes[..|excludes|] == excludes;
    HoldsNoFailure(matcher, excludes);
    m := Some(matcher);
  }

  lemma HoldsNoFailure(m: Matcher, excludes: seq<Pattern>)
    requires Holds(m, excludes)
    ensures Absolute(None) !in excludes
  {
  }

  lemma HoldsOneMore(m: Matcher, excludes: seq<Pattern>, x: Pattern)
    requires Holds(m, excludes)
    ensures match x
            case Blank => Holds(m, excludes + [x])
            case Absolute(None) => true
            case Absolute(Some(p)) => Holds(m.(absolute := m.absolute + [p]), excludes + [x])
            case Relative(s, rest) =>
              if rest == [] then Holds(m.(anySegment := m.anySegment + [s]), excludes + [x])
              else Holds(m.(relative := m.relative + [[s] + rest]), excludes + [x])
  {
    if x.Relative? && x.rest != [] {
      HoldsOneRelative(m, excludes, x);
    }
  }

  lemma HoldsOneRelative(m: Matcher, excludes: seq<Pattern>, x: Pattern)
    requires Holds(m, excludes) && x.Relative? && x.rest != []
    ensures Holds(m.(relative := m.relative + [[x.first] + x.rest]), excludes + [x])
  {
    var one, all := [x.first] + x.rest, excludes + [x];
    forall r
      ensures r in m.relative + [one] <==> |r| >= 2 && Relative(r[0], r[1..]) in all
    {
      if |r| >= 1 && r[0] == x.first && r[1..] == x.rest {
        assert r == [r[0]] + r[1..];
      }
    }
    assert forall s :: Relative(s, []) in all <==> Relative(s, []) in excludes;
    assert forall p :: Absolute(p) in all <==> Absolute(p) in excludes;
  }

  /** The comparison of sameOrChild on path text. The text of the filesystem root already ends in a separator,
      so no other path starts with that text and one more separator. */
  predicate SameOrBelowText(path: Path, parent: Path) {
    path == parent || (parent != [] && parent <= path)
  }

  predicate MatchesBelowRoot(m: Matcher, relative: Path) {
    (exists i | 0 <= i < |relative| :: relative[i] in m.anySegment) ||
    (exists x | x in m.relative :: SameOrBelowText(relative, x))
  }

  predicate Matches(m: Matcher, path: Path) {
    (exists x | x in m.absolute :: SameOrBelowText(path, x)) ||
    (exists root | root in m.roots :: root < path && MatchesBelowRoot(m, path[|root|..]))
  }

  /** An absolute exclude covers its path and what is below; for the filesystem root that is the root alone. */
  lemma AbsoluteMatches(x: Path, p: Path)
    ensures Matches(OneAbsolute(x), p) <==> if x == [] then p == [] else SameOrChild(p, x)
  {
    assert x in [x];
  }

  /** A name covers, at any depth below a root, whatever has it on the way from the root, and nothing else. */
  lemma NameMatches(root: Path, name: string, below: Path)
    ensures below != [] ==> (Matches(OneName(root, name), root + below) <==> name in below)
    ensures forall p | !ProperlyInside(p, root) :: !Matches(OneName(root, name), p)
  {
    var m := OneName(root, name);
    assert root in m.roots && (root + below)[|root|..] == below && name in m.anySegment;
    if below != [] {
      assert root < root + below;
    }
    assert MatchesBelowRoot(m, below) <==> name in below;
  }

  /** A relative exclude covers what begins with it below a root, and nothing else. */
  lemma RelativeMatches(root: Path, x: Path, below: Path)
    requires x != []
    ensures Matches(OneRelative(root, x), root + below) <==> SameOrChild(below, x)
    ensures forall p | !ProperlyInside(p, root) :: !Matches(OneRelative(root, x), p)
  {
    var m := OneRelative(root, x);
    assert root in m.roots && (root + below)[|root|..] == below && x in m.relative;
    if x <= below {
      assert root < root + below;
    }
    assert MatchesBelowRoot(m, below) <==> x <= below;
  }

  /** Roots and excludes do not interfere: a path is excluded exactly if one exclude covers it, below one root. */
  lemma EachOnItsOwn(m: Matcher, p: Path)
    ensures Matches(m, p) <==>
              (exists x | x in m.absolute :: Matches(OneAbsolute(x), p)) ||
              (exists root, name | root in m.roots && name in m.anySegment :: Matches(OneName(root, name), p)) ||
              (exists root, x | root in m.roots && x in m.relative :: Matches(OneRelative(root, x), p))
  {
    forall x
      ensures Matches(OneAbsolute(x), p) <==> SameOrBelowText(p, x)
    {
      assert x in [x];
    }
    forall root, name
      ensures Matches(OneName(root, name), p) <==> root < p && name in p[|root|..]
    {
      NameAlone(root, name, p);
    }
    forall root, x
      ensures Matches(OneRelative(root, x), p) <==> root < p && SameOrBelowText(p[|root|..], x)
    {
      RelativeAlone(root, x, p);
    }
    MatchesMeans(m, p);
    hide Matches, MatchesBelowRoot, OneAbsolute, OneName, OneRelative, SameOrBelowText;
  }

  function OneAbsolute(x: Path): Matcher {
    Matcher([], [x], [], [])
  }

  function OneName(root: Path, name: string): Matcher {
    Matcher([root], [], [], [name])
  }

  function OneRelative(root: Path, x: Path): Matcher {
    Matcher([root], [], [x], [])
  }

  lemma NameAlone(root: Path, name: string, p: Path)
    ensures Matches(OneName(root, name), p) <==> root < p && name in p[|root|..]
  {
    assert root in [root] && name in [name];
  }

  lemma RelativeAlone(root: Path, x: Path, p: Path)
    ensures Matches(OneRelative(root, x), p) <==> root < p && SameOrBelowText(p[|root|..], x)
  {
    assert root in [root] && x in [x];
  }

  lemma MatchesMeans(m: Matcher, p: Path)
    ensures Matches(m, p) <==>
              (exists x | x in m.absolute :: SameOrBelowText(p, x)) ||
              (exists root, name | root in m.roots && name in m.anySegment :: root < p && name in p[|root|..]) ||
              (exists root, x | root in m.roots && x in m.relative :: root < p && SameOrBelowText(p[|root|..], x))
  {
    hide SameOrBelowText;
    if Matches(m, p) && !exists x | x in m.absolute :: SameOrBelowText(p, x) {
      var root :| root in m.roots && root < p && MatchesBelowRoot(m, p[|root|..]);
      var r := p[|root|..];
      if i :| 0 <= i < |r| && r[i] in m.anySegment {
        assert r[i] in r;
      }
    }
    if root, name :| root in m.roots && name in m.anySegment && root < p && name in p[|root|..] {
      var r := p[|root|..];
      var i :| 0 <= i < |r| && r[i] == name;
      assert MatchesBelowRoot(m, r);
    }
    if root, x :| root in m.roots && x in m.relative && root < p && SameOrBelowText(p[|root|..], x) {
      assert MatchesBelowRoot(m, p[|root|..]);
    }
  }

  /** What is below an excluded path is excluded, the filesystem root aside. */
  lemma MatchesBelow(m: Matcher, p: Path, q: Path)
    requires Matches(m, p) && p != [] && p <= q
    ensures Matches(m, q)
  {
    if x :| x in m.absolute && SameOrBelowText(p, x) {
      assert SameOrBelowText(q, x);
    } else {
      var root :| root in m.roots && root < p && MatchesBelowRoot(m, p[|root|..]);
      var r, s := p[|root|..], q[|root|..];
      assert r <= s;
      if i :| 0 <= i < |r| && r[i] in m.anySegment {
        assert s[i] == r[i];
      } else {
        var x :| x in m.relative && SameOrBelowText(r, x);
        assert SameOrBelowText(s, x);
      }
      assert MatchesBelowRoot(m, s);
    }
  }

  /** A name longer than all of these is none of them. */
  lemma {:induction false} LongerThanAll(names: seq<string>) returns (n: nat)
    ensures forall s | s in names :: |s| < n
  {
    n := 0;
    if names != [] {
      var m := LongerThanAll(names[1..]);
      n := if m > |names[0]| then m else |names[0]| + 1;
      assert forall s | s in names :: s == names[0] || s in names[1..];
    }
  }

  lemma {:induction false} FirstNames(paths: seq<Path>) returns (names: seq<string>)
    ensures forall p | p in paths && p != [] :: p[0] in names
  {
    names := [];
    if paths != [] {
      var rest := FirstNames(paths[1..]);
      names := (if paths[0] == [] then [] else [paths[0][0]]) + rest;
      assert forall p | p in paths :: p == paths[0] || p in paths[1..];
    }
  }

  /** Whatever the excludes, some path other than the root is not matched. */
  lemma SomethingIsKept(m: Matcher) returns (kept: Path)
    requires forall x | x in m.relative :: x != []
    ensures kept != [] && !Matches(m, kept)
  {
    var first := FirstNames(m.absolute);
    var second := FirstNames(m.relative);
    var n := LongerThanAll(first + second + m.anySegment);
    var name := seq(n, i => 'x');
    kept := [name];
    assert forall s | s in first + second + m.anySegment :: s != name;
    forall x | x in m.absolute
      ensures !SameOrBelowText(kept, x)
    {
      assert x != [] ==> x[0] in first;
    }
    forall root | root in m.roots && root < kept
      ensures !MatchesBelowRoot(m, kept[|root|..])
    {
      assert kept[|root|..] == kept;
      forall x | x in m.relative
        ensures !SameOrBelowText(kept, x)
      {
        assert x[0] in second;
      }
    }
  }

  /** Exactly one exclude breaks the rule: the filesystem root itself excludes the root and nothing in it. */
  lemma ClosedUnlessRootExcluded(m: Matcher)
    requires forall x | x in m.relative :: x != []
    ensures (forall p, q | Matches(m, p) && p <= q :: Matches(m, q)) <==> [] !in m.absolute
  {
    if [] !in m.absolute {
      assert !Matches(m, []);
      forall p, q | Matches(m, p) && p <= q
        ensures Matches(m, q)
      {
        MatchesBelow(m, p, q);
      }
    } else {
      assert SameOrBelowText([], []);
      var kept := SomethingIsKept(m);
      assert Matches(m, []) && [] <= kept;
    }
  }

  lemma RootExcludeMissesItsContents()
    ensures var m := Matcher([["home"]], [[]], [], []);
            Matches(m, []) && !Matches(m, ["home"]) && !Matches(m, ["home", "work"])
  {
    assert SameOrBelowText([], []);
  }
}

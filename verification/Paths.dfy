module Wrappers {
  datatype Option<+T> = None | Some(value: T)
}

/** Normalized paths as component sequences: [] is the filesystem root. */
module Paths {
  type Path = seq<string>

  /** internal/pathutil/normalize.go: path is parent itself, or lies below it. */
  predicate SameOrChild(path: Path, parent: Path) {
    parent <= path
  }

  predicate ProperlyInside(path: Path, parent: Path) {
    parent < path
  }

  /** filepath.Dir; the root is its own parent. */
  function Dir(p: Path): (d: Path)
    ensures p != [] ==> d < p && |d| + 1 == |p|
  {
    if p == [] then [] else p[..|p| - 1]
  }

  predicate Nested(p: Path, q: Path) {
    p <= q || q <= p
  }

  /** The order that containment induces is a tree order: a partial order ... */
  lemma ContainmentIsPartialOrder(a: Path, b: Path, c: Path)
    ensures SameOrChild(a, a)
    ensures SameOrChild(a, b) && SameOrChild(b, a) ==> a == b
    ensures SameOrChild(a, b) && SameOrChild(b, c) ==> SameOrChild(a, c)
  {
    if SameOrChild(a, b) && SameOrChild(b, a) {
      assert a == a[..|b|] == b;
    }
    if SameOrChild(a, b) && SameOrChild(b, c) {
      assert a[..|c|] == a[..|b|][..|c|] == c;
    }
  }

  /** ... in which the ancestors of one path form a chain, ordered by depth. */
  lemma AncestorsFormAChain(p: Path, a: Path, b: Path)
    requires SameOrChild(p, a) && SameOrChild(p, b)
    ensures |a| <= |b| ==> SameOrChild(b, a)
    ensures |a| == |b| ==> a == b
    ensures Nested(a, b)
  {
    if |a| <= |b| {
      assert b[..|a|] == p[..|b|][..|a|] == p[..|a|] == a;
    } else {
      assert a[..|b|] == p[..|a|][..|b|] == p[..|b|] == b;
    }
  }

  /** So two paths that do not nest have nothing below them in common. */
  lemma NothingInCommon(a: Path, b: Path, k: Path)
    requires !Nested(a, b) && a <= k
    ensures !(b <= k)
  {
    if b <= k {
      AncestorsFormAChain(k, a, b);
    }
  }
}

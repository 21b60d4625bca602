/** The library sort the source relies on, reduced to what it promises: a sorted permutation. */
module Sorting {
  ghost predicate SortedBy<T>(less: (T, T) -> bool, s: seq<T>) {
    forall i, j | 0 <= i < j < |s| :: !less(s[j], s[i])
  }

  ghost predicate StrictOrder<T(!new)>(less: (T, T) -> bool) {
    (forall x :: !less(x, x)) &&
    (forall x, y, z :: less(x, y) && less(y, z) ==> less(x, z)) &&
    (forall x, y, z :: less(x, y) ==> less(x, z) || less(z, y))
  }

  method Sort<T(!new)>(less: (T, T) -> bool, s: seq<T>) returns (sorted: seq<T>)
    requires StrictOrder(less)
    ensures multiset(sorted) == multiset(s) && SortedBy(less, sorted)
  {
    sorted := [];
    for i := 0 to |s|
      invariant multiset(sorted) == multiset(s[..i]) && SortedBy(less, sorted)
    {
      var k := |sorted|;
      while k > 0 && less(s[i], sorted[k - 1])
        invariant 0 <= k <= |sorted|
        invariant forall j | k <= j < |sorted| :: less(s[i], sorted[j])
      {
        k := k - 1;
      }
      InsertSorted(less, sorted, k, s[i]);
      sorted := sorted[..k] + [s[i]] + sorted[k..];
      assert s[..i + 1] == s[..i] + [s[i]];
    }
    assert s[..|s|] == s;
  }

  lemma NotBefore<T(!new)>(less: (T, T) -> bool, a: T, b: T, c: T)
    requires StrictOrder(less)
    ensures !less(a, b) && !less(b, c) ==> !less(a, c)
    ensures less(a, b) ==> !less(b, a)
  {
  }

  lemma InsertSorted<T(!new)>(less: (T, T) -> bool, s: seq<T>, k: nat, x: T)
    requires StrictOrder(less) && SortedBy(less, s) && k <= |s|
    requires forall j | k <= j < |s| :: less(x, s[j])
    requires k > 0 ==> !less(x, s[k - 1])
    ensures SortedBy(less, s[..k] + [x] + s[k..])
    ensures multiset(s[..k] + [x] + s[k..]) == multiset(s) + multiset{x}
  {
    hide StrictOrder;
    OneMore(s, k, x);
    forall j | 0 <= j < |s|
      ensures if j < k then !less(x, s[j]) else !less(s[j], x)
    {
      if j < k {
        NotBefore(less, x, s[k - 1], s[j]);
      } else {
        NotBefore(less, x, s[j], x);
      }
    }
  }

  lemma OneMore<T>(s: seq<T>, k: nat, x: T)
    requires k <= |s|
    ensures multiset(s[..k] + [x] + s[k..]) == multiset(s) + multiset{x}
  {
    var a, b := s[..k], s[k..];
    assert s == a + b;
    assert multiset(a + [x] + b) == multiset(a) + multiset{x} + multiset(b);
  }

  /** When no two elements tie, the order leaves the sort no choice. */
  lemma {:induction false} SortedIsUnique<T(!new)>(less: (T, T) -> bool, a: seq<T>, b: seq<T>)
    requires StrictOrder(less) && SortedBy(less, a) && SortedBy(less, b) && multiset(a) == multiset(b)
    requires forall x, y | x in a && y in a && x != y :: less(x, y) || less(y, x)
    ensures a == b
    decreases |a|
  {
    hide StrictOrder;
    assert |multiset(a)| == |a| && |multiset(b)| == |b|;
    if a != [] {
      FirstIsLeast(less, a, b);
      FirstIsLeast(less, b, a);
      assert a[0] in a && b[0] in a && a[0] == b[0];
      WithoutFirst(a);
      WithoutFirst(b);
      assert forall x | x in a[1..] :: x in a;
      SortedIsUnique(less, a[1..], b[1..]);
    }
  }

  lemma WithoutFirst<T>(a: seq<T>)
    requires a != []
    ensures a == [a[0]] + a[1..] && multiset(a[1..]) == multiset(a) - multiset{a[0]}
  {
    assert a == [a[0]] + a[1..];
    assert multiset(a) == multiset{a[0]} + multiset(a[1..]);
  }

  lemma FirstIsLeast<T(!new)>(less: (T, T) -> bool, a: seq<T>, b: seq<T>)
    requires SortedBy(less, a) && multiset(a) == multiset(b) && a != [] && b != []
    ensures b[0] in a && (b[0] == a[0] || !less(b[0], a[0]))
  {
    assert b[0] in multiset(a);
    var k :| 0 <= k < |a| && a[k] == b[0];
  }
}

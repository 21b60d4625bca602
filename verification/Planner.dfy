/** internal/app/plan_service.go: which resources a cleanup plan takes, and in what order. */
module Planner {
  import opened Wrappers
  import opened Paths
  import opened Profiles
  import opened RiskPolicy
  import opened Freshness
  import opened ResourceService
  import Orchestrator
  import Sorting

  /** The order of strings: by the first character in which they differ, a prefix first. */
  predicate StringLess(a: string, b: string) {
    b != [] && (a == [] || a[0] < b[0] || (a[0] == b[0] && StringLess(a[1..], b[1..])))
  }

  /** That is: at the first place where they differ the one goes on lower, or is at its end. */
  lemma {:induction false} StringLessMeans(a: string, b: string)
    ensures StringLess(a, b) <==>
              exists n | 0 <= n <= |a| && n < |b| :: a[..n] == b[..n] && (n == |a| || a[n] < b[n])
  {
    if a != [] && b != [] && a[0] == b[0] {
      var x, y := a[1..], b[1..];
      StringLessMeans(x, y);
      if n :| 0 <= n <= |x| && n < |y| && x[..n] == y[..n] && (n == |x| || x[n] < y[n]) {
        assert a[..n + 1] == [a[0]] + x[..n] && b[..n + 1] == [b[0]] + y[..n];
        assert n + 1 == |a| || a[n + 1] < b[n + 1];
      }
      if n :| 0 <= n <= |a| && n < |b| && a[..n] == b[..n] && (n == |a| || a[n] < b[n]) {
        assert n > 0;
        assert x[..n - 1] == a[..n][1..] == b[..n][1..] == y[..n - 1];
        assert n - 1 == |x| || x[n - 1] < y[n - 1];
      }
    } else {
      assert a[..0] == b[..0];
      if a != [] && b != [] {
        forall n | 0 < n <= |a| && n < |b|
          ensures a[..n] != b[..n]
        {
          assert a[..n][0] == a[0] && b[..n][0] == b[0];
        }
      }
    }
  }

  lemma {:induction false} StringLessIsTotal(a: string, b: string)
    ensures StringLess(a, b) && StringLess(b, a) ==> false
    ensures a != b ==> StringLess(a, b) || StringLess(b, a)
  {
    if a != [] && b != [] && a[0] == b[0] {
      StringLessIsTotal(a[1..], b[1..]);
      assert a == [a[0]] + a[1..] && b == [b[0]] + b[1..];
    }
  }

  lemma {:induction false} StringLessTransitive(a: string, b: string, c: string)
    requires StringLess(a, b) && StringLess(b, c)
    ensures StringLess(a, c)
  {
    if a != [] && a[0] == b[0] == c[0] {
      StringLessTransitive(a[1..], b[1..], c[1..]);
    }
  }

  /** Confidence first, then size, both from the top; then the ID. */
  predicate Before(a: Resource, b: Resource) {
    if a.confidence != b.confidence then a.confidence > b.confidence
    else if a.reclaimableSize != b.reclaimableSize then a.reclaimableSize > b.reclaimableSize
    else StringLess(a.id, b.id)
  }

  lemma BeforeIsStrictOrder()
    ensures Sorting.StrictOrder(Before)
  {
    forall x, y, z
      ensures !Before(x, x)
      ensures Before(x, y) && Before(y, z) ==> Before(x, z)
      ensures Before(x, y) ==> Before(x, z) || Before(z, y)
    {
      StringLessIsTotal(x.id, x.id);
      if StringLess(x.id, y.id) && StringLess(y.id, z.id) {
        StringLessTransitive(x.id, y.id, z.id);
      }
      if StringLess(x.id, y.id) && !StringLess(x.id, z.id) {
        StringLessIsTotal(x.id, z.id);
        if z.id != x.id {
          StringLessTransitive(z.id, x.id, y.id);
        }
      }
    }
  }

  lemma BeforeDecides(x: Resource, y: Resource)
    requires x.id != y.id
    ensures Before(x, y) || Before(y, x)
  {
    StringLessIsTotal(x.id, y.id);
  }

  datatype Category = OutOfScope | ForPlan | ForReview | Excluded

  function Placed(r: Resource, root: Option<Path>, now: int): Category {
    var seen := Freshened(r, now);
    if root.Some? && !SameOrChild(r.normalizedPath, root.value) then OutOfScope
    else match seen.risk
      case SAFE => if Eligible(EffectiveProfile(seen)) then ForPlan else ForReview
      case REVIEW => ForReview
      case BLOCKED => Excluded
  }

  /** The resources of one category, as they look now. */
  function Seen(all: seq<Resource>, k: Category, root: Option<Path>, now: int): seq<Resource> {
    if all == [] then [] else
      var n := |all| - 1;
      Seen(all[..n], k, root, now) + if Placed(all[n], root, now) == k then [Freshened(all[n], now)] else []
  }

  lemma SeenNext(all: seq<Resource>, i: nat, k: Category, root: Option<Path>, now: int)
    requires i < |all|
    ensures Seen(all[..i + 1], k, root, now) ==
              Seen(all[..i], k, root, now) + if Placed(all[i], root, now) == k then [Freshened(all[i], now)] else []
  {
    assert all[..i + 1][..i] == all[..i];
  }

  datatype Edge = Edge(sourceID: string, relation: Orchestrator.Relation)

  /** FindProjectsByResource: the edges into a resource, None where the lookup fails. */
  type Lookup = string -> Option<seq<Edge>>

  /** The first of the edges that says OWNS comes from here. */
  predicate FirstOwner(edges: seq<Edge>, owner: string) {
    exists i | 0 <= i < |edges| ::
      edges[i] == Edge(owner, Orchestrator.Owns) && forall j | 0 <= j < i :: !edges[j].relation.Owns?
  }

  /** The project that owns a resource, "" where none does. */
  function OwnerIn(edges: seq<Edge>): (owner: string)
    ensures (forall e | e in edges :: !e.relation.Owns?) ==> owner == ""
    ensures (exists e | e in edges :: e.relation.Owns?) ==> FirstOwner(edges, owner)
  {
    if edges == [] then ""
    else if edges[0].relation.Owns? then edges[0].sourceID
    else
      assert edges == [edges[0]] + edges[1..];
      OwnerIn(edges[1..])
  }

  method OwnerProjectID(lookup: Lookup, id: string) returns (owner: Option<string>)
    ensures owner == if lookup(id).None? then None else Some(OwnerIn(lookup(id).value))
  {
    var edges := lookup(id);
    if edges.None? {
      return None;
    }
    for i := 0 to |edges.value|
      invariant OwnerIn(edges.value) == OwnerIn(edges.value[i..])
    {
      if edges.value[i].relation.Owns? {
        return Some(edges.value[i].sourceID);
      }
    }
    return Some("");
  }

  function OwnerOf(lookup: Lookup, id: string): string {
    match lookup(id)
    case None => ""
    case Some(edges) => OwnerIn(edges)
  }

  function Owned(ranking: seq<Resource>, lookup: Lookup): seq<Resource> {
    if ranking == [] then [] else
      var n := |ranking| - 1;
      Owned(ranking[..n], lookup) + if OwnerOf(lookup, ranking[n].id) != "" then [ranking[n]] else []
  }

  function Total(s: seq<Resource>): int {
    if s == [] then 0 else Total(s[..|s| - 1]) + s[|s| - 1].reclaimableSize
  }

  lemma OwnedNext(ranking: seq<Resource>, i: nat, lookup: Lookup)
    requires i < |ranking|
    ensures Owned(ranking[..i + 1], lookup) ==
              Owned(ranking[..i], lookup) + if OwnerOf(lookup, ranking[i].id) != "" then [ranking[i]] else []
  {
    assert ranking[..i + 1][..i] == ranking[..i];
  }

  lemma {:induction false} OwnedGrows(ranking: seq<Resource>, i: nat, lookup: Lookup)
    requires i <= |ranking|
    ensures Owned(ranking[..i], lookup) <= Owned(ranking, lookup)
    decreases |ranking| - i
  {
    if i < |ranking| {
      OwnedNext(ranking, i, lookup);
      OwnedGrows(ranking, i + 1, lookup);
    } else {
      assert ranking[..i] == ranking;
    }
  }

  datatype Status = Ready | InsufficientCandidates

  datatype PlanItem = PlanItem(id: string, resourceID: string, normalizedPath: Path, expectedType: Type,
                               expectedSize: int, expectedModifiedTime: Time, riskAtPlanning: Risk,
                               confidenceAtPlanning: int, ownerProjectID: string, scanID: string)

  datatype Plan = Plan(id: string, createdAt: Time, targetBytes: int, selectedBytes: int, status: Status,
                       items: seq<PlanItem>)

  datatype PlanResult = PlanFailed | PlanBuilt(plan: Plan, review: seq<Resource>, blocked: seq<Resource>)

  function ExpectedModifiedTime(r: Resource): Time {
    match r.lastModifiedAt
    case Some(t) => t
    case None => r.lastObservedAt
  }

  function ItemOf(r: Resource, owner: string, planID: string, scanID: string): PlanItem {
    PlanItem(planID + ":" + r.id, r.id, r.normalizedPath, r.resourceType, r.reclaimableSize, ExpectedModifiedTime(r),
             r.risk, r.confidence, owner, scanID)
  }

  /** No prefix of these gets to the target. */
  ghost predicate FallsShort(s: seq<Resource>, target: int) {
    forall k | 0 <= k <= |s| :: Total(s[..k]) < target
  }

  /** The greedy choice, said without the loop: the owned candidates in order, all of them when there is no target or
      none of their prefixes reaches it, and otherwise the shortest prefix that does. */
  ghost predicate Selects(chosen: seq<Resource>, owned: seq<Resource>, target: int) {
    chosen <= owned &&
    (target <= 0 || FallsShort(owned, target) ==> chosen == owned) &&
    (target > 0 && !FallsShort(owned, target) ==>
       chosen != [] && FallsShort(chosen[..|chosen| - 1], target) && Total(chosen) >= target)
  }

  lemma SelectsNoMore(a: seq<Resource>, owned: seq<Resource>, target: int)
    requires Selects(a, owned, target) && target > 0 && !FallsShort(owned, target)
    ensures Total(owned[..|a|]) >= target && a == owned[..|a|]
    ensures forall k | 0 <= k < |a| :: Total(owned[..k]) < target
  {
    assert owned[..|a|] == a;
    forall k | 0 <= k < |a|
      ensures Total(owned[..k]) < target
    {
      assert a[..|a| - 1][..k] == owned[..k];
    }
  }

  /** There is only one such choice. */
  lemma SelectsIsUnique(a: seq<Resource>, b: seq<Resource>, owned: seq<Resource>, target: int)
    requires Selects(a, owned, target) && Selects(b, owned, target)
    ensures a == b
  {
    if target > 0 && !FallsShort(owned, target) {
      SelectsNoMore(a, owned, target);
      SelectsNoMore(b, owned, target);
      assert |a| == |b|;
    }
  }

  /** Greedy stops with an error at a failed owner lookup, but only at one it gets to. */
  ghost predicate LookupFails(ranking: seq<Resource>, lookup: Lookup, target: int) {
    exists i | 0 <= i < |ranking| ::
      lookup(ranking[i].id).None? && (target <= 0 || FallsShort(Owned(ranking[..i], lookup), target))
  }

  ghost predicate ItemsOf(items: seq<PlanItem>, chosen: seq<Resource>, lookup: Lookup, planID: string, scanID: string) {
    |items| == |chosen| &&
    forall i | 0 <= i < |items| :: items[i] == ItemOf(chosen[i], OwnerOf(lookup, chosen[i].id), planID, scanID)
  }

  lemma FallsShortNext(s: seq<Resource>, x: Resource, target: int)
    ensures Total(s + [x]) == Total(s) + x.reclaimableSize
    ensures FallsShort(s, target) ==> forall k | 0 <= k <= |s| :: Total((s + [x])[..k]) < target
    ensures FallsShort(s + [x], target) <==> FallsShort(s, target) && Total(s + [x]) < target
  {
    hide Total;
    TotalNext(s, x);
    PrefixTotals(s, x);
    var all := s + [x];
    if FallsShort(all, target) {
      assert forall k | 0 <= k <= |s| :: Total(all[..k]) < target;
      assert Total(all[..|all|]) < target;
    }
  }

  lemma TotalNext(s: seq<Resource>, x: Resource)
    ensures Total(s + [x]) == Total(s) + x.reclaimableSize
  {
    assert (s + [x])[..|s|] == s;
  }

  lemma PrefixTotals(s: seq<Resource>, x: Resource)
    ensures forall k | 0 <= k <= |s| :: Total((s + [x])[..k]) == Total(s[..k])
    ensures Total((s + [x])[..|s| + 1]) == Total(s + [x])
  {
    hide Total;
    var all := s + [x];
    assert all[..|s| + 1] == all;
    forall k | 0 <= k <= |s|
      ensures Total(all[..k]) == Total(s[..k])
    {
      assert all[..k] == s[..k];
    }
  }

  lemma ShorterFallsShort(a: seq<Resource>, b: seq<Resource>, target: int)
    requires a <= b && FallsShort(b, target)
    ensures FallsShort(a, target)
  {
    forall k | 0 <= k <= |a|
      ensures a[..k] == b[..k]
    {
    }
  }

  /** Where the greedy loop stands before candidate i. */
  ghost predicate Selecting(ranking: seq<Resource>, i: nat, lookup: Lookup, target: int, chosen: seq<Resource>)
    requires i <= |ranking|
  {
    chosen == Owned(ranking[..i], lookup) &&
    (target <= 0 || FallsShort(chosen, target) ||
     (chosen != [] && FallsShort(chosen[..|chosen| - 1], target) && Total(chosen) >= target)) &&
    forall j | 0 <= j < i :: lookup(ranking[j].id).Some?
  }

  lemma SelectingNext(ranking: seq<Resource>, i: nat, lookup: Lookup, target: int, chosen: seq<Resource>)
    requires i < |ranking| && Selecting(ranking, i, lookup, target, chosen)
    requires !(target > 0 && Total(chosen) >= target) && lookup(ranking[i].id).Some?
    ensures var more := if OwnerOf(lookup, ranking[i].id) == "" then chosen else chosen + [ranking[i]];
            Selecting(ranking, i + 1, lookup, target, more) &&
            Total(more) == Total(chosen) + if more == chosen then 0 else ranking[i].reclaimableSize
  {
    hide OwnerOf;
    OwnedNext(ranking, i, lookup);
    FallsShortNext(chosen, ranking[i], target);
    assert (chosen + [ranking[i]])[..|chosen|] == chosen;
  }

  lemma SelectingFails(ranking: seq<Resource>, i: nat, lookup: Lookup, target: int, chosen: seq<Resource>)
    requires i < |ranking| && Selecting(ranking, i, lookup, target, chosen)
    requires !(target > 0 && Total(chosen) >= target) && lookup(ranking[i].id).None?
    ensures LookupFails(ranking, lookup, target)
  {
  }

  lemma SelectingEnds(ranking: seq<Resource>, i: nat, lookup: Lookup, target: int, chosen: seq<Resource>)
    requires i <= |ranking| && Selecting(ranking, i, lookup, target, chosen)
    requires i == |ranking| || (target > 0 && Total(chosen) >= target)
    ensures Selects(chosen, Owned(ranking, lookup), target) && !LookupFails(ranking, lookup, target)
    ensures target > 0 && Total(chosen) < target <==> target > 0 && FallsShort(Owned(ranking, lookup), target)
  {
    OwnedGrows(ranking, i, lookup);
    assert chosen[..|chosen|] == chosen;
    assert ranking[..|ranking|] == ranking;
    var owned := Owned(ranking, lookup);
    if target > 0 && Total(chosen) >= target {
      assert owned[..|chosen|] == chosen;
      forall j | i <= j < |ranking|
        ensures !FallsShort(Owned(ranking[..j], lookup), target)
      {
        OwnedGrows(ranking[..j], i, lookup);
        assert ranking[..j][..i] == ranking[..i];
        if FallsShort(Owned(ranking[..j], lookup), target) {
          ShorterFallsShort(chosen, Owned(ranking[..j], lookup), target);
        }
      }
    }
  }

  /** The selection loop of Build. */
  method SelectGreedily(ranking: seq<Resource>, lookup: Lookup, target: int, planID: string, scanID: string)
      returns (items: Option<seq<PlanItem>>, selected: int, ghost chosen: seq<Resource>)
    ensures items.None? <==> LookupFails(ranking, lookup, target)
    ensures items.Some? ==>
              Selects(chosen, Owned(ranking, lookup), target) && selected == Total(chosen) &&
              ItemsOf(items.value, chosen, lookup, planID, scanID)
    ensures items.Some? && target > 0 ==> (selected < target <==> FallsShort(Owned(ranking, lookup), target))
  {
    hide Selecting, Selects, LookupFails, FallsShort, Owned;
    var taken: seq<PlanItem> := [];
    selected, chosen := 0, [];
    SelectingStarts(ranking, lookup, target);
    var i := 0;
    while i < |ranking|
      invariant i <= |ranking| && Selecting(ranking, i, lookup, target, chosen)
      invariant selected == Total(chosen) && ItemsOf(taken, chosen, lookup, planID, scanID)
    {
      if target > 0 && selected >= target {
        break;
      }
      var owner := OwnerProjectID(lookup, ranking[i].id);
      if owner.None? {
        SelectingFails(ranking, i, lookup, target, chosen);
        return None, selected, chosen;
      }
      SelectingNext(ranking, i, lookup, target, chosen);
      if owner.value == "" {
        i := i + 1;
        continue;
      }
      taken := taken + [ItemOf(ranking[i], owner.value, planID, scanID)];
      selected, chosen := selected + ranking[i].reclaimableSize, chosen + [ranking[i]];
      i := i + 1;
    }
    SelectingEnds(ranking, i, lookup, target, chosen);
    items := Some(taken);
  }

  lemma SelectingStarts(ranking: seq<Resource>, lookup: Lookup, target: int)
    ensures Selecting(ranking, 0, lookup, target, []) && Total([]) == 0
  {
  }

  datatype Options = Options(projectRoot: Option<Path>, targetBytes: int)

  /** What Build reads: the latest scan, the resource listing, the owners; None stands for a failure. */
  datatype Sources = Sources(scanID: Option<string>, listing: Option<seq<Resource>>, lookup: Lookup)

  ghost predicate RankingOf(ranking: seq<Resource>, listing: seq<Resource>, root: Option<Path>, now: int) {
    multiset(ranking) == multiset(Seen(listing, ForPlan, root, now)) && Sorting.SortedBy(Before, ranking)
  }

  /** A plan for this selection from this ranking. */
  ghost predicate PlanFor(plan: Plan, chosen: seq<Resource>, ranking: seq<Resource>, lookup: Lookup, target: int,
                          now: int, planID: string, scanID: string)
  {
    Selects(chosen, Owned(ranking, lookup), target) && ItemsOf(plan.items, chosen, lookup, planID, scanID) &&
    plan.id == planID && plan.createdAt == At(now) && plan.targetBytes == target &&
    plan.selectedBytes == Total(chosen) &&
    (plan.status == InsufficientCandidates <==> target > 0 && FallsShort(Owned(ranking, lookup), target))
  }

  /** What Build makes of the ranked candidates: a plan of the greedy choice, or nothing at all if an owner it needs
      cannot be looked up. */
  ghost predicate Planned(result: PlanResult, listing: seq<Resource>, ranking: seq<Resource>, chosen: seq<Resource>,
                          lookup: Lookup, opts: Options, now: int, planID: string, scanID: string)
  {
    RankingOf(ranking, listing, opts.projectRoot, now) &&
    if LookupFails(ranking, lookup, opts.targetBytes) then result.PlanFailed?
    else
      result.PlanBuilt? &&
      PlanFor(result.plan, chosen, ranking, lookup, opts.targetBytes, now, planID, scanID) &&
      result.review == Seen(listing, ForReview, opts.projectRoot, now) &&
      result.blocked == Seen(listing, Excluded, opts.projectRoot, now)
  }

  method Build(sources: Sources, opts: Options, now: int, planID: Option<string>) returns (result: PlanResult)
    ensures if sources.scanID.None? || sources.listing.None? || planID.None? then result.PlanFailed?
            else exists ranking, chosen ::
              Planned(result, sources.listing.value, ranking, chosen, sources.lookup, opts, now, planID.value,
                      sources.scanID.value)
  {
    hide LookupFails, Selects, Owned, FallsShort, ItemsOf, Sorting.SortedBy, Sorting.StrictOrder, Before, Seen;
    if sources.scanID.None? || sources.listing.None? {
      return PlanFailed;
    }
    var all := InScope(sources.listing.value, opts.projectRoot, now);
    var safe, review, blocked := Partition(all, now);
    BeforeIsStrictOrder();
    safe := Sorting.Sort(Before, safe);
    if planID.None? {
      return PlanFailed;
    }
    var items, selected, chosen :=
      SelectGreedily(safe, sources.lookup, opts.targetBytes, planID.value, sources.scanID.value);
    if items.None? {
      result := PlanFailed;
      assert Planned(result, sources.listing.value, safe, chosen, sources.lookup, opts, now, planID.value,
                     sources.scanID.value);
      return;
    }
    var status := Ready;
    if opts.targetBytes > 0 && selected < opts.targetBytes {
      status := InsufficientCandidates;
    }
    result := PlanBuilt(Plan(planID.value, At(now), opts.targetBytes, selected, status, items.value), review, blocked);
    assert Planned(result, sources.listing.value, safe, chosen, sources.lookup, opts, now, planID.value,
                   sources.scanID.value);
  }

  /** The scope filter of Build. */
  method InScope(all: seq<Resource>, root: Option<Path>, now: int) returns (scoped: seq<Resource>)
    ensures forall k | k != OutOfScope :: Seen(scoped, k, None, now) == Seen(all, k, root, now)
  {
    if root.None? {
      return all;
    }
    scoped := [];
    for i := 0 to |all|
      invariant forall k | k != OutOfScope :: Seen(scoped, k, None, now) == Seen(all[..i], k, root, now)
    {
      ghost var before := scoped;
      if SameOrChild(all[i].normalizedPath, root.value) {
        scoped := scoped + [all[i]];
        assert scoped[..|before|] == before;
      }
      forall k | k != OutOfScope
        ensures Seen(scoped, k, None, now) == Seen(all[..i + 1], k, root, now)
      {
        SeenNext(all, i, k, root, now);
      }
    }
    assert all[..|all|] == all;
  }

  /** The partition of Build. */
  method Partition(all: seq<Resource>, now: int)
      returns (safe: seq<Resource>, review: seq<Resource>, blocked: seq<Resource>)
    ensures safe == Seen(all, ForPlan, None, now)
    ensures review == Seen(all, ForReview, None, now) && blocked == Seen(all, Excluded, None, now)
  {
    hide Freshened, EffectiveProfile, Eligible, Limiting;
    safe, review, blocked := [], [], [];
    for i := 0 to |all|
      invariant safe == Seen(all[..i], ForPlan, None, now)
      invariant review == Seen(all[..i], ForReview, None, now) && blocked == Seen(all[..i], Excluded, None, now)
    {
      var r := ApplyFreshness(all[i], now);
      var summary := CleanupSummary(EffectiveProfile(r));
      SeenNext(all, i, ForPlan, None, now);
      SeenNext(all, i, ForReview, None, now);
      SeenNext(all, i, Excluded, None, now);
      match r.risk
      case SAFE =>
        if summary.eligible {
          safe := safe + [r];
        } else {
          review := review + [r];
        }
      case REVIEW => review := review + [r];
      case BLOCKED => blocked := blocked + [r];
    }
    assert all[..|all|] == all;
  }

  // What a reader of plans can rely on.

  /** With sizes that are not negative, as stored ones are, a plan is INSUFFICIENT exactly when all owned candidates
      together stay below the target. */
  lemma InsufficientExactlyWhen(owned: seq<Resource>, target: int)
    requires forall r | r in owned :: r.reclaimableSize >= 0
    ensures target > 0 ==> (FallsShort(owned, target) <==> Total(owned) < target)
  {
    assert owned[..|owned|] == owned;
    forall k | 0 <= k <= |owned|
      ensures Total(owned[..k]) <= Total(owned)
    {
      TotalGrows(owned, k);
    }
  }

  lemma {:induction false} TotalGrows(s: seq<Resource>, k: nat)
    requires k <= |s| && forall r | r in s :: r.reclaimableSize >= 0
    ensures Total(s[..k]) <= Total(s)
  {
    if k < |s| {
      var n := |s| - 1;
      assert s[..n][..k] == s[..k];
      TotalGrows(s[..n], k);
    } else {
      assert s[..k] == s;
    }
  }

  ghost predicate DistinctIDs(s: seq<Resource>) {
    forall i, j | 0 <= i < j < |s| :: s[i].id != s[j].id
  }

  lemma {:induction false} SeenOfConcat(a: seq<Resource>, b: seq<Resource>, k: Category, root: Option<Path>, now: int)
    ensures Seen(a + b, k, root, now) == Seen(a, k, root, now) + Seen(b, k, root, now)
  {
    hide Placed, Freshened;
    if b == [] {
      assert a + b == a;
    } else {
      var n := |b| - 1;
      SeenOfConcat(a, b[..n], k, root, now);
      assert (a + b)[..|a| + n] == a + b[..n];
    }
  }

  /** The candidates do not depend on the order of the listing, but for their own order. */
  lemma {:induction false} SeenPermutes(a: seq<Resource>, b: seq<Resource>, k: Category, root: Option<Path>, now: int)
    requires multiset(a) == multiset(b)
    ensures multiset(Seen(a, k, root, now)) == multiset(Seen(b, k, root, now))
    decreases |a|
  {
    hide Placed, Freshened;
    if a == [] {
      assert |multiset(b)| == |b|;
    } else {
      var i := RemoveLast(a, b);
      SeenPermutes(a[..|a| - 1], b[..i] + b[i + 1..], k, root, now);
      SeenOfInsert(b[..i], b[i], b[i + 1..], k, root, now);
    }
  }

  lemma RemoveLast<T>(a: seq<T>, b: seq<T>) returns (i: nat)
    requires a != [] && multiset(a) == multiset(b)
    ensures i < |b| && b[i] == a[|a| - 1] && b == b[..i] + [b[i]] + b[i + 1..]
    ensures multiset(a[..|a| - 1]) == multiset(b[..i] + b[i + 1..])
  {
    var n := |a| - 1;
    Without(a, n);
    assert a[..n] + a[n + 1..] == a[..n];
    assert a[n] in multiset(b);
    i :| 0 <= i < |b| && b[i] == a[n];
    Without(b, i);
  }

  lemma Without<T>(s: seq<T>, i: nat)
    requires i < |s|
    ensures s == s[..i] + [s[i]] + s[i + 1..]
    ensures multiset(s[..i] + s[i + 1..]) == multiset(s) - multiset{s[i]}
  {
    assert s == s[..i] + [s[i]] + s[i + 1..];
    assert multiset(s) == multiset(s[..i]) + multiset{s[i]} + multiset(s[i + 1..]);
    assert multiset(s[..i] + s[i + 1..]) == multiset(s[..i]) + multiset(s[i + 1..]);
  }

  lemma SeenOfInsert(a: seq<Resource>, x: Resource, b: seq<Resource>, k: Category, root: Option<Path>, now: int)
    ensures multiset(Seen(a + [x] + b, k, root, now)) ==
              multiset(Seen(a + b, k, root, now)) +
              multiset(if Placed(x, root, now) == k then [Freshened(x, now)] else [])
  {
    hide Placed, Freshened;
    SeenOfConcat(a, [x], k, root, now);
    SeenOfConcat(a + [x], b, k, root, now);
    SeenOfConcat(a, b, k, root, now);
  }

  lemma {:induction false} SeenComesFrom(all: seq<Resource>, k: Category, root: Option<Path>, now: int, x: Resource)
      returns (r: Resource)
    requires x in Seen(all, k, root, now)
    ensures r in all && x == Freshened(r, now) && Placed(r, root, now) == k
  {
    var n := |all| - 1;
    if Placed(all[n], root, now) == k && x == Freshened(all[n], now) {
      r := all[n];
    } else {
      r := SeenComesFrom(all[..n], k, root, now, x);
    }
  }

  /** Distinct IDs leave the ranking no choice. */
  lemma RankingIsUnique(a: seq<Resource>, b: seq<Resource>, listing: seq<Resource>, other: seq<Resource>,
                        root: Option<Path>, now: int)
    requires DistinctIDs(listing) && multiset(listing) == multiset(other)
    requires RankingOf(a, listing, root, now) && RankingOf(b, other, root, now)
    ensures a == b
  {
    hide Sorting.StrictOrder, Before, Seen, Placed, Freshened;
    SeenPermutes(listing, other, ForPlan, root, now);
    BeforeIsStrictOrder();
    forall x, y | x in a && y in a && x != y
      ensures Before(x, y) || Before(y, x)
    {
      assert x in multiset(a) && y in multiset(a);
      var p := SeenComesFrom(listing, ForPlan, root, now, x);
      var q := SeenComesFrom(listing, ForPlan, root, now, y);
      FreshenedKeepsFields(p, now);
      FreshenedKeepsFields(q, now);
      BeforeDecides(x, y);
    }
    Sorting.SortedIsUnique(Before, a, b);
  }

  lemma FreshenedKeepsFields(r: Resource, now: int)
    ensures var s := Freshened(r, now);
            s.id == r.id && s.resourceType == r.resourceType && s.reclaimableSize == r.reclaimableSize &&
            s.lastModifiedAt == r.lastModifiedAt && s.lastObservedAt == r.lastObservedAt &&
            s.normalizedPath == r.normalizedPath
  {
  }

  /** Nothing Build decides depends on the order in which the repository lists its resources: it fails or succeeds
      alike, with one and the same plan. */
  lemma PlanIgnoresListingOrder(listing: seq<Resource>, other: seq<Resource>, lookup: Lookup,
                                opts: Options, now: int, planID: string, scanID: string,
                                ranking: seq<Resource>, chosen: seq<Resource>, result: PlanResult,
                                ranking': seq<Resource>, chosen': seq<Resource>,
                                result': PlanResult)
    requires DistinctIDs(listing) && multiset(listing) == multiset(other)
    requires Planned(result, listing, ranking, chosen, lookup, opts, now, planID, scanID)
    requires Planned(result', other, ranking', chosen', lookup, opts, now, planID, scanID)
    ensures result.PlanBuilt? <==> result'.PlanBuilt?
    ensures result.PlanBuilt? ==>
              result.plan == result'.plan && multiset(result.review) == multiset(result'.review) &&
              multiset(result.blocked) == multiset(result'.blocked)
  {
    hide RankingOf, Selects, Owned, FallsShort, LookupFails, Seen;
    RankingIsUnique(ranking, ranking', listing, other, opts.projectRoot, now);
    if result.PlanBuilt? {
      SelectsIsUnique(chosen, chosen', Owned(ranking, lookup), opts.targetBytes);
      assert result.plan.items == result'.plan.items;
      assert result.plan.status == result'.plan.status;
      SeenPermutes(listing, other, ForReview, opts.projectRoot, now);
      SeenPermutes(listing, other, Excluded, opts.projectRoot, now);
    }
  }

  lemma {:induction false} OwnedAreRanked(ranking: seq<Resource>, lookup: Lookup)
    ensures forall r | r in Owned(ranking, lookup) :: r in ranking && OwnerOf(lookup, r.id) != ""
    ensures DistinctIDs(ranking) ==> DistinctIDs(Owned(ranking, lookup))
  {
    if ranking != [] {
      OwnedAreRanked(ranking[..|ranking| - 1], lookup);
    }
  }

  /** Everything in a plan is, as seen now, SAFE, eligible, in scope and owned. */
  lemma PlannedIsSafe(listing: seq<Resource>, root: Option<Path>, now: int, lookup: Lookup,
                      target: int, planID: string, scanID: string, ranking: seq<Resource>,
                      chosen: seq<Resource>, plan: Plan, i: nat)
      returns (r: Resource)
    requires RankingOf(ranking, listing, root, now)
    requires PlanFor(plan, chosen, ranking, lookup, target, now, planID, scanID)
    requires i < |plan.items|
    ensures r in listing && Placed(r, root, now) == ForPlan && OwnerOf(lookup, r.id) != ""
    ensures plan.items[i] == ItemOf(Freshened(r, now), OwnerOf(lookup, r.id), planID, scanID)
    ensures |chosen| == |plan.items| && chosen[i] == Freshened(r, now)
    ensures r.risk == SAFE && r.lastObservedAt.At? && now - r.lastObservedAt.seconds <= 30 * DAY
    ensures root.Some? ==> SameOrChild(r.normalizedPath, root.value)
    ensures PlannedFrom(plan.items[i], r, now, planID, scanID)
    ensures lookup(r.id).Some? && FirstOwner(lookup(r.id).value, plan.items[i].ownerProjectID) &&
            plan.items[i].ownerProjectID != ""
  {
    hide Owned, Seen, Placed, Freshened, FallsShort, OwnerOf;
    var x := chosen[i];
    assert x in Owned(ranking, lookup);
    OwnedAreRanked(ranking, lookup);
    assert x in multiset(ranking);
    r := SeenComesFrom(listing, ForPlan, root, now, x);
    FreshenedKeepsFields(r, now);
    PlacedForPlan(r, root, now);
    OwnerIsFirst(lookup, r.id);
  }

  /** The item says of the resource what a later validation compares and an Execute moves. */
  predicate PlannedFrom(item: PlanItem, r: Resource, now: int, planID: string, scanID: string) {
    item.id == planID + ":" + r.id && item.resourceID == r.id && item.normalizedPath == r.normalizedPath &&
    item.expectedType == r.resourceType && item.expectedSize == r.reclaimableSize &&
    item.expectedModifiedTime == (if r.lastModifiedAt.Some? then r.lastModifiedAt.value else r.lastObservedAt) &&
    item.riskAtPlanning == SAFE && item.confidenceAtPlanning == Freshened(r, now).confidence && item.scanID == scanID
  }

  lemma OwnerIsFirst(lookup: Lookup, id: string)
    requires OwnerOf(lookup, id) != ""
    ensures lookup(id).Some? && FirstOwner(lookup(id).value, OwnerOf(lookup, id))
  {
  }

  /** Which list a resource in scope belongs to: BLOCKED ones are excluded, and for the plan are the SAFE ones whose
      observation is at most 30 days old and whose profile, as seen now, passes the gate. */
  lemma ListOf(r: Resource, root: Option<Path>, now: int)
    ensures Placed(r, root, now) == OutOfScope <==> root.Some? && !SameOrChild(r.normalizedPath, root.value)
    ensures Placed(r, root, now) != OutOfScope ==>
              (Placed(r, root, now) == Excluded <==> r.risk == BLOCKED) &&
              (Placed(r, root, now) == ForPlan <==>
                 r.risk == SAFE && r.lastObservedAt.At? && now - r.lastObservedAt.seconds <= 30 * DAY &&
                 Eligible(EffectiveProfile(Freshened(r, now))))
  {
    hide Eligible;
    AgeOnlyRaisesRisk(r, now);
  }

  lemma PlacedForPlan(r: Resource, root: Option<Path>, now: int)
    requires Placed(r, root, now) == ForPlan
    ensures r.risk == SAFE && r.lastObservedAt.At? && now - r.lastObservedAt.seconds <= 30 * DAY
    ensures root.Some? ==> SameOrChild(r.normalizedPath, root.value)
    ensures Freshened(r, now).risk == SAFE && Freshened(r, now).normalizedPath == r.normalizedPath
  {
    hide Eligible;
    ListOf(r, root, now);
    AgeOnlyRaisesRisk(r, now);
    FreshenedKeepsFields(r, now);
    hide Freshened;
  }

  /** Distinct resources are planned as distinct items. */
  lemma PlannedItemsDiffer(listing: seq<Resource>, root: Option<Path>, now: int, lookup: Lookup, target: int,
                           planID: string, scanID: string, ranking: seq<Resource>, chosen: seq<Resource>, plan: Plan,
                           i: nat, j: nat)
    requires RankingOf(ranking, listing, root, now)
    requires PlanFor(plan, chosen, ranking, lookup, target, now, planID, scanID)
    requires DistinctIDs(chosen) && i < j < |plan.items|
    ensures plan.items[i].resourceID != plan.items[j].resourceID && plan.items[i].id != plan.items[j].id
  {
    hide RankingOf, Selects, Owned, FallsShort, OwnerOf;
    var prefix := planID + ":";
    assert plan.items[i].id == prefix + chosen[i].id && plan.items[j].id == prefix + chosen[j].id;
    assert (prefix + chosen[i].id)[|prefix|..] == chosen[i].id && (prefix + chosen[j].id)[|prefix|..] == chosen[j].id;
  }

  /** Of two candidates the more confident comes first, of equally confident ones the larger, and then the one whose ID
      is lower. */
  lemma RankedBest(ranking: seq<Resource>, listing: seq<Resource>, root: Option<Path>, now: int, i: nat, j: nat)
    requires RankingOf(ranking, listing, root, now) && i < j < |ranking|
    ensures var a, b := ranking[i], ranking[j];
            a.confidence >= b.confidence &&
            (a.confidence == b.confidence ==> a.reclaimableSize >= b.reclaimableSize) &&
            (a.confidence == b.confidence && a.reclaimableSize == b.reclaimableSize ==> !StringLess(b.id, a.id))
  {
    hide Seen;
  }

  /** A resource that the last run found required is in no later plan, whatever the time, scope and target. */
  lemma RequiredIsNeverPlanned(before: ResourceService.Repository, found: seq<Resource>,
                               dependencies: seq<Orchestrator.Dependency>, after: ResourceService.Repository,
                               updated: seq<Resource>, listing: seq<Resource>, root: Option<Path>, now: int,
                               lookup: Lookup, target: int, planID: string, scanID: string, ranking: seq<Resource>,
                               chosen: seq<Resource>, plan: Plan, k: nat)
    requires Orchestrator.Settled(before, found, dependencies, |found|, after, updated)
    requires forall r | r in listing :: r.id in after && after[r.id] == r
    requires RankingOf(ranking, listing, root, now)
    requires PlanFor(plan, chosen, ranking, lookup, target, now, planID, scanID)
    requires k < |found| && Orchestrator.RequiredIn(dependencies, found[k].id)
    ensures forall i | 0 <= i < |plan.items| :: plan.items[i].resourceID != found[k].id
  {
    hide RankingOf, PlanFor, Orchestrator.RequiredIn, Freshened;
    forall i | 0 <= i < |plan.items|
      ensures plan.items[i].resourceID != found[k].id
    {
      var r := PlannedIsSafe(listing, root, now, lookup, target, planID, scanID, ranking, chosen, plan, i);
      FreshenedKeepsFields(r, now);
      AgeOnlyRaisesRisk(r, now);
      assert after[r.id] == r;
    }
  }

  /** A resource observed SAFE with a positive classification is a candidate exactly while its observation is at most
      30 days old. */
  lemma CandidateForThirtyDays(r: Resource, cleanup: CleanupEvidence, projectScoped: bool, now: int)
    requires r.risk == SAFE && r.regenerable && cleanup.Complete() && r.lastObservedAt.At?
    requires r.profile.modelVersion == 1 && r.profile.classification > 0 &&
             r.profile.dependency == r.profile.scanCoverage == 80
    requires GatesAgree(r.profile, r.regenerable, cleanup, projectScoped)
    ensures Placed(r, None, now) == ForPlan <==> now - r.lastObservedAt.seconds <= 30 * DAY
    ensures Placed(r, None, now) == ForReview <==> now - r.lastObservedAt.seconds > 30 * DAY
  {
    hide GatesAgree, CleanupEvidence.Complete, Eligible;
    SafeForThirtyDays(r, cleanup, projectScoped, now);
  }
}

/** internal/store/sqlite/cleanup_plan_repository.go: which plans the store takes. */
module PlanRepository {
  import opened Wrappers
  import opened Paths
  import opened Profiles
  import opened RiskPolicy
  import opened Freshness
  import opened Planner

  ghost predicate Acceptable(plan: Plan) {
    plan.id != "" && plan.createdAt.At? && plan.targetBytes >= 0 && plan.selectedBytes >= 0 &&
    AllComplete(plan.items) && AllDifferent(plan.items) &&
    plan.selectedBytes == TotalSize(plan.items)
  }

  predicate Complete(item: PlanItem) {
    item.id != "" && item.resourceID != "" && item.scanID != "" && item.expectedModifiedTime.At? &&
    item.expectedSize >= 0 && 0 <= item.confidenceAtPlanning <= 100 && item.riskAtPlanning == SAFE
  }

  function TotalSize(items: seq<PlanItem>): int {
    if items == [] then 0 else TotalSize(items[..|items| - 1]) + items[|items| - 1].expectedSize
  }

  /** What the loop has found out about the first n items. */
  ghost predicate Checked(items: seq<PlanItem>, n: nat, seen: set<string>, selected: int)
    requires n <= |items|
  {
    AllComplete(items[..n]) && AllDifferent(items[..n]) && selected == TotalSize(items[..n]) &&
    forall id :: id in seen <==> exists j | 0 <= j < n :: items[j].resourceID == id
  }

  ghost predicate AllComplete(items: seq<PlanItem>) {
    forall i | 0 <= i < |items| :: Complete(items[i])
  }

  ghost predicate AllDifferent(items: seq<PlanItem>) {
    forall i, j | 0 <= i < j < |items| :: items[i].resourceID != items[j].resourceID
  }

  lemma CheckedNext(items: seq<PlanItem>, n: nat, seen: set<string>, selected: int)
    requires n < |items| && Checked(items, n, seen, selected)
    ensures if Complete(items[n]) && items[n].resourceID !in seen
            then Checked(items, n + 1, seen + {items[n].resourceID}, selected + items[n].expectedSize)
            else !AllComplete(items) || !AllDifferent(items)
  {
    hide Complete;
    assert items[..n + 1] == items[..n] + [items[n]];
    assert items[..n + 1][..n] == items[..n];
    if items[n].resourceID in seen {
      var j :| 0 <= j < n && items[j].resourceID == items[n].resourceID;
      assert !AllDifferent(items);
    }
  }

  lemma CheckedEnds(items: seq<PlanItem>, seen: set<string>, selected: int)
    requires Checked(items, |items|, seen, selected)
    ensures AllComplete(items) && AllDifferent(items) && selected == TotalSize(items)
  {
    hide Complete;
    assert items[..|items|] == items;
  }

  method ValidateCleanupPlan(plan: Plan) returns (accepted: bool)
    ensures accepted <==> Acceptable(plan)
  {
    if plan.id == "" || plan.createdAt.ZeroTime? {
      return false;
    }
    if plan.targetBytes < 0 || plan.selectedBytes < 0 {
      return false;
    }
    hide Checked, AllComplete, AllDifferent, TotalSize;
    var selected := 0;
    var seen: set<string> := {};
    assert Checked(plan.items, 0, seen, selected) by {
      NothingChecked(plan.items);
    }
    for i := 0 to |plan.items|
      invariant Checked(plan.items, i, seen, selected)
    {
      CheckedNext(plan.items, i, seen, selected);
      var item := plan.items[i];
      if item.id == "" || item.resourceID == "" || item.scanID == "" || item.expectedModifiedTime.ZeroTime? {
        return false;
      }
      if item.expectedSize < 0 || item.confidenceAtPlanning < 0 || item.confidenceAtPlanning > 100 {
        return false;
      }
      if item.riskAtPlanning != SAFE {
        return false;
      }
      if item.resourceID in seen {
        return false;
      }
      seen := seen + {item.resourceID};
      selected := selected + item.expectedSize;
    }
    CheckedEnds(plan.items, seen, selected);
    return selected == plan.selectedBytes;
  }

  lemma NothingChecked(items: seq<PlanItem>)
    ensures Checked(items, 0, {}, 0)
  {
  }

  /** What validateResource lets into the store, as far as plans look at it; IDs are hashes, never empty. */
  predicate ValidResource(r: Resource) {
    r.id != "" && 0 <= r.reclaimableSize <= r.logicalSize && r.lastObservedAt.At? && 0 <= r.confidence <= 100 &&
    r.profile.Valid()
  }

  lemma FreshenedConfidence(r: Resource, now: int)
    requires ValidResource(r)
    ensures 0 <= Freshened(r, now).confidence <= 100
  {
    var p := Freshened(r, now).profile;
    forall a | a in ALL_AXES
      ensures 0 <= p.Score(a) <= 100
    {
      assert 0 <= EffectiveProfile(r).Score(a) <= 100;
    }
  }

  lemma {:induction false} TotalsAgree(items: seq<PlanItem>, chosen: seq<Resource>, lookup: Lookup, planID: string,
                                       scanID: string)
    requires ItemsOf(items, chosen, lookup, planID, scanID)
    ensures TotalSize(items) == Total(chosen)
  {
    if items != [] {
      var n := |items| - 1;
      TotalsAgree(items[..n], chosen[..n], lookup, planID, scanID);
    }
  }

  /** A modification time that is recorded but is the zero time: the planner copies it, the store refuses it. */
  predicate HasUsableTime(r: Resource) {
    r.lastModifiedAt != Some(ZeroTime)
  }

  /** The store takes a plan built from stored resources exactly when the target is not negative, the plan has an ID
      and, for each resource it selects, the scan has an ID and a recorded modification time is a real one. */
  lemma BuiltPlanIsAccepted(listing: seq<Resource>, root: Option<Path>, now: int, lookup: Lookup, target: int,
                            planID: string, scanID: string, ranking: seq<Resource>, chosen: seq<Resource>, plan: Plan)
    requires DistinctIDs(listing) && forall r | r in listing :: ValidResource(r)
    requires RankingOf(ranking, listing, root, now)
    requires PlanFor(plan, chosen, ranking, lookup, target, now, planID, scanID)
    ensures Acceptable(plan) <==>
              target >= 0 && planID != "" && (chosen != [] ==> scanID != "") &&
              forall r | r in chosen :: HasUsableTime(r)
  {
    hide RankingOf, Selects, Owned, ValidResource, Complete;
    forall i | 0 <= i < |plan.items|
      ensures 0 <= chosen[i].reclaimableSize
      ensures Complete(plan.items[i]) <==> scanID != "" && HasUsableTime(chosen[i])
    {
      var r := PlannedIsSafe(listing, root, now, lookup, target, planID, scanID, ranking, chosen, plan, i);
      ItemIsComplete(r, root, now, OwnerOf(lookup, r.id), planID, scanID);
      FreshenedKeepsFields(r, now);
    }
    ChosenAreDistinct(listing, root, now, lookup, target, ranking, chosen);
    TotalsAgree(plan.items, chosen, lookup, planID, scanID);
    TotalIsNatural(chosen);
    assert chosen != [] ==> chosen[0] in chosen;
    assert forall r | r in chosen :: exists i | 0 <= i < |chosen| :: chosen[i] == r;
  }

  /** What a caller can check beforehand: no owned candidate of the listing has such a time. Then every plan from it is
      accepted, whatever its target; and without a target this is necessary too. */
  lemma UsableTimesSuffice(listing: seq<Resource>, root: Option<Path>, now: int, lookup: Lookup, target: int,
                           planID: string, scanID: string, ranking: seq<Resource>, chosen: seq<Resource>, plan: Plan)
    requires DistinctIDs(listing) && forall r | r in listing :: ValidResource(r)
    requires RankingOf(ranking, listing, root, now)
    requires PlanFor(plan, chosen, ranking, lookup, target, now, planID, scanID)
    requires target >= 0 && planID != "" && scanID != ""
    ensures OwnedTimesUsable(listing, root, now, lookup) ==> Acceptable(plan)
    ensures target == 0 && Acceptable(plan) ==> OwnedTimesUsable(listing, root, now, lookup)
  {
    hide Selects, ValidResource, Acceptable, Placed, Freshened, OwnerOf, RankingOf;
    BuiltPlanIsAccepted(listing, root, now, lookup, target, planID, scanID, ranking, chosen, plan);
    if OwnedTimesUsable(listing, root, now, lookup) {
      forall x | x in chosen
        ensures HasUsableTime(x)
      {
        var i :| 0 <= i < |chosen| && chosen[i] == x;
        var r := PlannedIsSafe(listing, root, now, lookup, target, planID, scanID, ranking, chosen, plan, i);
        FreshenedKeepsFields(r, now);
      }
    }
    if target == 0 && Acceptable(plan) {
      EverythingChosen(chosen, Owned(ranking, lookup), target);
      forall r | r in listing && Placed(r, root, now) == ForPlan && OwnerOf(lookup, r.id) != ""
        ensures HasUsableTime(r)
      {
        CandidatesAreOwned(listing, root, now, lookup, ranking, r);
        FreshenedKeepsFields(r, now);
      }
    }
  }

  ghost predicate OwnedTimesUsable(listing: seq<Resource>, root: Option<Path>, now: int, lookup: Lookup) {
    forall r | r in listing && Placed(r, root, now) == ForPlan && OwnerOf(lookup, r.id) != "" :: HasUsableTime(r)
  }

  lemma EverythingChosen(chosen: seq<Resource>, owned: seq<Resource>, target: int)
    requires Selects(chosen, owned, target) && target <= 0
    ensures chosen == owned
  {
  }

  lemma CandidatesAreOwned(listing: seq<Resource>, root: Option<Path>, now: int, lookup: Lookup, ranking: seq<Resource>,
                           r: Resource)
    requires RankingOf(ranking, listing, root, now)
    requires r in listing && Placed(r, root, now) == ForPlan && OwnerOf(lookup, r.id) != ""
    ensures Freshened(r, now) in Owned(ranking, lookup)
  {
    hide Placed, Freshened, OwnerOf;
    var x := Freshened(r, now);
    CandidatesAreSeen(listing, root, now, r);
    FreshenedKeepsFields(r, now);
    assert x in multiset(ranking);
    RankedAreOwned(ranking, lookup, x);
  }

  lemma {:induction false} CandidatesAreSeen(all: seq<Resource>, root: Option<Path>, now: int, r: Resource)
    requires r in all && Placed(r, root, now) == ForPlan
    ensures Freshened(r, now) in Seen(all, ForPlan, root, now)
  {
    hide Placed, Freshened;
    var n := |all| - 1;
    if r != all[n] {
      CandidatesAreSeen(all[..n], root, now, r);
    }
  }

  lemma {:induction false} RankedAreOwned(ranking: seq<Resource>, lookup: Lookup, x: Resource)
    requires x in ranking && OwnerOf(lookup, x.id) != ""
    ensures x in Owned(ranking, lookup)
  {
    hide OwnerOf;
    var n := |ranking| - 1;
    if x != ranking[n] {
      RankedAreOwned(ranking[..n], lookup, x);
    }
  }

  lemma ItemIsComplete(r: Resource, root: Option<Path>, now: int, owner: string, planID: string, scanID: string)
    requires ValidResource(r) && Placed(r, root, now) == ForPlan
    ensures var item := ItemOf(Freshened(r, now), owner, planID, scanID);
            item.expectedSize >= 0 && item.resourceID == r.id &&
            (Complete(item) <==> scanID != "" && r.lastModifiedAt != Some(ZeroTime))
  {
    hide Eligible;
    FreshenedConfidence(r, now);
    FreshenedKeepsFields(r, now);
    hide Profile.Valid;
  }

  lemma TotalIsNatural(s: seq<Resource>)
    requires forall i | 0 <= i < |s| :: 0 <= s[i].reclaimableSize
    ensures Total(s) >= 0
  {
  }

  lemma ChosenAreDistinct(listing: seq<Resource>, root: Option<Path>, now: int, lookup: Lookup, target: int,
                          ranking: seq<Resource>, chosen: seq<Resource>)
    requires DistinctIDs(listing) && RankingOf(ranking, listing, root, now)
    requires Selects(chosen, Owned(ranking, lookup), target)
    ensures DistinctIDs(chosen)
  {
    hide Seen, Owned, FallsShort;
    SeenAreDistinct(listing, ForPlan, root, now);
    DistinctPermutes(Seen(listing, ForPlan, root, now), ranking);
    OwnedAreRanked(ranking, lookup);
    assert chosen == Owned(ranking, lookup)[..|chosen|];
  }

  lemma {:induction false} SeenAreDistinct(all: seq<Resource>, k: Category, root: Option<Path>, now: int)
    requires DistinctIDs(all)
    ensures DistinctIDs(Seen(all, k, root, now))
  {
    hide Freshened, Placed;
    if all != [] {
      var n := |all| - 1;
      var before := Seen(all[..n], k, root, now);
      SeenAreDistinct(all[..n], k, root, now);
      forall i | 0 <= i < |before|
        ensures before[i].id != Freshened(all[n], now).id
      {
        var r := SeenComesFrom(all[..n], k, root, now, before[i]);
        FreshenedKeepsFields(r, now);
        FreshenedKeepsFields(all[n], now);
      }
    }
  }

  lemma {:induction false} DistinctMeansOnce(s: seq<Resource>, x: Resource)
    requires DistinctIDs(s)
    ensures multiset(s)[x] <= 1
  {
    if s != [] {
      var n := |s| - 1;
      assert s == s[..n] + [s[n]];
      DistinctMeansOnce(s[..n], x);
      assert s[n] !in s[..n];
    }
  }

  lemma DistinctPermutes(a: seq<Resource>, b: seq<Resource>)
    requires DistinctIDs(a) && multiset(a) == multiset(b)
    ensures DistinctIDs(b)
  {
    forall i, j | 0 <= i < j < |b|
      ensures b[i].id != b[j].id
    {
      assert b[i] in multiset(a) && b[j] in multiset(a);
      DistinctMeansOnce(a, b[i]);
      assert b == b[..j] + b[j..] && b[i] in b[..j] && b[j] in b[j..];
      assert b[i] != b[j];
      var p :| 0 <= p < |a| && a[p] == b[i];
      var q :| 0 <= q < |a| && a[q] == b[j];
    }
  }

  /** A plan that the planner makes and the store refuses. */
  lemma ZeroModificationTimeIsRefused()
    ensures var r := Resource("r", NodeModules, ["node_modules"], 1, true, 1, true, false, Some(ZeroTime), At(0), 100,
                              LegacyProfile(100), SAFE, Assessment(SAFE, AutoQuarantine, 30, 10, 100, 0, []));
            ValidResource(r) && Placed(r, None, 0) == ForPlan &&
            forall owner, planID, scanID :: !Complete(ItemOf(Freshened(r, 0), owner, planID, scanID))
  {
    hide Complete, Freshened, Eligible;
    var r := Resource("r", NodeModules, ["node_modules"], 1, true, 1, true, false, Some(ZeroTime), At(0), 100,
                      LegacyProfile(100), SAFE, Assessment(SAFE, AutoQuarantine, 30, 10, 100, 0, []));
    forall owner, planID, scanID
      ensures !Complete(ItemOf(Freshened(r, 0), owner, planID, scanID))
    {
      ZeroTimeIsIncomplete(r, 0, owner, planID, scanID);
    }
    FreshAndEligible(r);
  }

  lemma FreshAndEligible(r: Resource)
    requires r.risk == SAFE && r.lastObservedAt == At(0) && r.profile == LegacyProfile(100)
    ensures Freshened(r, 0).risk == SAFE && Eligible(Freshened(r, 0).profile)
  {
  }

  lemma ZeroTimeIsIncomplete(r: Resource, now: int, owner: string, planID: string, scanID: string)
    requires r.lastModifiedAt == Some(ZeroTime)
    ensures !Complete(ItemOf(Freshened(r, now), owner, planID, scanID))
  {
    FreshenedKeepsFields(r, now);
    hide Freshened;
  }
}

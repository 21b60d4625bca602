/** internal/domain/risk_assessment.go and AssessAxis: confidence per axis, and what a cleanup asks of it. */
module Profiles {
  import opened Wrappers
  import opened Evidence
  import opened ConfidenceClaims

  datatype Axis = Classification | Ownership | Dependency | Regenerability | PathSafety | ScanCoverage | Freshness

  datatype AxisAssessment = AxisAssessment(axis: Axis, score: int, status: Status, limitingClaim: Option<ClaimType>,
                                           claims: seq<ClaimAssessment>)

  datatype Profile = Profile(modelVersion: int, classification: int, ownership: int, dependency: int,
                             regenerability: int, pathSafety: int, scanCoverage: int, freshness: int,
                             assessments: seq<AxisAssessment>, notApplicable: seq<Axis>) {
    predicate Applicable(axis: Axis) {
      axis !in notApplicable
    }

    function Score(axis: Axis): int {
      match axis
      case Classification => classification
      case Ownership => ownership
      case Dependency => dependency
      case Regenerability => regenerability
      case PathSafety => pathSafety
      case ScanCoverage => scanCoverage
      case Freshness => freshness
    }

    predicate IsZero() {
      modelVersion == 0 && classification == 0 && ownership == 0 && dependency == 0 && regenerability == 0 &&
      pathSafety == 0 && scanCoverage == 0 && freshness == 0 && assessments == []
    }

    predicate Valid() {
      modelVersion >= 0 && (forall a | a in ALL_AXES :: 0 <= Score(a) <= 100) &&
      forall x | x in assessments :: 0 <= x.score <= 100 && forall c | c in x.claims :: 0 <= c.score <= 100
    }
  }

  const ALL_AXES := [Classification, Ownership, Dependency, Regenerability, PathSafety, ScanCoverage, Freshness]

  const CLEANUP_AXES := [Ownership, Regenerability, PathSafety, ScanCoverage, Freshness]

  /** The first of the axes that apply whose score no other undercuts. */
  function Limiting(p: Profile, axes: seq<Axis>): (r: Option<Axis>)
    ensures r.None? <==> forall a | a in axes :: !p.Applicable(a)
    ensures r.Some? ==> r.value in axes && p.Applicable(r.value)
    ensures r.Some? ==> forall a | a in axes && p.Applicable(a) :: p.Score(r.value) <= p.Score(a)
  {
    if axes == [] then None else
      var n := |axes| - 1;
      var before := Limiting(p, axes[..n]);
      assert axes == axes[..n] + [axes[n]];
      if p.Applicable(axes[n]) && (before.None? || p.Score(axes[n]) < p.Score(before.value)) then Some(axes[n])
      else before
  }

  /** Among equals it is the first: every applicable axis before it scores higher. */
  lemma {:induction false} LimitingIsFirst(p: Profile, axes: seq<Axis>) returns (i: nat)
    requires Limiting(p, axes).Some?
    ensures i < |axes| && axes[i] == Limiting(p, axes).value
    ensures forall j | 0 <= j < i && p.Applicable(axes[j]) :: p.Score(axes[i]) < p.Score(axes[j])
  {
    var n := |axes| - 1;
    var before := Limiting(p, axes[..n]);
    if before.Some? && Limiting(p, axes) == before {
      i := LimitingIsFirst(p, axes[..n]);
    } else {
      i := n;
      assert forall j | 0 <= j < n :: axes[j] in axes[..n];
    }
  }

  /** The lowest score among the axes that apply. */
  function OverallOf(p: Profile): (r: int)
    ensures forall a | a in ALL_AXES && p.Applicable(a) :: r <= p.Score(a)
    ensures (exists a | a in ALL_AXES :: p.Applicable(a) && r == p.Score(a)) ||
            (r == 100 && forall a | a in ALL_AXES :: !p.Applicable(a))
  {
    match Limiting(p, ALL_AXES)
    case None => 100
    case Some(a) => p.Score(a)
  }

  lemma LimitingNext(p: Profile, axes: seq<Axis>, i: nat)
    requires i <= |axes|
    ensures Limiting(p, axes[..0]).None?
    ensures i < |axes| ==>
              var before := Limiting(p, axes[..i]);
              Limiting(p, axes[..i + 1]) ==
                if p.Applicable(axes[i]) && (before.None? || p.Score(axes[i]) < p.Score(before.value))
                then Some(axes[i]) else before
  {
    if i < |axes| {
      assert axes[..i + 1][..i] == axes[..i];
    }
  }

  method Overall(p: Profile) returns (overall: int)
    ensures overall == OverallOf(p)
  {
    hide Limiting;
    overall := 100;
    var found := false;
    LimitingNext(p, ALL_AXES, 0);
    for i := 0 to |ALL_AXES|
      invariant found == Limiting(p, ALL_AXES[..i]).Some?
      invariant overall == if found then p.Score(Limiting(p, ALL_AXES[..i]).value) else 100
    {
      LimitingNext(p, ALL_AXES, i);
      if !p.Applicable(ALL_AXES[i]) {
        continue;
      }
      if !found || p.Score(ALL_AXES[i]) < overall {
        overall := p.Score(ALL_AXES[i]);
        found := true;
      }
    }
    assert ALL_AXES[..|ALL_AXES|] == ALL_AXES;
  }

  /** The gate of automatic planning. */
  predicate Eligible(p: Profile) {
    p.classification > 0 && p.dependency >= 80 && p.freshness >= 80 &&
    (!p.Applicable(Ownership) || p.ownership >= 90) &&
    (!p.Applicable(Regenerability) || p.regenerability >= 90) &&
    (!p.Applicable(PathSafety) || p.pathSafety >= 90) &&
    (!p.Applicable(ScanCoverage) || p.scanCoverage >= 80)
  }

  datatype Summary = Summary(overall: int, status: Status, limitingAxis: Axis, eligible: bool)

  method CleanupSummary(p: Profile) returns (s: Summary)
    ensures s.eligible == Eligible(p)
    ensures match Limiting(p, CLEANUP_AXES)
            case None => s.overall == 100 && s.limitingAxis == Ownership
            case Some(a) => s.overall == p.Score(a) && s.limitingAxis == a
    ensures s.status == if p.modelVersion == 0 || p.assessments == [] then Partial else Known
  {
    hide Limiting, Profile.Applicable, Profile.Score;
    s := Summary(100, Known, Ownership, false);
    var found := false;
    LimitingNext(p, CLEANUP_AXES, 0);
    for i := 0 to |CLEANUP_AXES|
      invariant s.status == Known && found == Limiting(p, CLEANUP_AXES[..i]).Some?
      invariant if found then
                  s.limitingAxis == Limiting(p, CLEANUP_AXES[..i]).value && s.overall == p.Score(s.limitingAxis)
                else s.limitingAxis == Ownership && s.overall == 100
    {
      var axis := CLEANUP_AXES[i];
      LimitingNext(p, CLEANUP_AXES, i);
      if !p.Applicable(axis) {
        continue;
      }
      if !found || p.Score(axis) < s.overall {
        s := s.(overall := p.Score(axis), limitingAxis := axis);
        found := true;
      }
    }
    assert CLEANUP_AXES[..|CLEANUP_AXES|] == CLEANUP_AXES;
    if p.modelVersion == 0 || |p.assessments| == 0 {
      s := s.(status := Partial);
    }
    s := s.(eligible := p.classification > 0 && p.dependency >= 80 && p.freshness >= 80 &&
                        (!p.Applicable(Ownership) || p.ownership >= 90) &&
                        (!p.Applicable(Regenerability) || p.regenerability >= 90) &&
                        (!p.Applicable(PathSafety) || p.pathSafety >= 90) &&
                        (!p.Applicable(ScanCoverage) || p.scanCoverage >= 80));
  }

  /** An eligible profile has every applicable cleanup axis at the lower threshold at least. */
  lemma EligibleMeansHighSummary(p: Profile)
    requires Eligible(p)
    ensures match Limiting(p, CLEANUP_AXES) case None => true case Some(a) => p.Score(a) >= 80
  {
  }

  /** The summary is about the five axes of a cleanup, and of equally low ones names the first. */
  lemma WeakestOfFive(p: Profile, a: Axis)
    requires p.Applicable(a) && a !in {Classification, Dependency}
    ensures Limiting(p, CLEANUP_AXES).Some?
    ensures var weakest := Limiting(p, CLEANUP_AXES).value;
            weakest !in {Classification, Dependency} && p.Score(weakest) <= p.Score(a) &&
            (p.Score(weakest) == p.Score(a) ==> Position(weakest) <= Position(a))
  {
    assert CLEANUP_AXES[0] == Ownership && CLEANUP_AXES[1] == Regenerability && CLEANUP_AXES[2] == PathSafety &&
           CLEANUP_AXES[3] == ScanCoverage && CLEANUP_AXES[4] == Freshness;
    assert CLEANUP_AXES[Position(a)] == a && a in CLEANUP_AXES;
    hide Limiting;
    var i := LimitingIsFirst(p, CLEANUP_AXES);
    assert Position(CLEANUP_AXES[i]) == i;
  }

  function Position(axis: Axis): nat {
    match axis
    case Ownership => 0
    case Regenerability => 1
    case PathSafety => 2
    case ScanCoverage => 3
    case Freshness => 4
    case _ => 5
  }

  /** The zero profile has no version, no assessments, and no score on any axis; its exemptions do not matter. */
  lemma ZeroExactlyWhen(p: Profile)
    ensures p.IsZero() <==>
              p.modelVersion == 0 && p.assessments == [] && forall a | a in ALL_AXES :: p.Score(a) == 0
  {
    assert forall a: Axis :: a in ALL_AXES by {
      forall a: Axis
        ensures a in ALL_AXES
      {
        IsAnAxis(a);
      }
    }
    assert p.Score(Classification) == p.classification && p.Score(Ownership) == p.ownership &&
           p.Score(Dependency) == p.dependency && p.Score(Regenerability) == p.regenerability &&
           p.Score(PathSafety) == p.pathSafety && p.Score(ScanCoverage) == p.scanCoverage &&
           p.Score(Freshness) == p.freshness;
  }

  /** What an axis has to score for automatic planning, where it applies. */
  function Threshold(axis: Axis): int {
    match axis
    case Classification => 1
    case Ownership => 90
    case Dependency => 80
    case Regenerability => 90
    case PathSafety => 90
    case ScanCoverage => 80
    case Freshness => 80
  }

  /** The gate is closed as soon as one axis is below its threshold, whatever the others score; only the three claims
      about the resource itself, and the scan, can be exempt from it. */
  lemma BelowTheGate(p: Profile, axis: Axis)
    requires p.Score(axis) < Threshold(axis)
    requires p.Applicable(axis) || axis in {Classification, Dependency, Freshness}
    ensures !Eligible(p)
  {
  }

  /** It is open to whoever is just at the thresholds ... */
  lemma AtTheGate(claims: seq<AxisAssessment>, exempt: seq<Axis>)
    ensures Eligible(Profile(1, 1, 90, 80, 90, 90, 80, 80, claims, exempt))
  {
  }

  /** ... or above them, and for exempt axes whatever they score. */
  lemma AboveTheGate(p: Profile, q: Profile)
    requires Eligible(p) && forall a | a in p.notApplicable :: a in q.notApplicable
    requires forall a | a in ALL_AXES && a !in {Ownership, Regenerability, PathSafety, ScanCoverage} ::
               p.Score(a) <= q.Score(a)
    requires forall a | a in ALL_AXES && q.Applicable(a) :: p.Score(a) <= q.Score(a)
    ensures Eligible(q)
  {
    forall a: Axis
      ensures q.Applicable(a) || a in {Classification, Dependency, Freshness} ==> p.Score(a) <= q.Score(a)
    {
      IsAnAxis(a);
    }
    assert p.Score(Classification) <= q.Score(Classification) && p.Score(Dependency) <= q.Score(Dependency) &&
           p.Score(Freshness) <= q.Score(Freshness);
  }

  lemma IsAnAxis(a: Axis)
    ensures a in ALL_AXES
  {
    assert ALL_AXES[0] == Classification && ALL_AXES[1] == Ownership && ALL_AXES[2] == Dependency &&
           ALL_AXES[3] == Regenerability && ALL_AXES[4] == PathSafety && ALL_AXES[5] == ScanCoverage &&
           ALL_AXES[6] == Freshness;
  }

  /** The overall score is the lowest of the scores a profile states, exempt ones aside. */
  lemma OverallIsLowest(p: Profile)
    ensures p.notApplicable == [] ==>
              OverallOf(p) <= p.classification && OverallOf(p) <= p.ownership && OverallOf(p) <= p.dependency &&
              OverallOf(p) <= p.regenerability && OverallOf(p) <= p.pathSafety && OverallOf(p) <= p.scanCoverage &&
              OverallOf(p) <= p.freshness &&
              OverallOf(p) in {p.classification, p.ownership, p.dependency, p.regenerability, p.pathSafety,
                               p.scanCoverage, p.freshness}
    ensures p.notApplicable == [Ownership, Regenerability, PathSafety] ==>
              OverallOf(p) <= p.classification && OverallOf(p) <= p.dependency && OverallOf(p) <= p.scanCoverage &&
              OverallOf(p) <= p.freshness &&
              OverallOf(p) in {p.classification, p.dependency, p.scanCoverage, p.freshness}
  {
    hide Limiting;
    forall a: Axis
      ensures a in ALL_AXES
    {
      IsAnAxis(a);
    }
    assert p.Score(Classification) == p.classification && p.Score(Ownership) == p.ownership &&
           p.Score(Dependency) == p.dependency && p.Score(Regenerability) == p.regenerability &&
           p.Score(PathSafety) == p.pathSafety && p.Score(ScanCoverage) == p.scanCoverage &&
           p.Score(Freshness) == p.freshness;
    assert p.notApplicable == [] || p.notApplicable == [Ownership, Regenerability, PathSafety] ==>
             p.Applicable(Classification);
  }

  // AssessAxis.

  /** How bad a status is for an axis: conflict before ignorance before partial knowledge. */
  function Rank(s: Status): nat {
    match s
    case Conflicted => 3
    case Unknown => 2
    case Partial => 1
    case _ => 0
  }

  /** Claim i is the first of the weakest. */
  predicate Weakest(r: AxisAssessment, required: seq<ClaimType>, claim: ClaimType, i: nat)
    requires i < |required| == |r.claims|
  {
    required[i] == claim && r.score == r.claims[i].score && forall j | 0 <= j < i :: r.score < r.claims[j].score
  }

  /** An axis is as good as the weakest of the claims it requires, and as doubtful as the most doubtful. */
  ghost predicate LimitedBy(r: AxisAssessment, required: seq<ClaimType>, evidence: seq<Item>, now: int) {
    |r.claims| == |required| &&
    (forall i | 0 <= i < |required| ::
       r.claims[i] == Assessed(required[i], evidence, now) && r.score <= r.claims[i].score &&
       Rank(r.claims[i].status) <= Rank(r.status)) &&
    (match r.limitingClaim
     case Some(c) => exists i | 0 <= i < |required| :: Weakest(r, required, c, i)
     case None => r.score == 100) &&
    (r.status == Known || exists i | 0 <= i < |required| :: r.claims[i].status == r.status)
  }

  method AssessAxis(axis: Axis, required: seq<ClaimType>, evidence: seq<Item>, now: int) returns (r: AxisAssessment)
    ensures r.axis == axis
    ensures if required == [] then r == AxisAssessment(axis, 0, Unknown, None, [])
            else LimitedBy(r, required, evidence, now)
  {
    hide Assessed;
    r := AxisAssessment(axis, 100, Known, None, []);
    for i := 0 to |required|
      invariant r.axis == axis && r.status in {Known, Partial, Unknown, Conflicted}
      invariant LimitedBy(r, required[..i], evidence, now)
    {
      var claim := required[i];
      assert required[..i + 1] == required[..i] + [claim];
      var assessment := AssessClaim(claim, evidence, now);
      AssessedStatus(claim, evidence, now);
      ghost var before := r;
      r := r.(claims := r.claims + [assessment]);
      if assessment.score < r.score {
        r := r.(score := assessment.score, limitingClaim := Some(claim));
      }
      if assessment.status == Conflicted {
        r := r.(status := Conflicted);
      } else if assessment.status == Unknown && r.status != Conflicted {
        r := r.(status := Unknown);
      } else if assessment.status == Partial && r.status == Known {
        r := r.(status := Partial);
      }
      LimitedByOneMore(before, r, required[..i], claim, evidence, now);
    }
    assert required[..|required|] == required;
    if |required| == 0 {
      r := r.(score := 0, status := Unknown);
    }
  }

  predicate Occurs(status: Status, claims: seq<ClaimAssessment>) {
    exists i | 0 <= i < |claims| :: claims[i].status == status
  }

  /** One conflicting claim makes the axis conflicting; failing that, one unknown claim makes it unknown, and failing
      that, one partial claim partial. */
  lemma MostDoubtful(r: AxisAssessment, required: seq<ClaimType>, evidence: seq<Item>, now: int)
    requires LimitedBy(r, required, evidence, now)
    ensures r.status in {Known, Partial, Unknown, Conflicted}
    ensures r.status == Conflicted <==> Occurs(Conflicted, r.claims)
    ensures r.status == Unknown <==> Occurs(Unknown, r.claims) && !Occurs(Conflicted, r.claims)
    ensures r.status == Partial <==>
              Occurs(Partial, r.claims) && !Occurs(Unknown, r.claims) && !Occurs(Conflicted, r.claims)
  {
    hide Assessed, Weakest;
    if r.status != Known {
      var i :| 0 <= i < |required| && r.claims[i].status == r.status;
      AssessedStatus(required[i], evidence, now);
    }
  }

  lemma AssessedStatus(claim: ClaimType, evidence: seq<Item>, now: int)
    ensures Assessed(claim, evidence, now).status in {Known, Partial, Unknown, Conflicted}
  {
    hide Families, Contradicted, Stale, HasUnknown;
  }

  lemma LimitedByOneMore(before: AxisAssessment, after: AxisAssessment, required: seq<ClaimType>, claim: ClaimType,
                         evidence: seq<Item>, now: int)
    requires LimitedBy(before, required, evidence, now)
    requires var a := Assessed(claim, evidence, now);
             after.claims == before.claims + [a] &&
             (if a.score < before.score then after.score == a.score && after.limitingClaim == Some(claim)
              else after.score == before.score && after.limitingClaim == before.limitingClaim) &&
             after.status == (if Rank(a.status) > Rank(before.status) then a.status else before.status)
    ensures LimitedBy(after, required + [claim], evidence, now)
  {
    hide Assessed, Rank;
    var a, all, n := Assessed(claim, evidence, now), required + [claim], |required|;
    assert all[n] == claim && after.claims[n] == a;
    forall i | 0 <= i < n
      ensures after.claims[i] == before.claims[i] && all[i] == required[i]
    {
    }
    if a.score < before.score {
      assert Weakest(after, all, claim, n);
    } else if before.limitingClaim.Some? {
      var i :| 0 <= i < n && Weakest(before, required, before.limitingClaim.value, i);
      assert after.score == before.score ==> Weakest(after, all, before.limitingClaim.value, i);
    }
    if i :| 0 <= i < n && before.claims[i].status == before.status {
      assert after.claims[i].status == before.status;
    }
  }
}

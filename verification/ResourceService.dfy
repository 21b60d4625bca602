/** internal/app/confidence.go: what age does to an observation. */
module Freshness {
  import opened Wrappers
  import opened Profiles
  import opened RiskPolicy

  const DAY := 86400
  const MINIMUM_AUTO_FRESHNESS := 80

  function FreshnessScore(observedAt: Time, now: int): int {
    match observedAt
    case ZeroTime => 0
    case At(t) =>
      var age := now - t;
      if age < 0 || age <= 7 * DAY then 100
      else if age <= 30 * DAY then 80
      else if age <= 90 * DAY then 50
      else 20
  }

  function LegacyProfile(confidence: int): Profile {
    Profile(0, confidence, confidence, confidence, confidence, confidence, confidence, confidence, [], [])
  }

  function FreshAssessment(a: AxisAssessment, freshness: int): AxisAssessment {
    if a.axis != Axis.Freshness then a
    else a.(score := freshness, status := if freshness < MINIMUM_AUTO_FRESHNESS then Evidence.Partial else a.status)
  }

  function FreshAssessments(assessments: seq<AxisAssessment>, freshness: int): (r: seq<AxisAssessment>)
    ensures |r| == |assessments|
    ensures forall i | 0 <= i < |r| :: r[i] == FreshAssessment(assessments[i], freshness)
  {
    seq(|assessments|, i requires 0 <= i < |assessments| => FreshAssessment(assessments[i], freshness))
  }

  function EffectiveProfile(r: Resource): Profile {
    if r.profile.IsZero() && r.confidence > 0 then LegacyProfile(r.confidence) else r.profile
  }

  /** The resource as it is to be seen at a given time. */
  function Freshened(r: Resource, now: int): Resource {
    var freshness := FreshnessScore(r.lastObservedAt, now);
    var p := EffectiveProfile(r);
    var profile := p.(freshness := freshness, assessments := FreshAssessments(p.assessments, freshness));
    var stale := r.risk == SAFE && freshness < MINIMUM_AUTO_FRESHNESS;
    r.(profile := profile, confidence := OverallOf(profile),
       risk := if stale then REVIEW else r.risk,
       assessment := if stale then r.assessment.(reasons := r.assessment.reasons + [EvidenceStale]) else r.assessment)
  }

  method ApplyFreshness(resource: Resource, now: int) returns (r: Resource)
    ensures r == Freshened(resource, now)
  {
    r := resource;
    if r.profile.IsZero() && r.confidence > 0 {
      r := r.(profile := LegacyProfile(r.confidence));
    }
    r := r.(profile := r.profile.(freshness := FreshnessScore(r.lastObservedAt, now)));
    ghost var assessments := r.profile.assessments;
    for i := 0 to |r.profile.assessments|
      invariant |r.profile.assessments| == |assessments|
      invariant var score := FreshnessScore(resource.lastObservedAt, now);
                r == resource.(profile := EffectiveProfile(resource).(freshness := score,
                                                                      assessments := r.profile.assessments))
      invariant forall j | 0 <= j < i ::
                  r.profile.assessments[j] == FreshAssessment(assessments[j], r.profile.freshness)
      invariant forall j | i <= j < |assessments| :: r.profile.assessments[j] == assessments[j]
    {
      var a := r.profile.assessments[i];
      if a.axis == Axis.Freshness {
        a := a.(score := r.profile.freshness);
        if r.profile.freshness < MINIMUM_AUTO_FRESHNESS {
          a := a.(status := Evidence.Partial);
        }
        r := r.(profile := r.profile.(assessments := r.profile.assessments[i := a]));
      }
    }
    assert r.profile.assessments == FreshAssessments(assessments, r.profile.freshness);
    var overall := Overall(r.profile);
    r := r.(confidence := overall);
    if r.risk == SAFE && r.profile.freshness < MINIMUM_AUTO_FRESHNESS {
      r := r.(risk := REVIEW, assessment := r.assessment.(reasons := r.assessment.reasons + [EvidenceStale]));
    }
  }

  /** Age only ever takes away: never from REVIEW or BLOCKED, and from SAFE exactly when the observation is missing
      or more than 30 days old. */
  lemma AgeOnlyRaisesRisk(r: Resource, now: int)
    ensures Severity(r.risk) <= Severity(Freshened(r, now).risk)
    ensures r.risk != SAFE ==> Freshened(r, now).risk == r.risk
    ensures r.risk == SAFE ==>
              (Freshened(r, now).risk == SAFE <==> r.lastObservedAt.At? && now - r.lastObservedAt.seconds <= 30 * DAY)
  {
  }

  /** What an observation of a given age is worth: a week in full, a month enough for automatic planning, a quarter
      half, and no observation nothing. One from the future counts as new. */
  lemma WorthByAge(observed: int, age: int)
    ensures var score := FreshnessScore(At(observed), observed + age);
            (score == 100 <==> age <= 7 * 24 * 3600) && (score >= 80 <==> age <= 30 * 24 * 3600) &&
            (score >= 50 <==> age <= 90 * 24 * 3600) && score in {100, 80, 50, 20}
    ensures FreshnessScore(ZeroTime, observed) == 0
  {
  }

  /** All that the view of a resource changes, age apart: a profile that is empty but for a legacy confidence scores
      that confidence on every axis, freshness is scored, and the overall confidence follows; a SAFE verdict that is too
      old becomes REVIEW, for that reason. */
  lemma ViewAt(r: Resource, now: int)
    ensures var s, score := Freshened(r, now), FreshnessScore(r.lastObservedAt, now);
            s.profile.freshness == score && s.confidence == OverallOf(s.profile) &&
            s.profile.notApplicable ==
              (if r.profile.IsZero() && r.confidence > 0 then [] else r.profile.notApplicable) &&
            s.profile.modelVersion == r.profile.modelVersion &&
            (forall a | a in ALL_AXES && a != Axis.Freshness ::
               s.profile.Score(a) ==
                 if r.profile.IsZero() && r.confidence > 0 then r.confidence else r.profile.Score(a)) &&
            s == r.(profile := s.profile, confidence := s.confidence, risk := s.risk, assessment := s.assessment) &&
            s.assessment == if r.risk == SAFE && s.risk != SAFE
                            then r.assessment.(reasons := r.assessment.reasons + [EvidenceStale]) else r.assessment
  {
  }

  /** Of the assessments only those of freshness change, to the new score; below 80 they are partial. */
  lemma AssessmentsAt(r: Resource, now: int, i: nat)
    requires i < |r.profile.assessments|
    ensures var a, score := r.profile.assessments[i], FreshnessScore(r.lastObservedAt, now);
            |Freshened(r, now).profile.assessments| == |r.profile.assessments| &&
            Freshened(r, now).profile.assessments[i] ==
              if a.axis != Axis.Freshness then a
              else a.(score := score, status := if score < 80 then Evidence.Partial else a.status)
  {
  }

  lemma FreshnessOnlyFades(observedAt: Time, now: int, later: int)
    requires now <= later
    ensures FreshnessScore(observedAt, later) <= FreshnessScore(observedAt, now)
  {
  }

  /** Never observed, and a profile that is empty, freshness aside, but for the axes it declares not applicable. */
  predicate NothingButExemptions(r: Resource) {
    r.lastObservedAt.ZeroTime? && r.profile.(freshness := 0).IsZero() && !(r.profile.IsZero() && r.confidence > 0) &&
    forall a | a in ALL_AXES :: !r.profile.Applicable(a)
  }

  lemma NothingButExemptionsExists()
    ensures var p := Profile(0, 0, 0, 0, 0, 0, 0, 0, [], ALL_AXES);
            NothingButExemptions(Resource("r", NodeModules, ["node_modules"], 1, true, 0, true, false, None, ZeroTime,
                                          0, p, REVIEW, Assessment(REVIEW, AutoQuarantine, 30, 10, 100, 0, [])))
  {
  }

  /** Seeing a resource as of one time twice is the same as once, except for one kind of resource: with an empty
      profile, no observation and every axis exempt, the first view claims confidence 100 and the second
      takes that for legacy confidence. */
  lemma IdempotentUnlessEmpty(r: Resource, now: int)
    ensures Freshened(Freshened(r, now), now) == Freshened(r, now) <==> !NothingButExemptions(r)
  {
    var s := Freshened(r, now);
    var again := Freshened(s, now);
    FreshTwice(EffectiveProfile(r).assessments, s.profile.freshness);
    if NothingButExemptions(r) {
      assert s.confidence == 100 && s.profile.IsZero();
      assert Classification in ALL_AXES && !s.profile.Applicable(Classification);
      assert again.profile.Applicable(Classification);
    } else {
      assert !(s.profile.IsZero() && s.confidence > 0) by {
        OverallOfZero(s.profile);
      }
    }
  }

  lemma FreshTwice(assessments: seq<AxisAssessment>, freshness: int)
    ensures FreshAssessments(FreshAssessments(assessments, freshness), freshness) ==
              FreshAssessments(assessments, freshness)
    ensures assessments == [] <==> FreshAssessments(assessments, freshness) == []
  {
  }

  lemma OverallOfZero(p: Profile)
    ensures p.IsZero() && OverallOf(p) > 0 ==> forall a | a in ALL_AXES :: !p.Applicable(a)
  {
    if p.IsZero() {
      forall a | a in ALL_AXES
        ensures p.Score(a) == 0
      {
      }
    }
  }

  /** What a stored resource always has rules the exception out. */
  lemma StoredResourcesAreIdempotent(r: Resource, now: int)
    requires r.lastObservedAt.At?
    ensures Freshened(Freshened(r, now), now) == Freshened(r, now)
  {
    IdempotentUnlessEmpty(r, now);
  }
}

/** internal/app/resource_service.go: observing one resource, and seeing it again once a project needs it. */
module ResourceService {
  import opened Wrappers
  import opened Evidence
  import opened Profiles
  import opened RiskPolicy
  import opened Freshness

  const MINIMUM_AUTO_DEPENDENCY := 80
  const MINIMUM_AUTO_COVERAGE := 80

  const EXEMPT_AXES := [Ownership, Regenerability, PathSafety]

  function ConfidenceEvidence(id: string, claim: ClaimType, fact: Verification): Item {
    var e := Item(id, claim, UnknownKind, Unstated, "", id, None);
    match fact
    case VerifiedTrue => e.(kind := EvidenceKind.Resolved, polarity := Supports)
    case VerifiedFalse => e.(kind := EvidenceKind.Resolved, polarity := Contradicts)
    case _ => e
  }

  function ScalarAssessment(axis: Axis, score: int, status: Status): AxisAssessment {
    AxisAssessment(axis, score, status, None, [])
  }

  const PROJECT_CLAIMS := [ProjectOwnership, OutputDeclared, PathNotLinked, NoTrackedOriginals, BuildCommandKnown,
                           InputsAvailable, ToolchainAvailable]

  /** The one item of evidence each claim of a project resource rests on. */
  function ProjectEvidence(regenerable: bool, cleanup: CleanupEvidence): (r: seq<Item>)
    ensures |r| == 7 && forall i | 0 <= i < 7 :: r[i].claim == PROJECT_CLAIMS[i] && r[i].validUntil == None
    ensures forall i | 4 <= i < 7 ::
              (Supporting(r[i].claim, r[i]) <==> regenerable) && (regenerable ==> r[i].kind == EvidenceKind.Resolved)
  {
    var v := cleanup.Normalize();
    var kind := if regenerable then EvidenceKind.Resolved else UnknownKind;
    [ConfidenceEvidence("ownership", ProjectOwnership, v.projectOwned),
     ConfidenceEvidence("output", OutputDeclared, v.knownOutputPath),
     ConfidenceEvidence("path-link", PathNotLinked, v.reparsePointFree),
     ConfidenceEvidence("tracked-originals", NoTrackedOriginals, v.gitTrackedOriginalsAbsent),
     Item("resource:BUILD_COMMAND_KNOWN", BuildCommandKnown, kind, Unstated, "", "resource-detector", None),
     Item("resource:INPUTS_AVAILABLE", InputsAvailable, kind, Unstated, "", "resource-detector", None),
     Item("resource:TOOLCHAIN_AVAILABLE", ToolchainAvailable, kind, Unstated, "", "resource-detector", None)]
  }

  const REGENERABILITY_CLAIMS := [OutputDeclared, BuildCommandKnown, InputsAvailable, ToolchainAvailable]
  const PATH_SAFETY_CLAIMS := [PathNotLinked, NoTrackedOriginals]

  const ASSESSED_AXES := [Classification, Dependency, ScanCoverage, Axis.Freshness, Ownership, Regenerability,
                          PathSafety]

  /** Every axis is assessed once, with the score the profile states; what is exempt is not applicable. */
  predicate AssessedOnce(p: Profile, projectScoped: bool) {
    |p.assessments| == 7 &&
    (forall i | 0 <= i < 7 ::
       p.assessments[i].axis == ASSESSED_AXES[i] && p.assessments[i].score == p.Score(ASSESSED_AXES[i])) &&
    p.assessments[0].status == p.assessments[3].status == Known &&
    p.assessments[1].status == p.assessments[2].status == Evidence.Partial &&
    (forall i | 0 <= i < (if projectScoped then 4 else 7) ::
       p.assessments[i].limitingClaim == None && p.assessments[i].claims == []) &&
    forall i | 4 <= i < 7 :: p.assessments[i].status == NotApplicable <==> !projectScoped
  }

  method ConfidenceProfile(confidence: int, regenerable: bool, cleanup: CleanupEvidence, projectScoped: bool, now: int)
      returns (p: Profile)
    ensures p.modelVersion == 1 && p.classification == confidence && p.dependency == p.scanCoverage == 80 &&
            p.freshness == 100
    ensures AssessedOnce(p, projectScoped)
    ensures p.notApplicable == if projectScoped then [] else [Ownership, Regenerability, PathSafety]
    ensures !projectScoped ==> p.ownership == p.regenerability == p.pathSafety == 100
    ensures projectScoped ==>
              var a := p.assessments;
              RestsOn(ProjectEvidence(regenerable, cleanup), now, a[4], a[5], a[6]) &&
              DecidedByFacts(regenerable, cleanup, a[4], a[5], a[6])
    ensures projectScoped ==>
              var v := cleanup.Normalize();
              (p.ownership >= 90 <==> v.projectOwned == VerifiedTrue) &&
              (p.regenerability >= 90 <==> regenerable && v.knownOutputPath == VerifiedTrue) &&
              (p.pathSafety >= 90 <==>
                 v.reparsePointFree == VerifiedTrue && v.gitTrackedOriginalsAbsent == VerifiedTrue)
    ensures 0 <= confidence <= 100 ==> forall a | a in ALL_AXES :: 0 <= p.Score(a) <= 100
  {
    hide LimitedBy, DefaultConfidence, ConfidenceEvidence, CleanupEvidence.Normalize, AssessedOnce, DecidedByFacts,
         Decided, Profile.Score;
    p := Profile(1, confidence, 0, MINIMUM_AUTO_DEPENDENCY, 0, 0, MINIMUM_AUTO_COVERAGE, 100, [], []);
    var assessments := [
      ScalarAssessment(Classification, confidence, Known),
      ScalarAssessment(Dependency, MINIMUM_AUTO_DEPENDENCY, Partial),
      ScalarAssessment(ScanCoverage, MINIMUM_AUTO_COVERAGE, Partial),
      ScalarAssessment(Axis.Freshness, 100, Known)];
    if !projectScoped {
      assessments := assessments + [
        ScalarAssessment(Ownership, 100, NotApplicable),
        ScalarAssessment(Regenerability, 100, NotApplicable),
        ScalarAssessment(PathSafety, 100, NotApplicable)];
      p := p.(ownership := 100, regenerability := 100, pathSafety := 100, notApplicable := EXEMPT_AXES,
              assessments := assessments);
      SevenAssessments(p, assessments[4], assessments[5], assessments[6], projectScoped);
      WithinBounds(p);
      return;
    }
    var verification := cleanup.Normalize();
    var evidence := [
      ConfidenceEvidence("ownership", ProjectOwnership, verification.projectOwned),
      ConfidenceEvidence("output", OutputDeclared, verification.knownOutputPath),
      ConfidenceEvidence("path-link", PathNotLinked, verification.reparsePointFree),
      ConfidenceEvidence("tracked-originals", NoTrackedOriginals, verification.gitTrackedOriginalsAbsent)];
    var claims := [(BuildCommandKnown, "resource:BUILD_COMMAND_KNOWN"), (InputsAvailable, "resource:INPUTS_AVAILABLE"),
                   (ToolchainAvailable, "resource:TOOLCHAIN_AVAILABLE")];
    for i := 0 to |claims|
      invariant evidence == ProjectEvidence(regenerable, cleanup)[..4 + i]
    {
      var kind := UnknownKind;
      if regenerable {
        kind := EvidenceKind.Resolved;
      }
      evidence := evidence + [Item(claims[i].1, claims[i].0, kind, Unstated, "", "resource-detector", None)];
    }
    assert evidence == ProjectEvidence(regenerable, cleanup);
    hide ProjectEvidence;
    var ownership := AssessAxis(Ownership, [ProjectOwnership], evidence, now);
    var regenerability := AssessAxis(Regenerability, REGENERABILITY_CLAIMS, evidence, now);
    var pathSafety := AssessAxis(PathSafety, PATH_SAFETY_CLAIMS, evidence, now);
    assert RestsOn(evidence, now, ownership, regenerability, pathSafety);
    hide RestsOn;
    AxesOfProjectEvidence(regenerable, cleanup, now, ownership, regenerability, pathSafety);
    DecidedMeans(regenerable, cleanup, ownership, regenerability, pathSafety);
    p := p.(ownership := ownership.score, regenerability := regenerability.score, pathSafety := pathSafety.score,
            assessments := assessments + [ownership, regenerability, pathSafety]);
    SevenAssessments(p, ownership, regenerability, pathSafety, projectScoped);
    WithinBounds(p);
  }

  lemma WithinBounds(p: Profile)
    requires 0 <= p.ownership <= 100 && 0 <= p.regenerability <= 100 && 0 <= p.pathSafety <= 100
    requires 0 <= p.dependency <= 100 && 0 <= p.scanCoverage <= 100 && 0 <= p.freshness <= 100
    ensures 0 <= p.classification <= 100 ==> forall a | a in ALL_AXES :: 0 <= p.Score(a) <= 100
  {
  }

  lemma SevenAssessments(p: Profile, x: AxisAssessment, y: AxisAssessment, z: AxisAssessment, projectScoped: bool)
    requires p.assessments ==
               [ScalarAssessment(Classification, p.classification, Known),
                ScalarAssessment(Dependency, p.dependency, Evidence.Partial),
                ScalarAssessment(ScanCoverage, p.scanCoverage, Evidence.Partial),
                ScalarAssessment(Axis.Freshness, p.freshness, Known), x, y, z]
    requires x.axis == Ownership && x.score == p.ownership && y.axis == Regenerability && y.score == p.regenerability
    requires z.axis == PathSafety && z.score == p.pathSafety
    requires forall a | a in {x, y, z} ::
               (a.status == NotApplicable <==> !projectScoped) &&
               (!projectScoped ==> a.limitingClaim == None && a.claims == [])
    ensures AssessedOnce(p, projectScoped)
  {
    var a := p.assessments;
    assert a[0].axis == Classification && a[1].axis == Dependency && a[2].axis == ScanCoverage;
    assert a[3].axis == Axis.Freshness && a[4] == x && a[5] == y && a[6] == z;
  }

  /** A claim that rests on one unexpired item has that item's score, or none. */
  lemma LoneItem(claim: ClaimType, evidence: seq<Item>, i: nat, now: int)
    requires i < |evidence| && evidence[i].claim == claim && evidence[i].validUntil.None?
    requires forall j | 0 <= j < |evidence| && j != i :: evidence[j].claim != claim
    ensures Assessed(claim, evidence, now).score ==
              if Supporting(claim, evidence[i]) then DefaultConfidence(evidence[i].kind) else 0
  {
    var e := evidence[i];
    assert e in evidence && forall x | x in evidence && x.claim == claim :: x == e;
    hide IDsOf;
    if Supporting(claim, e) && DefaultConfidence(e.kind) > 0 {
      assert Families(claim, evidence) == {Family(e)};
      assert Strongest(claim, evidence) == DefaultConfidence(e.kind);
    } else {
      assert Families(claim, evidence) == {};
    }
  }

  predicate OnlyAt(evidence: seq<Item>, claim: ClaimType, k: nat) {
    k < |evidence| && evidence[k].claim == claim && evidence[k].validUntil.None? &&
    forall j | 0 <= j < |evidence| && j != k :: evidence[j].claim != claim
  }

  lemma EachClaimOnce(regenerable: bool, cleanup: CleanupEvidence, k: nat)
    requires k < 7
    ensures OnlyAt(ProjectEvidence(regenerable, cleanup), PROJECT_CLAIMS[k], k)
  {
    hide ProjectEvidence;
    assert forall i, j | 0 <= i < j < 7 :: PROJECT_CLAIMS[i] != PROJECT_CLAIMS[j];
  }

  /** The facts the seven claims of a project resource rest on. */
  function ProjectFacts(regenerable: bool, cleanup: CleanupEvidence): (r: seq<Verification>)
    ensures |r| == 7
  {
    var v, built := cleanup.Normalize(), if regenerable then VerifiedTrue else Unset;
    [v.projectOwned, v.knownOutputPath, v.reparsePointFree, v.gitTrackedOriginalsAbsent, built, built, built]
  }

  /** A verified fact supports its claim, a refuted one contradicts it, and any other leaves it open. */
  lemma FactDecides(regenerable: bool, cleanup: CleanupEvidence, k: nat)
    requires k < 7
    ensures var e, fact := ProjectEvidence(regenerable, cleanup)[k], ProjectFacts(regenerable, cleanup)[k];
            e.claim == PROJECT_CLAIMS[k] && e.validUntil == None &&
            (fact == VerifiedTrue <==> e.kind != UnknownKind && e.polarity != Contradicts) &&
            (fact == VerifiedFalse <==> e.kind != UnknownKind && e.polarity == Contradicts) &&
            (e.kind == UnknownKind || e.kind == EvidenceKind.Resolved)
  {
    hide CleanupEvidence.Normalize;
  }

  /** The claim has the full score of one source, is conflicting, or is unknown. */
  predicate AsVerified(r: ClaimAssessment, fact: Verification) {
    r.score == (if fact == VerifiedTrue then 90 else 0) &&
    r.status == match fact case VerifiedTrue => Known case VerifiedFalse => Conflicted case _ => Evidence.Unknown
  }

  lemma ClaimIsAsVerified(regenerable: bool, cleanup: CleanupEvidence, k: nat, now: int)
    requires k < 7
    ensures AsVerified(Assessed(PROJECT_CLAIMS[k], ProjectEvidence(regenerable, cleanup), now),
                       ProjectFacts(regenerable, cleanup)[k])
  {
    hide Assessed, ProjectEvidence, ProjectFacts, OnlyAt;
    FactDecides(regenerable, cleanup, k);
    EachClaimOnce(regenerable, cleanup, k);
    LoneItemDecides(PROJECT_CLAIMS[k], ProjectEvidence(regenerable, cleanup), k, now);
  }

  lemma LoneItemDecides(claim: ClaimType, evidence: seq<Item>, k: nat, now: int)
    requires OnlyAt(evidence, claim, k) && evidence[k].kind in {UnknownKind, EvidenceKind.Resolved}
    ensures var r, e := Assessed(claim, evidence, now), evidence[k];
            if e.kind == UnknownKind then r.score == 0 && r.status == Evidence.Unknown
            else if e.polarity == Contradicts then r.score == 0 && r.status == Conflicted
            else r.score == 90 && r.status == Known
  {
    LoneItem(claim, evidence, k, now);
    var e := evidence[k];
    assert e in evidence && forall x | x in evidence && x.claim == claim :: x == e;
    hide IDsOf, Strongest, ScoreOf;
    assert Families(claim, evidence) == if Supporting(claim, e) then {Family(e)} else {};
  }

  /** The axis needs every fact verified, and one refuted fact makes it conflicting. */
  predicate Decided(r: AxisAssessment, facts: seq<Verification>) {
    r.score == (if forall f | f in facts :: f == VerifiedTrue then 90 else 0) &&
    r.status == if VerifiedFalse in facts then Conflicted
                else if forall f | f in facts :: f == VerifiedTrue then Known else Evidence.Unknown
  }

  lemma AxisIsDecided(r: AxisAssessment, required: seq<ClaimType>, evidence: seq<Item>, facts: seq<Verification>,
                      now: int)
    requires LimitedBy(r, required, evidence, now) && |facts| == |required| > 0
    requires forall i | 0 <= i < |required| :: AsVerified(Assessed(required[i], evidence, now), facts[i])
    ensures Decided(r, facts)
  {
    MostDoubtful(r, required, evidence, now);
    hide Assessed, Weakest;
    assert forall i | 0 <= i < |required| :: r.claims[i] == Assessed(required[i], evidence, now);
    AxisScore(r, required, evidence, facts, now);
    hide LimitedBy;
    AxisStatus(r.claims, facts);
    hide Occurs, AsVerified;
  }

  lemma AxisStatus(claims: seq<ClaimAssessment>, facts: seq<Verification>)
    requires |claims| == |facts| && forall i | 0 <= i < |facts| :: AsVerified(claims[i], facts[i])
    ensures Occurs(Conflicted, claims) <==> VerifiedFalse in facts
    ensures Occurs(Conflicted, claims) || Occurs(Evidence.Unknown, claims) <==>
              exists f | f in facts :: f != VerifiedTrue
    ensures !Occurs(Partial, claims)
  {
    if VerifiedFalse in facts {
      var i :| 0 <= i < |facts| && facts[i] == VerifiedFalse;
      assert claims[i].status == Conflicted;
    }
    if f :| f in facts && f != VerifiedTrue {
      var i :| 0 <= i < |facts| && facts[i] == f;
      assert claims[i].status in {Conflicted, Evidence.Unknown};
    } else {
      forall i | 0 <= i < |facts|
        ensures claims[i].status == Known
      {
        assert facts[i] in facts && AsVerified(claims[i], facts[i]);
      }
    }
  }

  lemma AxisScore(r: AxisAssessment, required: seq<ClaimType>, evidence: seq<Item>, facts: seq<Verification>, now: int)
    requires LimitedBy(r, required, evidence, now) && |facts| == |required| > 0
    requires forall i | 0 <= i < |required| :: AsVerified(r.claims[i], facts[i])
    ensures r.score == if forall f | f in facts :: f == VerifiedTrue then 90 else 0
  {
    hide Assessed;
    assert r.score <= r.claims[0].score <= 90;
    var i :| 0 <= i < |required| && Weakest(r, required, r.limitingClaim.value, i);
    if facts[i] != VerifiedTrue {
      assert facts[i] in facts;
    } else {
      assert forall j | 0 <= j < |facts| :: r.score <= r.claims[j].score;
    }
  }

  /** Each of the three axes is assessed from its own claims. */
  ghost predicate RestsOn(evidence: seq<Item>, now: int, ownership: AxisAssessment, regenerability: AxisAssessment,
                          pathSafety: AxisAssessment)
  {
    LimitedBy(ownership, [ProjectOwnership], evidence, now) &&
    LimitedBy(regenerability, [OutputDeclared, BuildCommandKnown, InputsAvailable, ToolchainAvailable], evidence,
              now) &&
    LimitedBy(pathSafety, [PathNotLinked, NoTrackedOriginals], evidence, now)
  }

  /** So each of the three axes scores 90 exactly with all of its facts verified. */
  lemma AxesOfProjectEvidence(regenerable: bool, cleanup: CleanupEvidence, now: int, ownership: AxisAssessment,
                              regenerability: AxisAssessment, pathSafety: AxisAssessment)
    requires RestsOn(ProjectEvidence(regenerable, cleanup), now, ownership, regenerability, pathSafety)
    ensures DecidedByFacts(regenerable, cleanup, ownership, regenerability, pathSafety)
  {
    hide LimitedBy, Assessed, ProjectEvidence, CleanupEvidence.Normalize;
    var e, facts := ProjectEvidence(regenerable, cleanup), ProjectFacts(regenerable, cleanup);
    forall k | 0 <= k < 7
      ensures AsVerified(Assessed(PROJECT_CLAIMS[k], e, now), facts[k])
    {
      ClaimIsAsVerified(regenerable, cleanup, k, now);
    }
    hide AsVerified;
    assert PROJECT_CLAIMS[0] == ProjectOwnership && PROJECT_CLAIMS[1] == OutputDeclared &&
           PROJECT_CLAIMS[2] == PathNotLinked && PROJECT_CLAIMS[3] == NoTrackedOriginals &&
           PROJECT_CLAIMS[4] == BuildCommandKnown && PROJECT_CLAIMS[5] == InputsAvailable &&
           PROJECT_CLAIMS[6] == ToolchainAvailable;
    AxisIsDecided(ownership, [ProjectOwnership], e, [facts[0]], now);
    AxisIsDecided(regenerability, REGENERABILITY_CLAIMS, e, [facts[1], facts[4], facts[5], facts[6]], now);
    AxisIsDecided(pathSafety, PATH_SAFETY_CLAIMS, e, [facts[2], facts[3]], now);
  }

  predicate DecidedByFacts(regenerable: bool, cleanup: CleanupEvidence, ownership: AxisAssessment,
                           regenerability: AxisAssessment, pathSafety: AxisAssessment)
  {
    var v, built := cleanup.Normalize(), if regenerable then VerifiedTrue else Unset;
    Decided(ownership, [v.projectOwned]) && Decided(regenerability, [v.knownOutputPath, built, built, built]) &&
    Decided(pathSafety, [v.reparsePointFree, v.gitTrackedOriginalsAbsent])
  }

  lemma DecidedMeans(regenerable: bool, cleanup: CleanupEvidence, x: AxisAssessment, y: AxisAssessment,
                     z: AxisAssessment)
    requires DecidedByFacts(regenerable, cleanup, x, y, z)
    ensures var v := cleanup.Normalize();
            x.score == (if v.projectOwned == VerifiedTrue then 90 else 0) &&
            y.score == (if regenerable && v.knownOutputPath == VerifiedTrue then 90 else 0) &&
            z.score == (if v.reparsePointFree == v.gitTrackedOriginalsAbsent == VerifiedTrue then 90 else 0) &&
            forall a | a in {x, y, z} :: a.status != NotApplicable
  {
    hide CleanupEvidence.Normalize;
    var v, built := cleanup.Normalize(), if regenerable then VerifiedTrue else Unset;
    assert v.projectOwned in [v.projectOwned];
    var ys, zs := [v.knownOutputPath, built, built, built], [v.reparsePointFree, v.gitTrackedOriginalsAbsent];
    assert ys[0] in ys && ys[1] in ys && zs[0] in zs && zs[1] in zs;
  }

  /** What the file system and the detectors report about a resource. */
  datatype Detected = Detected(resource: Resource, systemManaged: bool, logicalSize: int, sizeKnown: bool,
                               lastModifiedAt: Option<Time>)

  /** internal/scanner/resource_size.go: the latest modification time of the visited entries, if one has any. Later than
      the zero time is every other. */
  method LatestModified(visited: seq<Time>) returns (latest: Option<Time>)
    ensures latest.None? <==> forall t | t in visited :: t.ZeroTime?
    ensures latest.Some? ==> latest.value.At? && latest.value in visited
    ensures latest.Some? ==> forall t | t in visited && t.At? :: t.seconds <= latest.value.seconds
  {
    var time := ZeroTime;
    for i := 0 to |visited|
      invariant time.ZeroTime? <==> forall t | t in visited[..i] :: t.ZeroTime?
      invariant time.At? ==> time in visited[..i] && forall t | t in visited[..i] && t.At? :: t.seconds <= time.seconds
    {
      assert visited[..i + 1] == visited[..i] + [visited[i]];
      if visited[i].At? && (time.ZeroTime? || time.seconds < visited[i].seconds) {
        time := visited[i];
      }
    }
    assert visited[..|visited|] == visited;
    latest := if time.ZeroTime? then None else Some(time);
  }

  /** The classification half of Observe. */
  method Observe(d: Detected, cleanup: CleanupEvidence, projectScoped: bool, now: int) returns (r: Resource)
    ensures r.id == d.resource.id && r.resourceType == d.resource.resourceType &&
            r.normalizedPath == d.resource.normalizedPath && r.regenerable == d.resource.regenerable &&
            r.systemManaged == d.systemManaged && r.logicalSize == d.logicalSize && r.sizeKnown == d.sizeKnown &&
            r.lastModifiedAt == d.lastModifiedAt && r.lastObservedAt == At(now)
    ensures r.risk == r.assessment.level && r.confidence == OverallOf(r.profile)
    ensures r.risk == SAFE <==>
              r.regenerable && cleanup.Complete() && !HandledByType(r.resourceType) && !r.systemManaged
    ensures r.risk == BLOCKED <==>
              r.resourceType in {AndroidSDK, DockerVolume} || (r.systemManaged && !HandledByType(r.resourceType))
    ensures r.assessment.disposition ==
              if r.resourceType in {AndroidSDK, GlobalCache, DockerCache} then UseOfficialTool
              else if r.risk == SAFE then AutoQuarantine else if r.risk == REVIEW then ManualReview else NeverDelete
    ensures r.reclaimableSize ==
              if r.risk == SAFE then r.logicalSize else if r.risk == BLOCKED then 0 else d.resource.reclaimableSize
    ensures r.assessment == Classify(Context(r, r.systemManaged, false, cleanup, [], NO_IMPACT))
    ensures AssessedOnce(r.profile, projectScoped) && r.profile.freshness == 100
    ensures r.profile.modelVersion == 1 && r.profile.classification == d.resource.confidence &&
            r.profile.dependency == r.profile.scanCoverage == 80
    ensures r.profile.notApplicable == if projectScoped then [] else [Ownership, Regenerability, PathSafety]
    ensures projectScoped ==>
              var a := r.profile.assessments;
              RestsOn(ProjectEvidence(r.regenerable, cleanup), now, a[4], a[5], a[6]) &&
              DecidedByFacts(r.regenerable, cleanup, a[4], a[5], a[6])
    ensures GatesAgree(r.profile, r.regenerable, cleanup, projectScoped)
  {
    hide CleanupEvidence.Normalize, RestsOn, DecidedByFacts;
    r := d.resource.(logicalSize := d.logicalSize, sizeKnown := d.sizeKnown, lastModifiedAt := d.lastModifiedAt,
                     lastObservedAt := At(now), systemManaged := d.systemManaged);
    var profile := ConfidenceProfile(r.confidence, r.regenerable, cleanup, projectScoped, now);
    r := r.(profile := profile);
    var context := Context(r, d.systemManaged, false, cleanup, [], NO_IMPACT);
    var assessment := Classify(context);
    SafeExactlyWhen(context);
    BlockedExactlyWhen(context);
    DispositionOf(context);
    r := r.(risk := assessment.level, assessment := assessment);
    var overall := Overall(r.profile);
    r := r.(confidence := overall);
    match r.risk
    case SAFE => r := r.(reclaimableSize := r.logicalSize);
    case BLOCKED => r := r.(reclaimableSize := 0);
    case REVIEW =>
  }

  /** The confidence gate of planning and the evidence gate of the risk policy, written apart, are one condition. */
  predicate GatesAgree(p: Profile, regenerable: bool, cleanup: CleanupEvidence, projectScoped: bool) {
    if projectScoped then
      (p.ownership >= 90 && p.regenerability >= 90 && p.pathSafety >= 90 <==> regenerable && cleanup.Complete())
    else p.ownership == p.regenerability == p.pathSafety == 100
  }

  /** A resource observed SAFE with a positive classification stays SAFE and eligible for planning exactly as long as
      the observation is at most 30 days old. */
  lemma SafeForThirtyDays(r: Resource, cleanup: CleanupEvidence, projectScoped: bool, now: int)
    requires r.risk == SAFE && r.regenerable && cleanup.Complete() && r.lastObservedAt.At?
    requires r.profile.modelVersion == 1 && r.profile.classification > 0 &&
             r.profile.dependency == r.profile.scanCoverage == 80
    requires GatesAgree(r.profile, r.regenerable, cleanup, projectScoped)
    ensures var seen := Freshened(r, now);
            var recent := now - r.lastObservedAt.seconds <= 30 * DAY;
            (seen.risk == SAFE <==> recent) && (Eligible(seen.profile) <==> recent)
  {
    hide CleanupEvidence.Complete;
  }

  /** What the resources table keeps of a profile: everything but the exemptions. */
  function Stored(p: Profile): Profile {
    p.(notApplicable := [])
  }

  /** Nothing is lost with them for a profile of this service: the exempt axes score 100. */
  lemma StoringKeepsTheVerdict(p: Profile, regenerable: bool, cleanup: CleanupEvidence,
                               projectScoped: bool)
    requires GatesAgree(p, regenerable, cleanup, projectScoped)
    requires p.notApplicable == if projectScoped then [] else [Ownership, Regenerability, PathSafety]
    requires p.classification <= 100
    ensures Eligible(Stored(p)) <==> Eligible(p)
    ensures OverallOf(Stored(p)) == OverallOf(p)
  {
    if !projectScoped {
      var q := Stored(p);
      forall a | a in ALL_AXES
        ensures q.Score(a) == p.Score(a) && q.Applicable(a)
        ensures p.Applicable(a) <==> a !in EXEMPT_AXES
        ensures a in EXEMPT_AXES ==> p.Score(a) == 100
      {
      }
      assert p.Applicable(ALL_AXES[0]) && ALL_AXES[0] in ALL_AXES;
      assert OverallOf(p) <= 100;
    }
  }

  type Repository = map<string, Resource>

  datatype Reclassified =
    | NotFound
    | NotStored
    | Unchanged(resource: Resource)
    | Updated(resource: Resource)

  /** A project turned out to require the resource. The store takes the changed rows it is willing to take. */
  method ReclassifyRequired(repository: Repository, id: string, stores: string -> bool)
      returns (outcome: Reclassified, after: Repository)
    ensures outcome.NotFound? <==> id !in repository
    ensures outcome.NotStored? <==> id in repository && repository[id].risk != BLOCKED && !stores(id)
    ensures outcome.NotFound? || outcome.NotStored? ==> after == repository
    ensures outcome.Unchanged? || outcome.Updated? ==>
              var before := repository[id];
              after == repository[id := outcome.resource] && BecomesRequired(before, outcome.resource) &&
              (outcome.Unchanged? <==> before.risk == BLOCKED)
  {
    if id !in repository {
      return NotFound, repository;
    }
    var resource := repository[id];
    if resource.risk == BLOCKED {
      assert repository[id := resource] == repository;
      return Unchanged(resource), repository;
    }
    var assessment := Classify(Context(resource, false, true, NO_EVIDENCE, [], NO_IMPACT));
    resource := resource.(risk := assessment.level, assessment := assessment, reclaimableSize := 0);
    if !stores(id) {
      return NotStored, repository;
    }
    return Updated(resource), repository[id := resource];
  }

  /** What being required makes of a resource: its risk, the assessment behind it and what it would free may change,
      nothing else. */
  predicate BecomesRequired(before: Resource, r: Resource) {
    r == before.(risk := r.risk, assessment := r.assessment, reclaimableSize := r.reclaimableSize) &&
    Severity(before.risk) <= Severity(r.risk) && r.risk != SAFE &&
    (r.risk == BLOCKED <==> before.risk == BLOCKED || RequirementBlocks(before)) &&
    (if before.risk == BLOCKED then r == before
     else r.assessment.level == r.risk && r.reclaimableSize == 0 &&
          r.assessment == Classify(Context(before, false, true, NO_EVIDENCE, [], NO_IMPACT)) &&
          r.assessment.disposition ==
            if r.resourceType in {AndroidSDK, GlobalCache, DockerCache} then UseOfficialTool
            else if r.risk == REVIEW then ManualReview else NeverDelete)
  }

  /** A requirement is meant to block a resource. It does, except for what an official tool manages and for project
      artifacts that can be rebuilt: those it sends to review. */
  predicate RequirementBlocks(r: Resource) {
    r.resourceType !in {GlobalCache, DockerCache} &&
    (r.resourceType in {AndroidSDK, DockerVolume} || r.systemManaged ||
     !(r.regenerable && ProjectLocal(r.resourceType)))
  }

  lemma RequiredNodeModulesAreOnlyReviewed(r: Resource)
    requires r.resourceType == NodeModules && r.regenerable && !r.systemManaged
    ensures !RequirementBlocks(r)
    ensures Classify(Context(r, false, true, NO_EVIDENCE, [], NO_IMPACT)).level == REVIEW
  {
  }
}

/** internal/app/analysis_orchestrator.go: the reclassification loop that ends a run. */
module Orchestrator {
  import opened RiskPolicy
  import opened Freshness
  import opened ResourceService

  datatype NodeType = ProjectNode | ResourceNode

  datatype Relation = Requires | Owns

  datatype Dependency = Dependency(sourceID: string, targetType: NodeType, targetID: string, relation: Relation)

  predicate RequiredIn(dependencies: seq<Dependency>, id: string) {
    exists d | d in dependencies :: d.targetType == ResourceNode && d.relation == Requires && d.targetID == id
  }

  datatype RunResult = RunFailed | RunCompleted(resources: seq<Resource>)

  ghost predicate NotSafer(a: Repository, b: Repository) {
    a.Keys == b.Keys && forall id | id in a :: b[id] == a[id] || BecomesRequired(a[id], b[id])
  }

  /** The resources before i are dealt with: what is required is reclassified, and the run's own copy takes over its
      risk and what it would free; the rest is as it was. */
  ghost predicate Settled(before: Repository, resources: seq<Resource>, dependencies: seq<Dependency>, i: nat,
                          after: Repository, updated: seq<Resource>)
    requires i <= |resources|
  {
    && |updated| == |resources| && NotSafer(before, after)
    && (forall j | 0 <= j < i && RequiredIn(dependencies, resources[j].id) ::
          resources[j].id in before && resources[j].id in after &&
          BecomesRequired(before[resources[j].id], after[resources[j].id]) &&
          updated[j] == resources[j].(risk := after[resources[j].id].risk,
                                      reclaimableSize := after[resources[j].id].reclaimableSize))
    && (forall j | 0 <= j < |resources| && (i <= j || !RequiredIn(dependencies, resources[j].id)) ::
          updated[j] == resources[j])
    && (forall id | id in after && !(RequiredIn(dependencies, id) && Named(resources[..i], id)) ::
          after[id] == before[id])
  }

  lemma BecomesRequiredTwice(a: Resource, b: Resource, c: Resource)
    requires BecomesRequired(a, b) && BecomesRequired(b, c)
    ensures BecomesRequired(a, c) && c.risk == b.risk && c.reclaimableSize == b.reclaimableSize
  {
  }

  ghost predicate Named(resources: seq<Resource>, id: string) {
    exists r | r in resources :: r.id == id
  }

  lemma NamedLater(resources: seq<Resource>, i: nat)
    requires i < |resources|
    ensures forall id :: Named(resources[..i + 1], id) <==> Named(resources[..i], id) || id == resources[i].id
  {
    assert resources[..i + 1] == resources[..i] + [resources[i]];
    forall id ensures Named(resources[..i + 1], id) <==> Named(resources[..i], id) || id == resources[i].id {
      if Named(resources[..i], id) {
        var r :| r in resources[..i] && r.id == id;
        assert r in resources[..i + 1];
      }
      assert resources[i] in resources[..i + 1];
    }
  }

  lemma SettlesNext(before: Repository, resources: seq<Resource>, dependencies: seq<Dependency>, i: nat,
                    after: Repository, updated: seq<Resource>, stored: Resource)
    requires i < |resources| && Settled(before, resources, dependencies, i, after, updated)
    requires var id := resources[i].id;
             RequiredIn(dependencies, id) && id in after && BecomesRequired(after[id], stored)
    ensures Settled(before, resources, dependencies, i + 1, after[resources[i].id := stored],
                    updated[i := resources[i].(risk := stored.risk, reclaimableSize := stored.reclaimableSize)])
  {
    hide RequiredIn, Named, BecomesRequired;
    var id := resources[i].id;
    NamedLater(resources, i);
    if BecomesRequired(before[id], after[id]) {
      BecomesRequiredTwice(before[id], after[id], stored);
    }
    forall j | 0 <= j < i && RequiredIn(dependencies, resources[j].id) && resources[j].id == id
      ensures stored.risk == after[id].risk && stored.reclaimableSize == after[id].reclaimableSize
      ensures BecomesRequired(before[id], stored)
    {
    }
  }

  lemma SettlesUnrequired(before: Repository, resources: seq<Resource>, dependencies: seq<Dependency>, i: nat,
                          after: Repository, updated: seq<Resource>)
    requires i < |resources| && Settled(before, resources, dependencies, i, after, updated)
    requires !RequiredIn(dependencies, resources[i].id)
    ensures Settled(before, resources, dependencies, i + 1, after, updated)
  {
    hide RequiredIn, Named;
    NamedLater(resources, i);
  }

  /** After a completed loop nothing that this run found required is SAFE any more, neither in the run's own result
      nor in the repository the next plan reads; nothing has become safer. */
  method ReclassifyAll(repository: Repository, resources: seq<Resource>, dependencies: seq<Dependency>,
                       stores: string -> bool) returns (result: RunResult, after: Repository)
    ensures NotSafer(repository, after)
    ensures result.RunFailed? <==>
              exists i | 0 <= i < |resources| ::
                RequiredIn(dependencies, resources[i].id) && !Reclassifies(repository, stores, resources[i].id)
    ensures result.RunCompleted? ==> Settled(repository, resources, dependencies, |resources|, after, result.resources)
  {
    hide RequiredIn, Named, BecomesRequired;
    var required := RequiredIDs(dependencies);
    after := repository;
    var updated := resources;
    for i := 0 to |resources|
      invariant Settled(repository, resources, dependencies, i, after, updated)
      invariant forall j | 0 <= j < i && RequiredIn(dependencies, resources[j].id) ::
                  Reclassifies(repository, stores, resources[j].id)
    {
      var resource := resources[i];
      if resource.id !in required {
        SettlesUnrequired(repository, resources, dependencies, i, after, updated);
        continue;
      }
      SameVerdict(repository, resources, dependencies, i, after, updated, stores);
      var outcome, stored := ReclassifyRequired(after, resource.id, stores);
      if outcome.NotFound? || outcome.NotStored? {
        assert RequiredIn(dependencies, resources[i].id) && !Reclassifies(repository, stores, resources[i].id);
        return RunFailed, after;
      }
      SettlesNext(repository, resources, dependencies, i, after, updated, outcome.resource);
      resource := resource.(risk := outcome.resource.risk, reclaimableSize := outcome.resource.reclaimableSize);
      after, updated := stored, updated[i := resource];
    }
    result := RunCompleted(updated);
  }

  /** The resource is there, and its reclassified row, if it needs one, is stored. */
  predicate Reclassifies(repository: Repository, stores: string -> bool, id: string) {
    id in repository && (repository[id].risk == BLOCKED || stores(id))
  }

  /** What the loop has changed so far does not change whether the next resource can be reclassified. */
  lemma SameVerdict(before: Repository, resources: seq<Resource>, dependencies: seq<Dependency>, i: nat,
                    after: Repository, updated: seq<Resource>, stores: string -> bool)
    requires i < |resources| && Settled(before, resources, dependencies, i, after, updated)
    requires RequiredIn(dependencies, resources[i].id)
    requires forall j | 0 <= j < i && RequiredIn(dependencies, resources[j].id) ::
               Reclassifies(before, stores, resources[j].id)
    ensures Reclassifies(after, stores, resources[i].id) <==> Reclassifies(before, stores, resources[i].id)
  {
    hide RequiredIn;
    var id := resources[i].id;
    if Named(resources[..i], id) {
      var r :| r in resources[..i] && r.id == id;
      var j :| 0 <= j < i && resources[j] == r;
      assert Reclassifies(before, stores, resources[j].id);
    }
  }

  method RequiredIDs(dependencies: seq<Dependency>) returns (required: set<string>)
    ensures forall id :: id in required <==> RequiredIn(dependencies, id)
  {
    required := {};
    for i := 0 to |dependencies|
      invariant forall id :: id in required <==> RequiredIn(dependencies[..i], id)
    {
      var d := dependencies[i];
      assert dependencies[..i + 1] == dependencies[..i] + [d];
      if d.targetType == ResourceNode && d.relation == Requires {
        required := required + {d.targetID};
      }
    }
    assert dependencies[..|dependencies|] == dependencies;
  }

  /** So the next plan, at whatever time, cannot select any of them. */
  lemma RequiredStaysUnselectable(r: Resource, now: int)
    requires r.risk != SAFE
    ensures Freshened(r, now).risk != SAFE
  {
    AgeOnlyRaisesRisk(r, now);
  }
}

/** internal/app/risk_policy.go: from facts about one resource to SAFE, REVIEW or BLOCKED. */
module RiskPolicy {
  import opened Wrappers
  import opened Paths
  import opened Evidence
  import opened Profiles

  /** time.Time; its zero value stands for a time that was never set. */
  datatype Time = ZeroTime | At(seconds: int)

  datatype Verification = Unset | VerifiedTrue | VerifiedFalse | Unverified | VerificationError

  datatype Verifications = Verifications(projectOwned: Verification, knownOutputPath: Verification,
                                         reparsePointFree: Verification, gitTrackedOriginalsAbsent: Verification)

  function NormalizeFact(fact: Verification, legacy: bool): Verification {
    if fact != Unset then fact else if legacy then VerifiedTrue else Unverified
  }

  /** Legacy booleans beside the newer verification results that override them. */
  datatype CleanupEvidence = CleanupEvidence(projectOwned: bool, knownOutputPath: bool, reparsePointFree: bool,
                                             gitTrackedOriginalsAbsent: bool, verification: Verifications)
  {
    function Normalize(): Verifications {
      Verifications(NormalizeFact(verification.projectOwned, projectOwned),
                    NormalizeFact(verification.knownOutputPath, knownOutputPath),
                    NormalizeFact(verification.reparsePointFree, reparsePointFree),
                    NormalizeFact(verification.gitTrackedOriginalsAbsent, gitTrackedOriginalsAbsent))
    }

    predicate Complete() {
      Normalize() == Verifications(VerifiedTrue, VerifiedTrue, VerifiedTrue, VerifiedTrue)
    }
  }

  const NO_EVIDENCE := CleanupEvidence(false, false, false, false, Verifications(Unset, Unset, Unset, Unset))

  datatype Type =
    | WindowsSDK | NetFXSDK | VisualStudio | MSBuild | DotNetSDK | AndroidSDK | NodeModules | XcodeInstall | Pods
    | BuildOutput | GlobalCache | DockerCache | DockerVolume | Venv | CondaEnv

  datatype Risk = SAFE | REVIEW | BLOCKED

  function Severity(r: Risk): nat {
    match r
    case SAFE => 0
    case REVIEW => 1
    case BLOCKED => 2
  }

  datatype Disposition = AutoQuarantine | ManualReview | UseOfficialTool | NeverDelete

  datatype Reason =
    | AndroidSDKManaged | OfficialCleanupGuidance | DockerVolumeUserData | DockerOfficialCleanupRequired | SystemManaged
    | RequiredByProject | DependencyImpactReview | CleanupEvidenceComplete | SafeConditionsNotProven | EvidenceStale
    | Given(code: string)

  datatype Assessment = Assessment(level: Risk, disposition: Disposition, impact: int, likelihood: int,
                                   recoverability: int, uncertainty: int, reasons: seq<Reason>)

  datatype Resource = Resource(id: string, resourceType: Type, normalizedPath: Path, logicalSize: int, sizeKnown: bool,
                               reclaimableSize: int, regenerable: bool, systemManaged: bool,
                               lastModifiedAt: Option<Time>, lastObservedAt: Time, confidence: int, profile: Profile,
                               risk: Risk, assessment: Assessment)

  /** What impact analysis found out; relation is None where it did not run. */
  datatype Impact = Impact(requiredByProjects: int, activeProjects: int, relation: Option<Status>, recoverable: bool)

  const NO_IMPACT := Impact(0, 0, None, false)

  datatype Context = Context(resource: Resource, protectedPath: bool, requiredByProject: bool, cleanup: CleanupEvidence,
                             criticalUnknowns: seq<Reason>, impact: Impact)

  predicate ProjectLocal(t: Type) {
    t in {NodeModules, BuildOutput, Pods, Venv}
  }

  predicate HandledByType(t: Type) {
    t in {AndroidSDK, GlobalCache, DockerVolume, DockerCache}
  }

  function Classify(c: Context): Assessment {
    var t := c.resource.resourceType;
    var hasDependency := c.requiredByProject || c.impact.requiredByProjects > 0;
    var recoverable :=
      c.resource.regenerable && ProjectLocal(t) && (c.impact.requiredByProjects == 0 || c.impact.recoverable);
    if t == AndroidSDK then Assessment(BLOCKED, UseOfficialTool, 90, 80, 40, 0, [AndroidSDKManaged])
    else if t == GlobalCache then Assessment(REVIEW, UseOfficialTool, 50, 40, 90, 0, [OfficialCleanupGuidance])
    else if t == DockerVolume then Assessment(BLOCKED, NeverDelete, 100, 70, 10, 0, [DockerVolumeUserData])
    else if t == DockerCache then Assessment(REVIEW, UseOfficialTool, 60, 50, 80, 0, [DockerOfficialCleanupRequired])
    else if c.protectedPath || c.resource.systemManaged
      then Assessment(BLOCKED, NeverDelete, 100, 80, 20, 0, [SystemManaged])
    else if hasDependency && !recoverable && (c.impact.activeProjects > 0 || c.impact.requiredByProjects == 0) &&
            c.impact.relation != Some(Partial) && c.impact.relation != Some(Unknown)
    then Assessment(BLOCKED, NeverDelete, 90, 80, 30, 0, [RequiredByProject])
    else if hasDependency && !recoverable
      then Assessment(REVIEW, ManualReview, 70, 50, 50, 60, [DependencyImpactReview])
    else if |c.criticalUnknowns| > 0 then Assessment(REVIEW, ManualReview, 0, 0, 0, 100, c.criticalUnknowns)
    else if c.resource.regenerable && c.cleanup.Complete()
    then Assessment(SAFE, AutoQuarantine, 30, 10, 100, 0, [CleanupEvidenceComplete])
    else Assessment(REVIEW, ManualReview, 50, 40, 50, 60, [SafeConditionsNotProven])
  }

  /** SAFE says exactly this: an ordinary, unprotected, regenerable resource with complete cleanup evidence, nothing
      critical unknown, and no project depending on it unless it can be rebuilt where it is. */
  lemma SafeExactlyWhen(c: Context)
    ensures Classify(c).level == SAFE <==>
              c.resource.regenerable && c.cleanup.Complete() && c.criticalUnknowns == [] &&
              !HandledByType(c.resource.resourceType) && !c.protectedPath && !c.resource.systemManaged &&
              ((c.requiredByProject || c.impact.requiredByProjects > 0) ==>
                 ProjectLocal(c.resource.resourceType) && (c.impact.requiredByProjects == 0 || c.impact.recoverable))
    ensures Classify(c).level == SAFE <==> Classify(c).disposition == AutoQuarantine
  {
  }

  predicate Depended(c: Context) {
    c.requiredByProject || c.impact.requiredByProjects > 0
  }

  /** What depends on it can be rebuilt where it is. */
  predicate Rebuildable(c: Context) {
    c.resource.regenerable && c.resource.resourceType in {NodeModules, BuildOutput, Pods, Venv} &&
    (c.impact.requiredByProjects != 0 ==> c.impact.recoverable)
  }

  /** BLOCKED says exactly this: an Android SDK or a Docker volume; or, of what no official tool handles, something that
      is protected or system-managed, or that a project depends on and that cannot be rebuilt, where the dependency is
      active or comes from the scan itself, and is not in doubt. */
  lemma BlockedExactlyWhen(c: Context)
    ensures Classify(c).level == BLOCKED <==>
              c.resource.resourceType in {AndroidSDK, DockerVolume} ||
              (!HandledByType(c.resource.resourceType) &&
               (c.protectedPath || c.resource.systemManaged ||
                (Depended(c) && !Rebuildable(c) && (c.impact.requiredByProjects != 0 ==> c.impact.activeProjects > 0) &&
                 c.impact.relation !in {Some(Partial), Some(Unknown)})))
  {
  }

  /** Only SAFE ones may be quarantined automatically, what has an official tool is left to it, and of the rest BLOCKED
      ones are never deleted and others reviewed. */
  lemma DispositionOf(c: Context)
    ensures Classify(c).disposition ==
              if c.resource.resourceType in {AndroidSDK, GlobalCache, DockerCache} then UseOfficialTool
              else match Classify(c).level
                case SAFE => AutoQuarantine
                case REVIEW => ManualReview
                case BLOCKED => NeverDelete
  {
  }

  /** The numbers behind a verdict, and its reasons, which tell how it came about. */
  lemma ReasonsTell(c: Context)
    ensures var a, t := Classify(c), c.resource.resourceType;
            (t == AndroidSDK ==> Rated(a, BLOCKED, 90, 80, 40, 0, AndroidSDKManaged)) &&
            (t == GlobalCache ==> Rated(a, REVIEW, 50, 40, 90, 0, OfficialCleanupGuidance)) &&
            (t == DockerVolume ==> Rated(a, BLOCKED, 100, 70, 10, 0, DockerVolumeUserData)) &&
            (t == DockerCache ==> Rated(a, REVIEW, 60, 50, 80, 0, DockerOfficialCleanupRequired)) &&
            (!HandledByType(t) && (c.protectedPath || c.resource.systemManaged) ==>
               Rated(a, BLOCKED, 100, 80, 20, 0, SystemManaged)) &&
            (!HandledByType(t) && a.level == BLOCKED && !c.protectedPath && !c.resource.systemManaged ==>
               Rated(a, BLOCKED, 90, 80, 30, 0, RequiredByProject)) &&
            (!HandledByType(t) && a.level == REVIEW && Depended(c) && !Rebuildable(c) ==>
               Rated(a, REVIEW, 70, 50, 50, 60, DependencyImpactReview)) &&
            (!HandledByType(t) && a.level == REVIEW && (Depended(c) ==> Rebuildable(c)) && c.criticalUnknowns != [] ==>
               a == Assessment(REVIEW, ManualReview, 0, 0, 0, 100, c.criticalUnknowns)) &&
            (!HandledByType(t) && a.level == REVIEW && (Depended(c) ==> Rebuildable(c)) && c.criticalUnknowns == [] ==>
               Rated(a, REVIEW, 50, 40, 50, 60, SafeConditionsNotProven)) &&
            (a.level == SAFE ==> Rated(a, SAFE, 30, 10, 100, 0, CleanupEvidenceComplete))
  {
    hide CleanupEvidence.Complete;
  }

  predicate Rated(a: Assessment, level: Risk, impact: int, likelihood: int, recoverability: int, uncertainty: int,
                  reason: Reason)
  {
    a.level == level && a.impact == impact && a.likelihood == likelihood && a.recoverability == recoverability &&
    a.uncertainty == uncertainty && a.reasons == [reason]
  }

  /** Each fact counts as verified if its newer result says so, or if there is none and the legacy flag is set. */
  lemma CompleteExactlyWhen(e: CleanupEvidence)
    ensures e.Complete() <==>
              (e.verification.projectOwned == VerifiedTrue ||
               (e.verification.projectOwned == Unset && e.projectOwned)) &&
              (e.verification.knownOutputPath == VerifiedTrue ||
               (e.verification.knownOutputPath == Unset && e.knownOutputPath)) &&
              (e.verification.reparsePointFree == VerifiedTrue ||
               (e.verification.reparsePointFree == Unset && e.reparsePointFree)) &&
              (e.verification.gitTrackedOriginalsAbsent == VerifiedTrue ||
               (e.verification.gitTrackedOriginalsAbsent == Unset && e.gitTrackedOriginalsAbsent))
  {
  }

  /** Each result is about its own fact: verified by its newer result or, without one, by its legacy flag, and refuted
      by its newer result alone. */
  lemma EachFactIsItsOwn(e: CleanupEvidence)
    ensures var n, v := e.Normalize(), e.verification;
            Settles(n.projectOwned, v.projectOwned, e.projectOwned) &&
            Settles(n.knownOutputPath, v.knownOutputPath, e.knownOutputPath) &&
            Settles(n.reparsePointFree, v.reparsePointFree, e.reparsePointFree) &&
            Settles(n.gitTrackedOriginalsAbsent, v.gitTrackedOriginalsAbsent, e.gitTrackedOriginalsAbsent)
  {
  }

  predicate Settles(result: Verification, newer: Verification, legacy: bool) {
    result != Unset && (result == VerifiedTrue <==> newer == VerifiedTrue || (newer == Unset && legacy)) &&
    (result == VerifiedFalse <==> newer == VerifiedFalse)
  }

  /** Dropping evidence, or learning of a dependency or a protected path, never makes a resource safer. */
  lemma LessEvidenceIsNoSafer(c: Context, cleanup: CleanupEvidence)
    requires cleanup.Complete() ==> c.cleanup.Complete()
    ensures Severity(Classify(c).level) <= Severity(Classify(c.(cleanup := cleanup)).level)
    ensures Severity(Classify(c).level) <= Severity(Classify(c.(protectedPath := true)).level)
    ensures Severity(Classify(c.(requiredByProject := false)).level) <= Severity(Classify(c).level)
  {
    hide CleanupEvidence.Complete;
  }
}

/** The checks of the fail-closed release certification, in the order and with the codes of
    scripts/release_certification.py:60-448. Texts that are missing, null or empty are the empty
    string; the default record stands for evidence that was not loaded. */
module ReleaseChecks {
  import opened Wrappers
  import opened Sorting
  import FM = FaultMatrix
  import PS = PaperSoak

  datatype Kind =
    | ReleaseConvergence | LocalDataCertification | RestoreDrill | FaultMatrixFile | SupplyChain
    | PaperSoakFile | ExternalWebhook | WindowsCertificate

  datatype Loaded<T> = NoPath | NoFile | BadJson | Json(payload: T)

  datatype Convergence = Convergence(
    passed: bool, managedStack: bool, releaseId: string, gitSha: string, openApiSha: string, frontendSha: string,
    aligned: bool, migration: string, migrationChecksum: string,
    databaseEngine: string, databaseStatus: string, brokerEngine: string, brokerStatus: string)

  datatype LocalData = LocalData(
    passed: bool, gitSha: string, releasePassed: bool, nestedReleaseId: string, ownReleaseId: string,
    nestedManifest: string, ownManifest: string, smokePassed: bool)

  datatype Restore = Restore(
    passed: bool, databaseEngine: string, checksumMatch: bool, rowCountDiff: int, gitSha: string, releaseId: string,
    dataReleaseId: string, manifestSha: string, projectionPassed: bool, projectionMode: string)

  datatype Supply = Supply(status: string, hasFailures: bool)
  datatype Windows = Windows(ready: bool, status: string)

  /** Timestamps are absent when missing or unreadable. */
  datatype Soak = Soak(
    passed: bool, mode: string, startedAt: Option<int>, completedAt: Option<int>, gitSha: string, releaseId: string,
    dataReleaseId: string, ledgerPassed: bool, recoveryPassed: bool)

  datatype Webhook = Webhook(passed: bool, thirdParty: bool, observedHours: real, persisted: bool)

  datatype Files = Files(
    convergence: Loaded<Convergence>, local: Loaded<LocalData>, restore: Loaded<Restore>, fault: Loaded<FM.Matrix>,
    supply: Loaded<Supply>, soak: Loaded<Soak>, webhook: Loaded<Webhook>, windows: Loaded<Windows>)

  /** A zero minimum is Python-false and falls back to the default. */
  datatype Policy = Policy(
    profiles: map<string, seq<Kind>>, windowsRequired: map<string, bool>, sourceLocks: seq<string>,
    requiredFaults: seq<string>, minimumDays: int, minimumHours: real)

  datatype Outcome = Bundle(certified: bool, blocked: seq<Code>) | Unsupported

  function Get<T>(loaded: bool, f: Loaded<T>, default: T): T {
    if loaded && f.Json? then f.payload else default
  }

  const NoConvergence := Convergence(false, false, "", "", "", "", false, "", "", "", "", "", "")
  const NoLocalData := LocalData(false, "", false, "", "", "", "", false)
  const NoRestore := Restore(false, "", false, 0, "", "", "", "", false, "")
  const NoMatrix := FM.Matrix(false, FM.Unbound, [], [], [], [], [], [], map[], [])
  const NoSoak := Soak(false, "", None, None, "", "", "", false, false)

  predicate Present(f: Files, k: Kind) {
    match k
    case ReleaseConvergence => f.convergence.Json?
    case LocalDataCertification => f.local.Json?
    case RestoreDrill => f.restore.Json?
    case FaultMatrixFile => f.fault.Json?
    case SupplyChain => f.supply.Json?
    case PaperSoakFile => f.soak.Json?
    case ExternalWebhook => f.webhook.Json?
    case WindowsCertificate => f.windows.Json?
  }

  /** The `code` of a blocked reason. */
  datatype Code =
    | ReleaseConvergenceFailed | GitShaMismatch | ReleaseIdMissing
    | MigrationIdentityInvalid | OpenapiHashInvalid | FrontendDigestInvalid
    | PostgresqlIdentityInvalid | RabbitmqIdentityInvalid | LocalDataCertificationFailed
    | LocalDataGitMismatch | DataReleaseIdentityMissing | DataReleaseManifestHashInvalid
    | FrozenDatareleaseLeanSmokeFailed | RestoreDrillFailed | RestoreInvariantsFailed
    | RestoreGitMismatch | RestoreReleaseIdMismatch | RestoreDataReleaseMismatch
    | RestoreDataManifestMismatch | FaultMatrixFailed | FaultMatrixGitMismatch
    | FaultMatrixReleaseIdMismatch | FaultScenarioMissingOrFailed | FaultScenarioEvidenceIncomplete
    | FaultScenarioIdentityMismatch | RestoredProjectionRebuildMissing | PaperSoakModeInvalid
    | PaperSoakTooShort | PaperSoakReleaseMismatch | PaperSoakDataReleaseMismatch
    | PaperSoakLedgerProjectionFailed | PaperSoakRecoveryFailed | ExternalWebhookNotCertified
    | ExternalWebhookWindowTooShort | ExternalWebhookDeliveryNotPersisted | SupplyChainFailed
    | WindowsRuntimeUncertified | SourceLockMissing | EvidencePathMissing
    | EvidenceFileMissing | EvidenceInvalidJson

  predicate AboutFaults(c: Code) {
    c in {FaultMatrixFailed, FaultMatrixGitMismatch, FaultMatrixReleaseIdMismatch,
          FaultScenarioMissingOrFailed, FaultScenarioEvidenceIncomplete, FaultScenarioIdentityMismatch}
  }

  function Problem<T>(l: Loaded<T>): Code {
    match l
    case NoPath => EvidencePathMissing
    case NoFile => EvidenceFileMissing
    case _ => EvidenceInvalidJson
  }

  function ProblemOf(f: Files, k: Kind): Code {
    match k
    case ReleaseConvergence => Problem(f.convergence)
    case LocalDataCertification => Problem(f.local)
    case RestoreDrill => Problem(f.restore)
    case FaultMatrixFile => Problem(f.fault)
    case SupplyChain => Problem(f.supply)
    case PaperSoakFile => Problem(f.soak)
    case ExternalWebhook => Problem(f.webhook)
    case WindowsCertificate => Problem(f.windows)
  }

  /** One call of `_require`: its condition and its code. */
  datatype Check = Check(holds: bool, code: Code)

  /** The reasons a list of `_require` calls appends, in order. */
  function Failing(checks: seq<Check>): seq<Code> {
    if checks == [] then []
    else if checks[0].holds then Failing(checks[1..])
    else [checks[0].code] + Failing(checks[1..])
  }

  ghost predicate AllHold(checks: seq<Check>) {
    forall i :: 0 <= i < |checks| ==> checks[i].holds
  }

  method RequireAll(blocked: seq<Code>, checks: seq<Check>) returns (r: seq<Code>)
    ensures r == blocked + Failing(checks)
  {
    r := blocked;
    for i := 0 to |checks|
      invariant r + Failing(checks[i..]) == blocked + Failing(checks)
    {
      assert checks[i..][1..] == checks[i + 1..];
      if !checks[i].holds {
        r := r + [checks[i].code];
      }
    }
  }

  lemma {:induction false} FailingMembers(checks: seq<Check>)
    ensures Failing(checks) == [] <==> AllHold(checks)
    ensures forall c :: c in Failing(checks) <==> Check(false, c) in checks
  {
    if checks != [] {
      FailingMembers(checks[1..]);
      assert checks == [checks[0]] + checks[1..];
    }
  }

  function DataReleaseId(l: LocalData): string {
    if l.nestedReleaseId != "" then l.nestedReleaseId else l.ownReleaseId
  }

  function ManifestSha(l: LocalData): string {
    if l.nestedManifest != "" then l.nestedManifest else l.ownManifest
  }

  // ----- The checks, section by section -----

  function ConvergenceChecks(c: Convergence, currentGit: string): seq<Check> {
    [Check(c.passed && c.managedStack, ReleaseConvergenceFailed),
     Check(c.gitSha == currentGit, GitShaMismatch),
     Check(c.releaseId != "" && c.releaseId !in {"dev", "unknown", "local-unversioned"}, ReleaseIdMissing),
     Check(c.aligned && c.migration != "" && PS.ValidSha256(c.migrationChecksum), MigrationIdentityInvalid),
     Check(PS.ValidSha256(c.openApiSha), OpenapiHashInvalid),
     Check(PS.ValidSha256(c.frontendSha), FrontendDigestInvalid),
     Check(c.databaseEngine == "postgresql" && c.databaseStatus == "ready", PostgresqlIdentityInvalid),
     Check(c.brokerEngine == "rabbitmq" && c.brokerStatus == "ready", RabbitmqIdentityInvalid)]
  }

  function LocalChecks(l: LocalData, gitSha: string): seq<Check> {
    [Check(l.passed, LocalDataCertificationFailed),
     Check(l.gitSha == gitSha, LocalDataGitMismatch),
     Check(l.releasePassed && DataReleaseId(l) != "", DataReleaseIdentityMissing),
     Check(PS.ValidSha256(ManifestSha(l)), DataReleaseManifestHashInvalid),
     Check(l.smokePassed, FrozenDatareleaseLeanSmokeFailed)]
  }

  function RestoreChecks(l: LocalData, r: Restore, gitSha: string, releaseId: string): seq<Check> {
    [Check(r.passed && r.databaseEngine == "postgresql", RestoreDrillFailed),
     Check(r.checksumMatch && r.rowCountDiff == 0, RestoreInvariantsFailed),
     Check(r.gitSha == gitSha, RestoreGitMismatch),
     Check(r.releaseId == releaseId, RestoreReleaseIdMismatch),
     Check(r.dataReleaseId == DataReleaseId(l), RestoreDataReleaseMismatch),
     Check(r.manifestSha == ManifestSha(l), RestoreDataManifestMismatch)]
  }

  /** What the fault section asks of one scenario of the matrix. */
  predicate ScenarioOk(m: FM.Matrix, gitSha: string, releaseId: string, n: string) {
    && n in m.scenarios && m.scenarios[n].passed
    && FM.Truthy(m.scenarios[n].trace) && FM.Truthy(m.scenarios[n].invariants)
    && m.scenarios[n].identity == FM.Identity(gitSha, gitSha, releaseId)
  }

  predicate FaultOk(required: seq<string>, m: FM.Matrix, gitSha: string, releaseId: string) {
    && m.passed && m.identity == FM.Identity(gitSha, gitSha, releaseId)
    && forall n :: n in required ==> ScenarioOk(m, gitSha, releaseId, n)
  }

  /** Lines 318-345, for one required scenario. */
  function ScenarioChecks(m: FM.Matrix, gitSha: string, releaseId: string, n: string): seq<Check> {
    if n !in m.scenarios then [Check(false, FaultScenarioMissingOrFailed)]
    else
      var s := m.scenarios[n];
      [Check(s.passed, FaultScenarioMissingOrFailed),
       Check(FM.Truthy(s.trace) && FM.Truthy(s.invariants), FaultScenarioEvidenceIncomplete),
       Check(s.identity == FM.Identity(gitSha, gitSha, releaseId), FaultScenarioIdentityMismatch)]
  }

  function AllScenarioChecks(required: seq<string>, m: FM.Matrix, gitSha: string, releaseId: string): seq<Check> {
    if required == [] then []
    else ScenarioChecks(m, gitSha, releaseId, required[0]) + AllScenarioChecks(required[1..], m, gitSha, releaseId)
  }

  /** Lines 295-345. */
  function FaultChecks(required: seq<string>, m: FM.Matrix, gitSha: string, releaseId: string): seq<Check> {
    [Check(m.passed, FaultMatrixFailed),
     Check(m.identity.gitSha == gitSha && m.identity.releaseGitSha == gitSha, FaultMatrixGitMismatch),
     Check(m.identity.releaseId == releaseId, FaultMatrixReleaseIdMismatch)]
    + AllScenarioChecks(required, m, gitSha, releaseId)
  }

  function MinimumDays(p: Policy): int {
    if p.minimumDays != 0 then p.minimumDays else 21
  }

  function MinimumHours(p: Policy): real {
    if p.minimumHours != 0.0 then p.minimumHours else 24.0
  }

  /** Lines 376-382. */
  function SoakElapsed(s: Soak): real {
    if s.startedAt.Some? && s.completedAt.Some? then PS.ElapsedDays(s.startedAt.value, s.completedAt.value) else 0.0
  }

  predicate AboutSoak(c: Code) {
    || c == PaperSoakModeInvalid || c == PaperSoakTooShort || c == PaperSoakReleaseMismatch
    || c == PaperSoakDataReleaseMismatch || c == PaperSoakLedgerProjectionFailed || c == PaperSoakRecoveryFailed
  }

  /** The release that the other evidence describes. */
  datatype Release = Release(gitSha: string, releaseId: string, dataReleaseId: string)

  /** Lines 384-420. */
  function SoakPart(p: Policy, s: Soak, r: Release): seq<Check> {
    [Check(s.passed && s.mode == "production_shape_observation", PaperSoakModeInvalid),
     Check(SoakElapsed(s) >= MinimumDays(p) as real, PaperSoakTooShort),
     Check(s.gitSha == r.gitSha && s.releaseId == r.releaseId, PaperSoakReleaseMismatch),
     Check(s.dataReleaseId == r.dataReleaseId, PaperSoakDataReleaseMismatch),
     Check(s.ledgerPassed, PaperSoakLedgerProjectionFailed),
     Check(s.recoveryPassed, PaperSoakRecoveryFailed)]
  }

  /** Lines 366-372. */
  function ProjectionPart(r: Restore): seq<Check> {
    [Check(r.projectionPassed && r.projectionMode == "apply", RestoredProjectionRebuildMissing)]
  }

  /** Lines 429-448. */
  function WebhookPart(p: Policy, w: Webhook): seq<Check> {
    [Check(w.passed && w.thirdParty, ExternalWebhookNotCertified),
     Check(w.observedHours >= MinimumHours(p), ExternalWebhookWindowTooShort),
     Check(w.persisted, ExternalWebhookDeliveryNotPersisted)]
  }

  /** Lines 365-448. */
  function PaperChecks(p: Policy, restore: Restore, s: Soak, w: Webhook, r: Release): seq<Check> {
    ProjectionPart(restore) + SoakPart(p, s, r) + WebhookPart(p, w)
  }

  /** Lines 121-130: the locked sources. */
  function LockChecks(locks: seq<string>, existing: set<string>): seq<Check> {
    Map((l: string) => Check(l in existing, SourceLockMissing), locks)
  }

  /** Lines 137-151: every required kind of evidence must load. */
  function EvidenceChecks(required: seq<Kind>, f: Files): seq<Check> {
    Map((k: Kind) => Check(Present(f, k), ProblemOf(f, k)), required)
  }

  function RequiredKinds(p: Policy, profile: string, runtime: string): seq<Kind>
    requires profile in p.profiles && runtime in p.windowsRequired
  {
    p.profiles[profile] + if p.windowsRequired[runtime] then [WindowsCertificate] else []
  }

  /** The payloads the checks see: what is required and loaded, else the default record. */
  datatype View = View(convergence: Convergence, local: LocalData, restore: Restore, fault: FM.Matrix,
                       supply: Supply, soak: Soak, webhook: Webhook, windows: Windows)

  function ViewOf(f: Files, loaded: set<Kind>): View {
    View(Get(ReleaseConvergence in loaded, f.convergence, NoConvergence),
         Get(LocalDataCertification in loaded, f.local, NoLocalData),
         Get(RestoreDrill in loaded, f.restore, NoRestore),
         Get(FaultMatrixFile in loaded, f.fault, NoMatrix),
         Get(SupplyChain in loaded, f.supply, Supply("", false)),
         Get(PaperSoakFile in loaded, f.soak, NoSoak),
         Get(ExternalWebhook in loaded, f.webhook, Webhook(false, false, 0.0, false)),
         Get(WindowsCertificate in loaded, f.windows, Windows(false, "")))
  }

  function Seen(p: Policy, profile: string, runtime: string, f: Files): View
    requires profile in p.profiles && runtime in p.windowsRequired
  {
    ViewOf(f, set k | k in RequiredKinds(p, profile, runtime) && Present(f, k))
  }

  /** The checks before the fault section, in order. */
  function EarlyChecks(p: Policy, profile: string, runtime: string, currentGit: string,
                       existing: set<string>, f: Files): seq<Check>
    requires profile in p.profiles && runtime in p.windowsRequired
  {
    var v := Seen(p, profile, runtime, f);
    LockChecks(p.sourceLocks, existing) + EvidenceChecks(RequiredKinds(p, profile, runtime), f)
    + ConvergenceChecks(v.convergence, currentGit)
    + LocalChecks(v.local, v.convergence.gitSha)
    + RestoreChecks(v.local, v.restore, v.convergence.gitSha, v.convergence.releaseId)
  }

  function ReleaseOf(v: View): Release {
    Release(v.convergence.gitSha, v.convergence.releaseId, DataReleaseId(v.local))
  }

  /** The checks of the paper profile. */
  function SoakChecks(p: Policy, profile: string, v: View): seq<Check> {
    if profile == "paper" then
      PaperChecks(p, v.restore, v.soak, v.webhook, ReleaseOf(v))
    else []
  }

  /** Every `_require` of `build_bundle`, in order. */
  function AllChecks(p: Policy, profile: string, runtime: string, currentGit: string,
                     existing: set<string>, f: Files): seq<Check>
    requires profile in p.profiles && runtime in p.windowsRequired
  {
    var v := Seen(p, profile, runtime, f);
    EarlyChecks(p, profile, runtime, currentGit, existing, f)
    + FaultChecks(p.requiredFaults, v.fault, v.convergence.gitSha, v.convergence.releaseId)
    + RuntimeChecks(p, runtime, v)
    + SoakChecks(p, profile, v)
  }

  /** Lines 347-362. */
  function RuntimeChecks(p: Policy, runtime: string, v: View): seq<Check>
    requires runtime in p.windowsRequired
  {
    [Check(v.supply.status == "passed" && !v.supply.hasFailures, SupplyChainFailed)]
    + (if p.windowsRequired[runtime]
       then [Check(v.windows.ready && v.windows.status == "WINDOWS_CELERY_CERTIFIED", WindowsRuntimeUncertified)]
       else [])
  }

  // ----- One section after the other -----

  lemma {:induction false} FailingSplit(a: seq<Check>, b: seq<Check>)
    ensures Failing(a + b) == Failing(a) + Failing(b)
  {
    if a == [] {
      assert a + b == b;
    } else {
      var x, rest := a[0], a[1..];
      FailingSplit(rest, b);
      assert (a + b)[0] == x && (a + b)[1..] == rest + b;
      assert [x.code] + (Failing(rest) + Failing(b)) == [x.code] + Failing(rest) + Failing(b);
    }
  }

  /** Append the reasons of the next section to those of the sections before. */
  method Require(blocked: seq<Code>, ghost done: seq<Check>, checks: seq<Check>) returns (r: seq<Code>)
    requires blocked == Failing(done)
    ensures r == Failing(done + checks)
  {
    r := RequireAll(blocked, checks);
    FailingSplit(done, checks);
  }
}

/** Every reason for which the release certification refuses, by code: exactly when it is given, and
    in which order. scripts/release_certification.py:117-448. */
module ReleaseReasons {
  import opened Wrappers
  import opened Sorting
  import opened ReleaseChecks
  import FM = FaultMatrix
  import PS = PaperSoak

  // ----- Convergence, local data and restore: lines 164-293 -----

  ghost predicate ConvergenceReason(c: Convergence, currentGit: string, code: Code) {
    || (code == ReleaseConvergenceFailed && !(c.passed && c.managedStack))
    || (code == GitShaMismatch && c.gitSha != currentGit)
    || (code == ReleaseIdMissing && c.releaseId in {"", "dev", "unknown", "local-unversioned"})
    || (code == MigrationIdentityInvalid && !(c.aligned && c.migration != "" && PS.Hex64(c.migrationChecksum)))
    || (code == OpenapiHashInvalid && !PS.Hex64(c.openApiSha))
    || (code == FrontendDigestInvalid && !PS.Hex64(c.frontendSha))
    || (code == PostgresqlIdentityInvalid && !(c.databaseEngine == "postgresql" && c.databaseStatus == "ready"))
    || (code == RabbitmqIdentityInvalid && !(c.brokerEngine == "rabbitmq" && c.brokerStatus == "ready"))
  }

  lemma ConvergenceReasons(c: Convergence, currentGit: string, code: Code)
    ensures Check(false, code) in ConvergenceChecks(c, currentGit) <==> ConvergenceReason(c, currentGit, code)
  {
    PS.Sha256Meaning(c.migrationChecksum);
    PS.Sha256Meaning(c.openApiSha);
    PS.Sha256Meaning(c.frontendSha);
  }

  /** The data release that the local data evidence names: the nested record's, else its own. */
  ghost function NamedRelease(l: LocalData): string {
    if l.nestedReleaseId == "" then l.ownReleaseId else l.nestedReleaseId
  }

  ghost function NamedManifest(l: LocalData): string {
    if l.nestedManifest == "" then l.ownManifest else l.nestedManifest
  }

  ghost predicate LocalReason(l: LocalData, gitSha: string, code: Code) {
    || (code == LocalDataCertificationFailed && !l.passed)
    || (code == LocalDataGitMismatch && l.gitSha != gitSha)
    || (code == DataReleaseIdentityMissing && !(l.releasePassed && NamedRelease(l) != ""))
    || (code == DataReleaseManifestHashInvalid && !PS.Hex64(NamedManifest(l)))
    || (code == FrozenDatareleaseLeanSmokeFailed && !l.smokePassed)
  }

  lemma LocalReasons(l: LocalData, gitSha: string, code: Code)
    ensures Check(false, code) in LocalChecks(l, gitSha) <==> LocalReason(l, gitSha, code)
  {
    PS.Sha256Meaning(NamedManifest(l));
  }

  ghost predicate RestoreReason(l: LocalData, r: Restore, gitSha: string, releaseId: string, code: Code) {
    || (code == RestoreDrillFailed && !(r.passed && r.databaseEngine == "postgresql"))
    || (code == RestoreInvariantsFailed && !(r.checksumMatch && r.rowCountDiff == 0))
    || (code == RestoreGitMismatch && r.gitSha != gitSha)
    || (code == RestoreReleaseIdMismatch && r.releaseId != releaseId)
    || (code == RestoreDataReleaseMismatch && r.dataReleaseId != NamedRelease(l))
    || (code == RestoreDataManifestMismatch && r.manifestSha != NamedManifest(l))
  }

  lemma RestoreReasons(l: LocalData, r: Restore, gitSha: string, releaseId: string, code: Code)
    ensures Check(false, code) in RestoreChecks(l, r, gitSha, releaseId) <==>
            RestoreReason(l, r, gitSha, releaseId, code)
  {
  }

  // ----- Faults: lines 295-345 -----

  /** A field that Python takes for true: an object with entries, or another true value. */
  ghost predicate Given(f: FM.Field) {
    match f
    case Absent => false
    case Other(truthy) => truthy
    case Object(entries) => entries != map[]
  }

  ghost predicate OfRelease(i: FM.Identity, gitSha: string, releaseId: string) {
    i.gitSha == gitSha && i.releaseGitSha == gitSha && i.releaseId == releaseId
  }

  ghost predicate ScenarioReason(m: FM.Matrix, gitSha: string, releaseId: string, n: string, code: Code) {
    || (code == FaultScenarioMissingOrFailed && !(n in m.scenarios && m.scenarios[n].passed))
    || (code == FaultScenarioEvidenceIncomplete &&
        n in m.scenarios && !(Given(m.scenarios[n].trace) && Given(m.scenarios[n].invariants)))
    || (code == FaultScenarioIdentityMismatch &&
        n in m.scenarios && !OfRelease(m.scenarios[n].identity, gitSha, releaseId))
  }

  ghost predicate FaultReason(required: seq<string>, m: FM.Matrix, gitSha: string, releaseId: string, code: Code) {
    || (code == FaultMatrixFailed && !m.passed)
    || (code == FaultMatrixGitMismatch && !(m.identity.gitSha == gitSha && m.identity.releaseGitSha == gitSha))
    || (code == FaultMatrixReleaseIdMismatch && m.identity.releaseId != releaseId)
    || exists n :: n in required && ScenarioReason(m, gitSha, releaseId, n, code)
  }

  lemma ScenarioReasons(m: FM.Matrix, gitSha: string, releaseId: string, n: string, code: Code)
    ensures Check(false, code) in ScenarioChecks(m, gitSha, releaseId, n) <==>
            ScenarioReason(m, gitSha, releaseId, n, code)
  {
  }

  lemma {:induction false} AllScenarioReasons(required: seq<string>, m: FM.Matrix, gitSha: string, releaseId: string,
                                              code: Code)
    ensures Check(false, code) in AllScenarioChecks(required, m, gitSha, releaseId) <==>
            exists n :: n in required && ScenarioReason(m, gitSha, releaseId, n, code)
  {
    if required != [] {
      ScenarioReasons(m, gitSha, releaseId, required[0], code);
      AllScenarioReasons(required[1..], m, gitSha, releaseId, code);
      assert required == [required[0]] + required[1..];
    }
  }

  lemma FaultReasons(required: seq<string>, m: FM.Matrix, gitSha: string, releaseId: string, code: Code)
    ensures Check(false, code) in FaultChecks(required, m, gitSha, releaseId) <==>
            FaultReason(required, m, gitSha, releaseId, code)
  {
    AllScenarioReasons(required, m, gitSha, releaseId, code);
  }

  // ----- Supply chain and Windows: lines 347-362 -----

  ghost predicate RuntimeReason(windows: bool, v: View, code: Code) {
    || (code == SupplyChainFailed && (v.supply.status != "passed" || v.supply.hasFailures))
    || (code == WindowsRuntimeUncertified && windows &&
        !(v.windows.ready && v.windows.status == "WINDOWS_CELERY_CERTIFIED"))
  }

  lemma RuntimeReasons(p: Policy, runtime: string, v: View, code: Code)
    requires runtime in p.windowsRequired
    ensures Check(false, code) in RuntimeChecks(p, runtime, v) <==> RuntimeReason(p.windowsRequired[runtime], v, code)
  {
  }

  // ----- Paper: lines 365-448 -----

  /** The policy's own minimum, or 21 days and 24 hours where it gives none. */
  ghost function Days(p: Policy): int {
    if p.minimumDays == 0 then 21 else p.minimumDays
  }

  ghost function Hours(p: Policy): real {
    if p.minimumHours == 0.0 then 24.0 else p.minimumHours
  }

  /** The soak has both times and lasted so many days of 86400 seconds. */
  ghost predicate Lasted(s: Soak, days: int) {
    days <= 0 ||
    (s.startedAt.Some? && s.completedAt.Some? && s.completedAt.value - s.startedAt.value >= days * 86400)
  }

  lemma LastedMeaning(p: Policy, s: Soak)
    ensures SoakElapsed(s) >= MinimumDays(p) as real <==> Lasted(s, Days(p))
  {
    if Days(p) > 0 && s.startedAt.Some? && s.completedAt.Some? {
      PS.ElapsedReaches(s.startedAt.value, s.completedAt.value, Days(p));
    }
  }

  ghost predicate ProjectionReason(r: Restore, code: Code) {
    code == RestoredProjectionRebuildMissing && !(r.projectionPassed && r.projectionMode == "apply")
  }

  ghost predicate SoakReason(p: Policy, s: Soak, r: Release, code: Code) {
    || (code == PaperSoakModeInvalid && !(s.passed && s.mode == "production_shape_observation"))
    || (code == PaperSoakTooShort && !Lasted(s, Days(p)))
    || (code == PaperSoakReleaseMismatch && !(s.gitSha == r.gitSha && s.releaseId == r.releaseId))
    || (code == PaperSoakDataReleaseMismatch && s.dataReleaseId != r.dataReleaseId)
    || (code == PaperSoakLedgerProjectionFailed && !s.ledgerPassed)
    || (code == PaperSoakRecoveryFailed && !s.recoveryPassed)
  }

  ghost predicate WebhookReason(p: Policy, w: Webhook, code: Code) {
    || (code == ExternalWebhookNotCertified && !(w.passed && w.thirdParty))
    || (code == ExternalWebhookWindowTooShort && w.observedHours < Hours(p))
    || (code == ExternalWebhookDeliveryNotPersisted && !w.persisted)
  }

  ghost predicate PaperReason(p: Policy, v: View, code: Code) {
    || ProjectionReason(v.restore, code)
    || SoakReason(p, v.soak, Release(v.convergence.gitSha, v.convergence.releaseId, NamedRelease(v.local)), code)
    || WebhookReason(p, v.webhook, code)
  }

  lemma ProjectionReasons(r: Restore, code: Code)
    ensures Check(false, code) in ProjectionPart(r) <==> ProjectionReason(r, code)
  {
  }

  lemma SoakReasons(p: Policy, s: Soak, r: Release, code: Code)
    ensures Check(false, code) in SoakPart(p, s, r) <==> SoakReason(p, s, r, code)
  {
    LastedMeaning(p, s);
  }

  lemma WebhookReasons(p: Policy, w: Webhook, code: Code)
    ensures Check(false, code) in WebhookPart(p, w) <==> WebhookReason(p, w, code)
  {
  }

  lemma InThree(a: seq<Check>, b: seq<Check>, c: seq<Check>, x: Check)
    ensures x in a + b + c <==> x in a || x in b || x in c
  {
  }

  lemma PaperReasons(p: Policy, v: View, code: Code)
    ensures Check(false, code) in SoakChecks(p, "paper", v) <==> PaperReason(p, v, code)
  {
    ProjectionReasons(v.restore, code);
    SoakReasons(p, v.soak, ReleaseOf(v), code);
    WebhookReasons(p, v.webhook, code);
    InThree(ProjectionPart(v.restore), SoakPart(p, v.soak, ReleaseOf(v)), WebhookPart(p, v.webhook),
            Check(false, code));
  }

  // ----- Locks and evidence: lines 121-151 -----

  ghost predicate Required(p: Policy, profile: string, runtime: string, k: Kind)
    requires profile in p.profiles && runtime in p.windowsRequired
  {
    k in p.profiles[profile] || (p.windowsRequired[runtime] && k == WindowsCertificate)
  }

  ghost function TroubleOf<T>(l: Loaded<T>): Option<Code> {
    match l
    case NoPath => Some(EvidencePathMissing)
    case NoFile => Some(EvidenceFileMissing)
    case BadJson => Some(EvidenceInvalidJson)
    case Json(_) => None
  }

  /** What is wrong with the evidence of a kind, if anything. */
  ghost function Trouble(f: Files, k: Kind): Option<Code> {
    match k
    case ReleaseConvergence => TroubleOf(f.convergence)
    case LocalDataCertification => TroubleOf(f.local)
    case RestoreDrill => TroubleOf(f.restore)
    case FaultMatrixFile => TroubleOf(f.fault)
    case SupplyChain => TroubleOf(f.supply)
    case PaperSoakFile => TroubleOf(f.soak)
    case ExternalWebhook => TroubleOf(f.webhook)
    case WindowsCertificate => TroubleOf(f.windows)
  }

  ghost predicate EvidenceReason(p: Policy, profile: string, runtime: string, existing: set<string>, f: Files,
                                 code: Code)
    requires profile in p.profiles && runtime in p.windowsRequired
  {
    || (code == SourceLockMissing && exists l :: l in p.sourceLocks && l !in existing)
    || exists k :: Required(p, profile, runtime, k) && Trouble(f, k) == Some(code)
  }

  lemma TroubleMeaning(f: Files, k: Kind)
    ensures Present(f, k) <==> Trouble(f, k) == None
    ensures !Present(f, k) ==> Trouble(f, k) == Some(ProblemOf(f, k))
  {
  }

  lemma InMap<T>(g: T -> Check, s: seq<T>, x: Check)
    ensures x in Map(g, s) <==> exists e :: e in s && g(e) == x
  {
    if x in Map(g, s) {
      var i :| 0 <= i < |s| && Map(g, s)[i] == x;
      assert s[i] in s && g(s[i]) == x;
    }
    if e :| e in s && g(e) == x {
      var i :| 0 <= i < |s| && s[i] == e;
      assert Map(g, s)[i] == x;
    }
  }

  lemma LockReasons(locks: seq<string>, existing: set<string>, code: Code)
    ensures Check(false, code) in LockChecks(locks, existing) <==>
            code == SourceLockMissing && exists l :: l in locks && l !in existing
  {
    var g := (l: string) => Check(l in existing, SourceLockMissing);
    assert LockChecks(locks, existing) == Map(g, locks);
    InMap(g, locks, Check(false, code));
  }

  lemma FileReasons(p: Policy, profile: string, runtime: string, f: Files, code: Code)
    requires profile in p.profiles && runtime in p.windowsRequired
    ensures Check(false, code) in EvidenceChecks(RequiredKinds(p, profile, runtime), f) <==>
            exists k :: Required(p, profile, runtime, k) && Trouble(f, k) == Some(code)
  {
    var g := (k: Kind) => Check(Present(f, k), ProblemOf(f, k));
    var kinds := RequiredKinds(p, profile, runtime);
    assert EvidenceChecks(kinds, f) == Map(g, kinds);
    InMap(g, kinds, Check(false, code));
    forall k ensures k in kinds <==> Required(p, profile, runtime, k) {}
    forall k ensures g(k) == Check(false, code) <==> Trouble(f, k) == Some(code) { TroubleMeaning(f, k); }
  }

  // ----- What the checks see -----

  /** A section sees its payload exactly if the evidence is required and loads, else the default. */
  lemma SeenMeaning(p: Policy, profile: string, runtime: string, f: Files)
    requires profile in p.profiles && runtime in p.windowsRequired
    ensures var v := Seen(p, profile, runtime, f);
            && v.convergence == (if Required(p, profile, runtime, ReleaseConvergence) && f.convergence.Json?
                                 then f.convergence.payload else NoConvergence)
            && v.local == (if Required(p, profile, runtime, LocalDataCertification) && f.local.Json?
                           then f.local.payload else NoLocalData)
            && v.restore == (if Required(p, profile, runtime, RestoreDrill) && f.restore.Json?
                             then f.restore.payload else NoRestore)
            && v.fault == (if Required(p, profile, runtime, FaultMatrixFile) && f.fault.Json?
                           then f.fault.payload else NoMatrix)
            && v.supply == (if Required(p, profile, runtime, SupplyChain) && f.supply.Json?
                            then f.supply.payload else Supply("", false))
            && v.soak == (if Required(p, profile, runtime, PaperSoakFile) && f.soak.Json?
                          then f.soak.payload else NoSoak)
            && v.webhook == (if Required(p, profile, runtime, ExternalWebhook) && f.webhook.Json?
                             then f.webhook.payload else Webhook(false, false, 0.0, false))
            && v.windows == (if Required(p, profile, runtime, WindowsCertificate) && f.windows.Json?
                             then f.windows.payload else Windows(false, ""))
  {
    var kinds := RequiredKinds(p, profile, runtime);
    forall k ensures k in kinds <==> Required(p, profile, runtime, k) {}
  }

  // ----- All reasons -----

  /** When the certification gives the reason `code`. */
  ghost predicate Reason(p: Policy, profile: string, runtime: string, currentGit: string,
                         existing: set<string>, f: Files, code: Code)
    requires profile in p.profiles && runtime in p.windowsRequired
  {
    var v := Seen(p, profile, runtime, f);
    var git, id := v.convergence.gitSha, v.convergence.releaseId;
    || EvidenceReason(p, profile, runtime, existing, f, code)
    || ConvergenceReason(v.convergence, currentGit, code)
    || LocalReason(v.local, git, code)
    || RestoreReason(v.local, v.restore, git, id, code)
    || FaultReason(p.requiredFaults, v.fault, git, id, code)
    || RuntimeReason(p.windowsRequired[runtime], v, code)
    || (profile == "paper" && PaperReason(p, v, code))
  }

  lemma InFive(a: seq<Check>, b: seq<Check>, c: seq<Check>, d: seq<Check>, e: seq<Check>, x: Check)
    ensures x in a + b + c + d + e <==> x in a || x in b || x in c || x in d || x in e
  {
  }

  /** A reason is given exactly when it applies. */
  lemma ReasonGiven(p: Policy, profile: string, runtime: string, currentGit: string,
                    existing: set<string>, f: Files, code: Code)
    requires profile in p.profiles && runtime in p.windowsRequired
    ensures code in Failing(AllChecks(p, profile, runtime, currentGit, existing, f)) <==>
            Reason(p, profile, runtime, currentGit, existing, f, code)
  {
    var v := Seen(p, profile, runtime, f);
    var git, id, x := v.convergence.gitSha, v.convergence.releaseId, Check(false, code);
    FailingMembers(AllChecks(p, profile, runtime, currentGit, existing, f));
    LockReasons(p.sourceLocks, existing, code);
    FileReasons(p, profile, runtime, f, code);
    ConvergenceReasons(v.convergence, currentGit, code);
    LocalReasons(v.local, git, code);
    RestoreReasons(v.local, v.restore, git, id, code);
    FaultReasons(p.requiredFaults, v.fault, git, id, code);
    RuntimeReasons(p, runtime, v, code);
    PaperReasons(p, v, code);
    InFive(LockChecks(p.sourceLocks, existing), EvidenceChecks(RequiredKinds(p, profile, runtime), f),
           ConvergenceChecks(v.convergence, currentGit), LocalChecks(v.local, git),
           RestoreChecks(v.local, v.restore, git, id), x);
    InFive(EarlyChecks(p, profile, runtime, currentGit, existing, f), FaultChecks(p.requiredFaults, v.fault, git, id),
           RuntimeChecks(p, runtime, v), SoakChecks(p, profile, v), [], x);
    var all := AllChecks(p, profile, runtime, currentGit, existing, f);
    assert all + [] == all;
  }

  // ----- The order of the reasons -----

  /** Where a reason stands: locks, evidence, then the sections in turn; the reasons about required
      scenarios come scenario by scenario. */
  ghost function Position(c: Code): nat {
    match c
    case SourceLockMissing => 0
    case EvidencePathMissing => 1
    case EvidenceFileMissing => 1
    case EvidenceInvalidJson => 1
    case ReleaseConvergenceFailed => 2
    case GitShaMismatch => 3
    case ReleaseIdMissing => 4
    case MigrationIdentityInvalid => 5
    case OpenapiHashInvalid => 6
    case FrontendDigestInvalid => 7
    case PostgresqlIdentityInvalid => 8
    case RabbitmqIdentityInvalid => 9
    case LocalDataCertificationFailed => 10
    case LocalDataGitMismatch => 11
    case DataReleaseIdentityMissing => 12
    case DataReleaseManifestHashInvalid => 13
    case FrozenDatareleaseLeanSmokeFailed => 14
    case RestoreDrillFailed => 15
    case RestoreInvariantsFailed => 16
    case RestoreGitMismatch => 17
    case RestoreReleaseIdMismatch => 18
    case RestoreDataReleaseMismatch => 19
    case RestoreDataManifestMismatch => 20
    case FaultMatrixFailed => 21
    case FaultMatrixGitMismatch => 22
    case FaultMatrixReleaseIdMismatch => 23
    case FaultScenarioMissingOrFailed => 24
    case FaultScenarioEvidenceIncomplete => 24
    case FaultScenarioIdentityMismatch => 24
    case SupplyChainFailed => 25
    case WindowsRuntimeUncertified => 26
    case RestoredProjectionRebuildMissing => 27
    case PaperSoakModeInvalid => 28
    case PaperSoakTooShort => 29
    case PaperSoakReleaseMismatch => 30
    case PaperSoakDataReleaseMismatch => 31
    case PaperSoakLedgerProjectionFailed => 32
    case PaperSoakRecoveryFailed => 33
    case ExternalWebhookNotCertified => 34
    case ExternalWebhookWindowTooShort => 35
    case ExternalWebhookDeliveryNotPersisted => 36
  }

  ghost predicate InOrder(codes: seq<Code>) {
    forall i, j :: 0 <= i < j < |codes| ==> Position(codes[i]) <= Position(codes[j])
  }

  /** Checks in order whose positions lie between two bounds. */
  ghost predicate Within(checks: seq<Check>, low: nat, high: nat) {
    && (forall i :: 0 <= i < |checks| ==> low <= Position(checks[i].code) <= high)
    && forall i, j :: 0 <= i < j < |checks| ==> Position(checks[i].code) <= Position(checks[j].code)
  }

  lemma WithinConcat(a: seq<Check>, b: seq<Check>, low: nat, mid: nat, high: nat)
    requires Within(a, low, mid) && Within(b, mid, high) && low <= mid <= high
    ensures Within(a + b, low, high)
  {
  }

  lemma {:induction false} FailingInOrder(checks: seq<Check>, low: nat, high: nat)
    requires Within(checks, low, high)
    ensures InOrder(Failing(checks)) && forall c :: c in Failing(checks) ==> low <= Position(c) <= high
  {
    if checks != [] {
      var first := Position(checks[0].code);
      FailingInOrder(checks[1..], first, high);
    }
  }

  lemma CollectWithin(locks: seq<string>, existing: set<string>, kinds: seq<Kind>, f: Files)
    ensures Within(LockChecks(locks, existing), 0, 0) && Within(EvidenceChecks(kinds, f), 1, 1)
  {
    forall k ensures Position(ProblemOf(f, k)) == 1 {}
  }

  lemma ConvergenceWithin(c: Convergence, currentGit: string)
    ensures Within(ConvergenceChecks(c, currentGit), 2, 9)
  {
    var l := ConvergenceChecks(c, currentGit);
    assert forall i :: 0 <= i < |l| ==> Position(l[i].code) == 2 + i;
  }

  lemma LocalWithin(d: LocalData, git: string)
    ensures Within(LocalChecks(d, git), 10, 14)
  {
    var l := LocalChecks(d, git);
    assert forall i :: 0 <= i < |l| ==> Position(l[i].code) == 10 + i;
  }

  lemma RestoreWithin(d: LocalData, r: Restore, git: string, id: string)
    ensures Within(RestoreChecks(d, r, git, id), 15, 20)
  {
    var l := RestoreChecks(d, r, git, id);
    assert forall i :: 0 <= i < |l| ==> Position(l[i].code) == 15 + i;
  }

  lemma {:induction false} ScenariosWithin(required: seq<string>, m: FM.Matrix, gitSha: string, releaseId: string)
    ensures Within(AllScenarioChecks(required, m, gitSha, releaseId), 24, 24)
  {
    if required != [] {
      ScenariosWithin(required[1..], m, gitSha, releaseId);
      WithinConcat(ScenarioChecks(m, gitSha, releaseId, required[0]),
                   AllScenarioChecks(required[1..], m, gitSha, releaseId), 24, 24, 24);
    }
  }

  lemma MatrixWithin(m: FM.Matrix, gitSha: string, releaseId: string)
    ensures Within(FaultChecks([], m, gitSha, releaseId), 21, 24)
  {
    var l := FaultChecks([], m, gitSha, releaseId);
    assert |l| == 3 && forall i :: 0 <= i < |l| ==> Position(l[i].code) == 21 + i;
  }

  lemma FaultsWithin(required: seq<string>, m: FM.Matrix, gitSha: string, releaseId: string)
    ensures Within(FaultChecks(required, m, gitSha, releaseId), 21, 24)
  {
    ScenariosWithin(required, m, gitSha, releaseId);
    var head := FaultChecks([], m, gitSha, releaseId);
    MatrixWithin(m, gitSha, releaseId);
    assert FaultChecks(required, m, gitSha, releaseId) == head + AllScenarioChecks(required, m, gitSha, releaseId);
    WithinConcat(head, AllScenarioChecks(required, m, gitSha, releaseId), 21, 24, 24);
  }

  lemma RuntimeWithin(p: Policy, runtime: string, v: View)
    requires runtime in p.windowsRequired
    ensures Within(RuntimeChecks(p, runtime, v), 25, 26)
  {
    var l := RuntimeChecks(p, runtime, v);
    assert forall i :: 0 <= i < |l| ==> Position(l[i].code) == 25 + i;
  }

  lemma SoakWithin(p: Policy, s: Soak, r: Release)
    ensures Within(SoakPart(p, s, r), 28, 33)
  {
    var l := SoakPart(p, s, r);
    assert forall i :: 0 <= i < |l| ==> Position(l[i].code) == 28 + i;
  }

  lemma WebhookWithin(p: Policy, w: Webhook)
    ensures Within(WebhookPart(p, w), 33, 36)
  {
    var l := WebhookPart(p, w);
    assert forall i :: 0 <= i < |l| ==> Position(l[i].code) == 34 + i;
  }

  lemma PaperWithin(p: Policy, profile: string, v: View)
    ensures Within(SoakChecks(p, profile, v), 27, 36)
  {
    var a, s, w := ProjectionPart(v.restore), SoakPart(p, v.soak, ReleaseOf(v)), WebhookPart(p, v.webhook);
    assert Within(a, 27, 28);
    SoakWithin(p, v.soak, ReleaseOf(v));
    WebhookWithin(p, v.webhook);
    WithinConcat(a, s, 27, 28, 33);
    WithinConcat(a + s, w, 27, 33, 36);
  }

  /** The reasons come in the order of the sections. */
  lemma ReasonsInOrder(p: Policy, profile: string, runtime: string, currentGit: string,
                       existing: set<string>, f: Files)
    requires profile in p.profiles && runtime in p.windowsRequired
    ensures InOrder(Failing(AllChecks(p, profile, runtime, currentGit, existing, f)))
  {
    var v := Seen(p, profile, runtime, f);
    var git, id := v.convergence.gitSha, v.convergence.releaseId;
    var locks, evidence := LockChecks(p.sourceLocks, existing), EvidenceChecks(RequiredKinds(p, profile, runtime), f);
    var core, local := ConvergenceChecks(v.convergence, currentGit), LocalChecks(v.local, git);
    var restore, faults := RestoreChecks(v.local, v.restore, git, id), FaultChecks(p.requiredFaults, v.fault, git, id);
    CollectWithin(p.sourceLocks, existing, RequiredKinds(p, profile, runtime), f);
    ConvergenceWithin(v.convergence, currentGit);
    LocalWithin(v.local, git);
    RestoreWithin(v.local, v.restore, git, id);
    FaultsWithin(p.requiredFaults, v.fault, git, id);
    RuntimeWithin(p, runtime, v);
    PaperWithin(p, profile, v);
    WithinConcat(locks, evidence, 0, 1, 2);
    WithinConcat(locks + evidence, core, 0, 2, 10);
    WithinConcat(locks + evidence + core, local, 0, 10, 15);
    WithinConcat(locks + evidence + core + local, restore, 0, 15, 21);
    var early := locks + evidence + core + local + restore;
    WithinConcat(early, faults, 0, 21, 25);
    WithinConcat(early + faults, RuntimeChecks(p, runtime, v), 0, 25, 27);
    WithinConcat(early + faults + RuntimeChecks(p, runtime, v), SoakChecks(p, profile, v), 0, 27, 36);
    FailingInOrder(AllChecks(p, profile, runtime, currentGit, existing, f), 0, 36);
  }
}

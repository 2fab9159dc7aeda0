/** When the release certification issues a certificate, why not otherwise, and what a certificate
    stands for. scripts/release_certification.py:100-486. */
module ReleaseBundle {
  import opened Wrappers
  import opened Sorting
  import opened ReleaseChecks
  import opened ReleaseReasons
  import FM = FaultMatrix
  import PS = PaperSoak

  // ----- What a certificate stands for -----

  /** Evidence no certificate can do without. */
  function Needed(p: Policy, profile: string, runtime: string): set<Kind>
    requires runtime in p.windowsRequired
  {
    {ReleaseConvergence, LocalDataCertification, RestoreDrill, FaultMatrixFile, SupplyChain}
    + (if profile == "paper" then {PaperSoakFile, ExternalWebhook} else {})
    + (if p.windowsRequired[runtime] then {WindowsCertificate} else {})
  }

  /** Locked sources exist, required evidence loads, and the policy requires what is needed. */
  ghost predicate Complete(p: Policy, profile: string, runtime: string, existing: set<string>, f: Files)
    requires profile in p.profiles && runtime in p.windowsRequired
  {
    && (forall l :: l in p.sourceLocks ==> l in existing)
    && (forall k :: Required(p, profile, runtime, k) ==> Trouble(f, k) == None)
    && (forall k :: k in Needed(p, profile, runtime) ==> Required(p, profile, runtime, k))
  }

  /** Everything describes the checked-out commit, one release id and one data release. */
  ghost predicate OneRelease(profile: string, currentGit: string, v: View) {
    var id, data := v.convergence.releaseId, NamedRelease(v.local);
    && v.convergence.gitSha == currentGit && v.local.gitSha == currentGit && v.restore.gitSha == currentGit
    && v.restore.releaseId == id
    && v.restore.dataReleaseId == data && v.restore.manifestSha == NamedManifest(v.local)
    && (profile == "paper" ==> v.soak.gitSha == currentGit && v.soak.releaseId == id && v.soak.dataReleaseId == data)
  }

  /** Release, migration and data are identified, and their hashes are hashes. */
  ghost predicate Identified(v: View) {
    && v.convergence.releaseId !in {"", "dev", "unknown", "local-unversioned"}
    && v.convergence.migration != "" && NamedRelease(v.local) != ""
    && PS.Hex64(v.convergence.migrationChecksum) && PS.Hex64(v.convergence.openApiSha)
    && PS.Hex64(v.convergence.frontendSha) && PS.Hex64(NamedManifest(v.local))
  }

  lemma IdentifiedMeaning(v: View)
    ensures Identified(v) <==>
            && v.convergence.releaseId !in {"", "dev", "unknown", "local-unversioned"}
            && v.convergence.migration != "" && NamedRelease(v.local) != ""
            && PS.ValidSha256(v.convergence.migrationChecksum) && PS.ValidSha256(v.convergence.openApiSha)
            && PS.ValidSha256(v.convergence.frontendSha) && PS.ValidSha256(NamedManifest(v.local))
  {
    PS.Sha256Meaning(v.convergence.migrationChecksum);
    PS.Sha256Meaning(v.convergence.openApiSha);
    PS.Sha256Meaning(v.convergence.frontendSha);
    PS.Sha256Meaning(NamedManifest(v.local));
  }

  lemma CompleteMeaning(p: Policy, profile: string, runtime: string, existing: set<string>, f: Files)
    requires profile in p.profiles && runtime in p.windowsRequired
    ensures Complete(p, profile, runtime, existing, f) <==>
            && (forall l :: l in p.sourceLocks ==> l in existing)
            && (forall k :: k in RequiredKinds(p, profile, runtime) ==> Present(f, k))
            && (forall k :: k in Needed(p, profile, runtime) ==> k in RequiredKinds(p, profile, runtime))
  {
    forall k
      ensures k in RequiredKinds(p, profile, runtime) <==> Required(p, profile, runtime, k)
      ensures Present(f, k) <==> Trouble(f, k) == None
    {
      TroubleMeaning(f, k);
    }
  }

  /** Every verdict is positive. */
  predicate AllPassed(profile: string, windows: bool, v: View) {
    && v.convergence.passed && v.convergence.managedStack && v.convergence.aligned
    && v.local.passed && v.local.releasePassed && v.local.smokePassed
    && v.restore.passed && v.restore.checksumMatch && v.restore.rowCountDiff == 0
    && v.supply == Supply("passed", false)
    && (windows ==> v.windows == Windows(true, "WINDOWS_CELERY_CERTIFIED"))
    && (profile == "paper" ==>
          v.restore.projectionPassed && v.soak.passed && v.soak.ledgerPassed && v.soak.recoveryPassed &&
          v.webhook.passed && v.webhook.thirdParty && v.webhook.persisted)
  }

  /** The release ran, and was restored and observed, in its production shape. */
  predicate ProductionShape(profile: string, v: View) {
    && v.convergence.databaseEngine == "postgresql" && v.convergence.databaseStatus == "ready"
    && v.convergence.brokerEngine == "rabbitmq" && v.convergence.brokerStatus == "ready"
    && v.restore.databaseEngine == "postgresql"
    && (profile == "paper" ==> v.restore.projectionMode == "apply" && v.soak.mode == "production_shape_observation")
  }

  ghost predicate LongEnough(p: Policy, profile: string, v: View) {
    profile == "paper" ==> Lasted(v.soak, Days(p)) && v.webhook.observedHours >= Hours(p)
  }

  /** A release that may be certified: complete evidence of one identified release, everything
      passed in production shape and observed long enough, every required fault survived. */
  ghost predicate Certifiable(p: Policy, profile: string, runtime: string, currentGit: string,
                              existing: set<string>, f: Files)
    requires profile in p.profiles && runtime in p.windowsRequired
  {
    var v := Seen(p, profile, runtime, f);
    && Complete(p, profile, runtime, existing, f)
    && OneRelease(profile, currentGit, v) && Identified(v)
    && AllPassed(profile, p.windowsRequired[runtime], v) && ProductionShape(profile, v) && LongEnough(p, profile, v)
    && FaultOk(p.requiredFaults, v.fault, currentGit, v.convergence.releaseId)
  }

  // ----- The checks decide exactly that -----

  /** No check of the list is about faults or the soak. */
  ghost predicate NoneConcern(checks: seq<Check>) {
    forall i :: 0 <= i < |checks| ==> !AboutFaults(checks[i].code) && !AboutSoak(checks[i].code)
  }

  lemma AllHoldSplit(a: seq<Check>, b: seq<Check>)
    ensures AllHold(a + b) <==> AllHold(a) && AllHold(b)
  {
    if AllHold(a + b) {
      assert forall i :: 0 <= i < |a| ==> (a + b)[i] == a[i];
      forall i | 0 <= i < |b| ensures b[i].holds {
        assert (a + b)[|a| + i] == b[i];
      }
    }
  }

  lemma ScenarioMeaning(m: FM.Matrix, gitSha: string, releaseId: string, n: string)
    ensures AllHold(ScenarioChecks(m, gitSha, releaseId, n)) <==> ScenarioOk(m, gitSha, releaseId, n)
    ensures forall x :: x in ScenarioChecks(m, gitSha, releaseId, n) ==> AboutFaults(x.code)
  {
    var l := ScenarioChecks(m, gitSha, releaseId, n);
    assert AllHold(l) ==> l[0].holds;
    if n in m.scenarios {
      assert AllHold(l) ==> l[1].holds && l[2].holds;
    }
  }

  lemma {:induction false} AllScenariosMeaning(required: seq<string>, m: FM.Matrix, gitSha: string, releaseId: string)
    ensures AllHold(AllScenarioChecks(required, m, gitSha, releaseId)) <==>
            forall n :: n in required ==> ScenarioOk(m, gitSha, releaseId, n)
    ensures forall x :: x in AllScenarioChecks(required, m, gitSha, releaseId) ==> AboutFaults(x.code)
  {
    if required != [] {
      ScenarioMeaning(m, gitSha, releaseId, required[0]);
      AllScenariosMeaning(required[1..], m, gitSha, releaseId);
      AllHoldSplit(ScenarioChecks(m, gitSha, releaseId, required[0]),
                   AllScenarioChecks(required[1..], m, gitSha, releaseId));
      assert required == [required[0]] + required[1..];
    }
  }

  lemma FaultMeaning(required: seq<string>, m: FM.Matrix, gitSha: string, releaseId: string)
    ensures AllHold(FaultChecks(required, m, gitSha, releaseId)) <==> FaultOk(required, m, gitSha, releaseId)
    ensures forall x :: x in FaultChecks(required, m, gitSha, releaseId) ==> AboutFaults(x.code)
  {
    AllScenariosMeaning(required, m, gitSha, releaseId);
    var head := FaultChecks([], m, gitSha, releaseId);
    assert head[0].code == FaultMatrixFailed;
    assert AllHold(head) <==> head[0].holds && head[1].holds && head[2].holds;
    AllHoldSplit(head, AllScenarioChecks(required, m, gitSha, releaseId));
    assert FaultChecks(required, m, gitSha, releaseId) == head + AllScenarioChecks(required, m, gitSha, releaseId);
  }

  lemma OnlyBetween(a: seq<Check>, s: seq<Check>, b: seq<Check>)
    requires NoneConcern(a) && NoneConcern(b) && forall x :: x in s ==> !AboutFaults(x.code)
    ensures forall c :: AboutSoak(c) ==> (Check(false, c) in a + s + b <==> Check(false, c) in s)
    ensures forall x :: x in a + s + b ==> !AboutFaults(x.code)
  {
    assert forall x :: x in a + s + b <==> x in a || x in s || x in b;
  }

  /** Reasons about the soak come from its own checks alone. */
  lemma PaperCodes(p: Policy, restore: Restore, s: Soak, w: Webhook, r: Release)
    ensures forall c :: AboutSoak(c) ==>
              (Check(false, c) in PaperChecks(p, restore, s, w, r) <==> Check(false, c) in SoakPart(p, s, r))
    ensures forall x :: x in PaperChecks(p, restore, s, w, r) ==> !AboutFaults(x.code)
  {
    PaperConcern(p, restore, w);
    SoakConcern(p, s, r);
    OnlyBetween(ProjectionPart(restore), SoakPart(p, s, r), WebhookPart(p, w));
  }

  lemma PaperConcern(p: Policy, restore: Restore, w: Webhook)
    ensures NoneConcern(ProjectionPart(restore)) && NoneConcern(WebhookPart(p, w))
  {
  }

  lemma SoakConcern(p: Policy, s: Soak, r: Release)
    ensures forall x :: x in SoakPart(p, s, r) ==> !AboutFaults(x.code)
  {
  }

  /** Each reason about the soak fails its check exactly when it applies. */
  lemma SoakCodes(p: Policy, s: Soak, r: Release)
    ensures var l := SoakPart(p, s, r);
            && (Check(false, PaperSoakModeInvalid) in l <==> !s.passed || s.mode != "production_shape_observation")
            && (Check(false, PaperSoakTooShort) in l <==> SoakElapsed(s) < MinimumDays(p) as real)
            && (Check(false, PaperSoakLedgerProjectionFailed) in l <==> !s.ledgerPassed)
            && (Check(false, PaperSoakRecoveryFailed) in l <==> !s.recoveryPassed)
  {
    var l := SoakPart(p, s, r);
    assert l[0] in l && l[1] in l && l[4] in l && l[5] in l;
  }

  lemma CollectMeaning(locks: seq<string>, existing: set<string>, required: seq<Kind>, f: Files)
    ensures AllHold(LockChecks(locks, existing)) <==> forall l :: l in locks ==> l in existing
    ensures AllHold(EvidenceChecks(required, f)) <==> forall k :: k in required ==> Present(f, k)
    ensures NoneConcern(LockChecks(locks, existing)) && NoneConcern(EvidenceChecks(required, f))
  {
    if AllHold(LockChecks(locks, existing)) {
      forall l | l in locks ensures l in existing {
        var i :| 0 <= i < |locks| && locks[i] == l;
        assert LockChecks(locks, existing)[i].holds;
      }
    }
    if AllHold(EvidenceChecks(required, f)) {
      forall k | k in required ensures Present(f, k) {
        var i :| 0 <= i < |required| && required[i] == k;
        assert EvidenceChecks(required, f)[i].holds;
      }
    }
  }

  lemma FiveSections(a: seq<Check>, b: seq<Check>, c: seq<Check>, d: seq<Check>, e: seq<Check>)
    ensures AllHold(a + b + c + d + e) <==> AllHold(a) && AllHold(b) && AllHold(c) && AllHold(d) && AllHold(e)
    ensures NoneConcern(a) && NoneConcern(b) && NoneConcern(c) && NoneConcern(d) && NoneConcern(e) ==>
            NoneConcern(a + b + c + d + e)
  {
    AllHoldSplit(a, b);
    AllHoldSplit(a + b, c);
    AllHoldSplit(a + b + c, d);
    AllHoldSplit(a + b + c + d, e);
  }

  /** All checks hold exactly when each section's do. */
  ghost predicate SectionsHold(p: Policy, profile: string, runtime: string, currentGit: string, v: View)
    requires runtime in p.windowsRequired
  {
    var git, id := v.convergence.gitSha, v.convergence.releaseId;
    && AllHold(ConvergenceChecks(v.convergence, currentGit)) && AllHold(LocalChecks(v.local, git))
    && AllHold(RestoreChecks(v.local, v.restore, git, id))
    && AllHold(FaultChecks(p.requiredFaults, v.fault, git, id))
    && AllHold(RuntimeChecks(p, runtime, v)) && AllHold(SoakChecks(p, profile, v))
  }

  lemma ChecksBySection(p: Policy, profile: string, runtime: string, currentGit: string,
                        existing: set<string>, f: Files)
    requires profile in p.profiles && runtime in p.windowsRequired
    ensures AllHold(AllChecks(p, profile, runtime, currentGit, existing, f)) <==>
            && (forall l :: l in p.sourceLocks ==> l in existing)
            && (forall k :: k in RequiredKinds(p, profile, runtime) ==> Present(f, k))
            && SectionsHold(p, profile, runtime, currentGit, Seen(p, profile, runtime, f))
  {
    var v := Seen(p, profile, runtime, f);
    var git, id := v.convergence.gitSha, v.convergence.releaseId;
    var required := RequiredKinds(p, profile, runtime);
    CollectMeaning(p.sourceLocks, existing, required, f);
    FiveSections(LockChecks(p.sourceLocks, existing), EvidenceChecks(required, f),
                 ConvergenceChecks(v.convergence, currentGit),
                 LocalChecks(v.local, git), RestoreChecks(v.local, v.restore, git, id));
    var early := EarlyChecks(p, profile, runtime, currentGit, existing, f);
    var faults := FaultChecks(p.requiredFaults, v.fault, git, id);
    FiveSections(early, faults, RuntimeChecks(p, runtime, v), SoakChecks(p, profile, v), []);
    var all := AllChecks(p, profile, runtime, currentGit, existing, f);
    assert all + [] == all;
  }

  /** Evidence that is not seen fails its section. */
  lemma UnseenFails(p: Policy, profile: string, runtime: string, currentGit: string, f: Files)
    requires profile in p.profiles && runtime in p.windowsRequired
    requires SectionsHold(p, profile, runtime, currentGit, Seen(p, profile, runtime, f))
    ensures forall k :: k in Needed(p, profile, runtime) ==> k in RequiredKinds(p, profile, runtime)
  {
    var v := Seen(p, profile, runtime, f);
    var git, id := v.convergence.gitSha, v.convergence.releaseId;
    assert ConvergenceChecks(v.convergence, currentGit)[0].holds;
    assert LocalChecks(v.local, git)[0].holds;
    assert RestoreChecks(v.local, v.restore, git, id)[0].holds;
    assert FaultChecks(p.requiredFaults, v.fault, git, id)[0].holds;
    assert RuntimeChecks(p, runtime, v)[0].holds;
    if p.windowsRequired[runtime] {
      assert RuntimeChecks(p, runtime, v)[1].holds;
    }
    if profile == "paper" {
      assert SoakChecks(p, profile, v)[1].holds && SoakChecks(p, profile, v)[7].holds;
    }
  }

  lemma CoreSections(currentGit: string, v: View)
    ensures AllHold(ConvergenceChecks(v.convergence, currentGit)) && AllHold(LocalChecks(v.local, currentGit)) &&
            AllHold(RestoreChecks(v.local, v.restore, currentGit, v.convergence.releaseId)) &&
            v.supply == Supply("passed", false) <==>
            OneRelease("", currentGit, v) && Identified(v) && AllPassed("", false, v) && ProductionShape("", v)
  {
    IdentifiedMeaning(v);
    var a := ConvergenceChecks(v.convergence, currentGit);
    var b := LocalChecks(v.local, currentGit);
    var c := RestoreChecks(v.local, v.restore, currentGit, v.convergence.releaseId);
    assert AllHold(a) <==> a[0].holds && a[1].holds && a[2].holds && a[3].holds && a[4].holds && a[5].holds &&
                           a[6].holds && a[7].holds;
    assert AllHold(b) <==> b[0].holds && b[1].holds && b[2].holds && b[3].holds && b[4].holds;
    assert AllHold(c) <==> c[0].holds && c[1].holds && c[2].holds && c[3].holds && c[4].holds && c[5].holds;
  }

  lemma PaperSection(p: Policy, currentGit: string, v: View)
    requires OneRelease("", currentGit, v) && AllPassed("", false, v) && ProductionShape("", v)
    ensures AllHold(SoakChecks(p, "paper", v)) <==>
            && OneRelease("paper", currentGit, v) && AllPassed("paper", false, v)
            && ProductionShape("paper", v) && LongEnough(p, "paper", v)
  {
    var a, s, w := ProjectionPart(v.restore), SoakPart(p, v.soak, ReleaseOf(v)), WebhookPart(p, v.webhook);
    AllHoldSplit(a, s);
    AllHoldSplit(a + s, w);
    assert AllHold(a) <==> a[0].holds;
    assert AllHold(s) <==> s[0].holds && s[1].holds && s[2].holds && s[3].holds && s[4].holds && s[5].holds;
    assert AllHold(w) <==> w[0].holds && w[1].holds && w[2].holds;
  }

  lemma RuntimeSection(p: Policy, runtime: string, v: View)
    requires runtime in p.windowsRequired
    ensures AllHold(RuntimeChecks(p, runtime, v)) <==>
            && v.supply == Supply("passed", false)
            && (p.windowsRequired[runtime] ==> v.windows == Windows(true, "WINDOWS_CELERY_CERTIFIED"))
    ensures NoneConcern(RuntimeChecks(p, runtime, v))
  {
    var l := RuntimeChecks(p, runtime, v);
    assert AllHold(l) ==> l[0].holds;
    if p.windowsRequired[runtime] {
      assert AllHold(l) ==> l[1].holds;
    }
  }

  /** The sections, regrouped by what they establish. */
  lemma SectionsMeaning(p: Policy, profile: string, runtime: string, currentGit: string, v: View)
    requires runtime in p.windowsRequired
    ensures SectionsHold(p, profile, runtime, currentGit, v) <==>
            && OneRelease(profile, currentGit, v) && Identified(v)
            && AllPassed(profile, p.windowsRequired[runtime], v) && ProductionShape(profile, v)
            && LongEnough(p, profile, v)
            && FaultOk(p.requiredFaults, v.fault, currentGit, v.convergence.releaseId)
  {
    if SectionsHold(p, profile, runtime, currentGit, v) {
      assert ConvergenceChecks(v.convergence, currentGit)[1].holds;
    }
    if v.convergence.gitSha == currentGit {
      CoreSections(currentGit, v);
      RuntimeSection(p, runtime, v);
      FaultMeaning(p.requiredFaults, v.fault, currentGit, v.convergence.releaseId);
      if profile == "paper" && OneRelease("", currentGit, v) && AllPassed("", false, v) && ProductionShape("", v) {
        PaperSection(p, currentGit, v);
      }
    }
  }

  /** A certificate is issued exactly when the release is certifiable. */
  lemma CertifiedIff(p: Policy, profile: string, runtime: string, currentGit: string,
                     existing: set<string>, f: Files)
    requires profile in p.profiles && runtime in p.windowsRequired
    ensures Failing(AllChecks(p, profile, runtime, currentGit, existing, f)) == [] <==>
            Certifiable(p, profile, runtime, currentGit, existing, f)
  {
    FailingMembers(AllChecks(p, profile, runtime, currentGit, existing, f));
    ChecksBySection(p, profile, runtime, currentGit, existing, f);
    CompleteMeaning(p, profile, runtime, existing, f);
    SectionsMeaning(p, profile, runtime, currentGit, Seen(p, profile, runtime, f));
    if SectionsHold(p, profile, runtime, currentGit, Seen(p, profile, runtime, f)) {
      UnseenFails(p, profile, runtime, currentGit, f);
    }
  }

  /** Where reasons about faults and about the soak can come from. */
  lemma ReasonsFrom(early: seq<Check>, faults: seq<Check>, runtime: seq<Check>, paper: seq<Check>)
    requires NoneConcern(early) && NoneConcern(runtime)
    requires (forall x :: x in faults ==> AboutFaults(x.code)) && (forall x :: x in paper ==> !AboutFaults(x.code))
    ensures var blocked := Failing(early + faults + runtime + paper);
            && ((exists c :: c in blocked && AboutFaults(c)) <==> !AllHold(faults))
            && (forall c :: AboutSoak(c) ==> (c in blocked <==> Check(false, c) in paper))
  {
    var all := early + faults + runtime + paper;
    FailingMembers(all);
    assert forall x :: x in all <==> x in early || x in faults || x in runtime || x in paper;
    if !AllHold(faults) {
      var i :| 0 <= i < |faults| && !faults[i].holds;
      assert faults[i] in faults && faults[i] == Check(false, faults[i].code);
      assert faults[i].code in Failing(all);
    }
  }

  lemma CoreConcern(c: Convergence, l: LocalData, r: Restore, currentGit: string, gitSha: string, releaseId: string)
    ensures NoneConcern(ConvergenceChecks(c, currentGit)) && NoneConcern(LocalChecks(l, gitSha))
    ensures NoneConcern(RestoreChecks(l, r, gitSha, releaseId))
  {
  }

  lemma EarlyConcern(p: Policy, profile: string, runtime: string, currentGit: string,
                     existing: set<string>, f: Files)
    requires profile in p.profiles && runtime in p.windowsRequired
    ensures NoneConcern(EarlyChecks(p, profile, runtime, currentGit, existing, f))
  {
    var v := Seen(p, profile, runtime, f);
    var required := RequiredKinds(p, profile, runtime);
    CollectMeaning(p.sourceLocks, existing, required, f);
    CoreConcern(v.convergence, v.local, v.restore, currentGit, v.convergence.gitSha, v.convergence.releaseId);
    FiveSections(LockChecks(p.sourceLocks, existing), EvidenceChecks(required, f),
                 ConvergenceChecks(v.convergence, currentGit),
                 LocalChecks(v.local, v.convergence.gitSha),
                 RestoreChecks(v.local, v.restore, v.convergence.gitSha, v.convergence.releaseId));
  }

  /** Which reasons appear: one about faults exactly when the fault section is not satisfied, and
      one about the mode, length, ledger or recovery of the soak exactly when the profile is paper
      and it applies. */
  lemma ReasonsExact(p: Policy, profile: string, runtime: string, currentGit: string,
                     existing: set<string>, f: Files)
    requires profile in p.profiles && runtime in p.windowsRequired
    ensures ReasonsMatch(p, profile, Seen(p, profile, runtime, f),
                         Failing(AllChecks(p, profile, runtime, currentGit, existing, f)))
  {
    var v := Seen(p, profile, runtime, f);
    var git, id := v.convergence.gitSha, v.convergence.releaseId;
    EarlyConcern(p, profile, runtime, currentGit, existing, f);
    FaultMeaning(p.requiredFaults, v.fault, git, id);
    RuntimeSection(p, runtime, v);
    PaperCodes(p, v.restore, v.soak, v.webhook, ReleaseOf(v));
    SoakCodes(p, v.soak, ReleaseOf(v));
    LastedMeaning(p, v.soak);
    ReasonsFrom(EarlyChecks(p, profile, runtime, currentGit, existing, f),
                FaultChecks(p.requiredFaults, v.fault, git, id), RuntimeChecks(p, runtime, v),
                SoakChecks(p, profile, v));
  }

  ghost predicate ReasonsMatch(p: Policy, profile: string, v: View, blocked: seq<Code>) {
    && ((exists c :: c in blocked && AboutFaults(c)) <==>
          !FaultOk(p.requiredFaults, v.fault, v.convergence.gitSha, v.convergence.releaseId))
    && (PaperSoakModeInvalid in blocked <==>
          profile == "paper" && (!v.soak.passed || v.soak.mode != "production_shape_observation"))
    && (PaperSoakTooShort in blocked <==> profile == "paper" && !Lasted(v.soak, Days(p)))
    && (PaperSoakLedgerProjectionFailed in blocked <==> profile == "paper" && !v.soak.ledgerPassed)
    && (PaperSoakRecoveryFailed in blocked <==> profile == "paper" && !v.soak.recoveryPassed)
  }

  // ----- The evaluator -----

  /** `build_bundle`: certified exactly when the release is certifiable; otherwise the reasons are
      those that apply, each exactly when it does, in the order of the sections. */
  method BuildBundle(p: Policy, profile: string, runtime: string, currentGit: string,
                     existing: set<string>, f: Files)
    returns (r: Outcome)
    ensures r.Bundle? <==> profile in p.profiles && runtime in p.windowsRequired
    ensures r.Bundle? ==> (r.certified <==> Certifiable(p, profile, runtime, currentGit, existing, f))
    ensures r.Bundle? ==> (r.certified <==> r.blocked == [])
    ensures r.Bundle? ==> (forall c :: c in r.blocked <==> Reason(p, profile, runtime, currentGit, existing, f, c))
    ensures r.Bundle? ==> InOrder(r.blocked)
    ensures r.Bundle? ==> r.blocked == Failing(AllChecks(p, profile, runtime, currentGit, existing, f))
  {
    if profile !in p.profiles || runtime !in p.windowsRequired {
      return Unsupported;
    }
    var required := RequiredKinds(p, profile, runtime);
    var blocked := Require([], [], LockChecks(p.sourceLocks, existing));
    ghost var done := [] + LockChecks(p.sourceLocks, existing);
    blocked := Require(blocked, done, EvidenceChecks(required, f));
    done := done + EvidenceChecks(required, f);
    var v := Seen(p, profile, runtime, f);
    var git, id := v.convergence.gitSha, v.convergence.releaseId;
    blocked := Require(blocked, done, ConvergenceChecks(v.convergence, currentGit));
    done := done + ConvergenceChecks(v.convergence, currentGit);
    blocked := Require(blocked, done, LocalChecks(v.local, git));
    done := done + LocalChecks(v.local, git);
    blocked := Require(blocked, done, RestoreChecks(v.local, v.restore, git, id));
    done := done + RestoreChecks(v.local, v.restore, git, id);
    assert done == EarlyChecks(p, profile, runtime, currentGit, existing, f);
    blocked := Require(blocked, done, FaultChecks(p.requiredFaults, v.fault, git, id));
    done := done + FaultChecks(p.requiredFaults, v.fault, git, id);
    blocked := Require(blocked, done, RuntimeChecks(p, runtime, v));
    done := done + RuntimeChecks(p, runtime, v);
    if profile == "paper" {
      blocked := Require(blocked, done, PaperChecks(p, v.restore, v.soak, v.webhook, ReleaseOf(v)));
      done := done + PaperChecks(p, v.restore, v.soak, v.webhook, ReleaseOf(v));
    }
    assert done == AllChecks(p, profile, runtime, currentGit, existing, f);
    CertifiedIff(p, profile, runtime, currentGit, existing, f);
    ReasonsInOrder(p, profile, runtime, currentGit, existing, f);
    forall c ensures c in blocked <==> Reason(p, profile, runtime, currentGit, existing, f, c) {
      ReasonGiven(p, profile, runtime, currentGit, existing, f, c);
    }
    return Bundle(blocked == [], blocked);
  }

  // ----- What a certificate implies -----

  /** Fail-closed whatever the policy lists: a bundle without reasons had every needed evidence
      payload, even if the policy's own list of required evidence is empty. */
  lemma CertificateNeedsEvidence(p: Policy, profile: string, runtime: string, currentGit: string,
                                 existing: set<string>, f: Files)
    requires profile in p.profiles && runtime in p.windowsRequired
    requires Failing(AllChecks(p, profile, runtime, currentGit, existing, f)) == []
    ensures f.convergence.Json? && f.local.Json? && f.restore.Json? && f.fault.Json? && f.supply.Json?
    ensures profile == "paper" ==> f.soak.Json? && f.webhook.Json?
    ensures p.windowsRequired[runtime] ==> f.windows.Json?
  {
    CertifiedIff(p, profile, runtime, currentGit, existing, f);
    CompleteMeaning(p, profile, runtime, existing, f);
    NeededPresent(p, profile, runtime, f);
  }

  lemma NeededPresent(p: Policy, profile: string, runtime: string, f: Files)
    requires runtime in p.windowsRequired && forall k :: k in Needed(p, profile, runtime) ==> Present(f, k)
    ensures f.convergence.Json? && f.local.Json? && f.restore.Json? && f.fault.Json? && f.supply.Json?
    ensures profile == "paper" ==> f.soak.Json? && f.webhook.Json?
    ensures p.windowsRequired[runtime] ==> f.windows.Json?
  {
    assert Present(f, ReleaseConvergence) && Present(f, LocalDataCertification) && Present(f, RestoreDrill);
    assert Present(f, FaultMatrixFile) && Present(f, SupplyChain);
    assert profile == "paper" ==> Present(f, PaperSoakFile) && Present(f, ExternalWebhook);
    assert p.windowsRequired[runtime] ==> Present(f, WindowsCertificate);
  }

  /** All evidence files behind a bundle without reasons describe one release: the checked-out
      commit, one release id and one data release with one manifest. */
  lemma CertificateBindsOneRelease(p: Policy, profile: string, runtime: string, currentGit: string,
                                   existing: set<string>, f: Files)
    requires profile in p.profiles && runtime in p.windowsRequired
    requires Failing(AllChecks(p, profile, runtime, currentGit, existing, f)) == []
    ensures f.convergence.Json? && f.local.Json? && f.restore.Json? && f.fault.Json?
    ensures var id := f.convergence.payload.releaseId;
            && f.convergence.payload.gitSha == currentGit == f.local.payload.gitSha == f.restore.payload.gitSha
            && f.fault.payload.identity == FM.Identity(currentGit, currentGit, id) && f.restore.payload.releaseId == id
            && (forall n :: n in p.requiredFaults ==>
                  (n in f.fault.payload.scenarios &&
                   f.fault.payload.scenarios[n].identity == FM.Identity(currentGit, currentGit, id)))
            && f.restore.payload.dataReleaseId == DataReleaseId(f.local.payload)
            && f.restore.payload.manifestSha == ManifestSha(f.local.payload)
    ensures profile == "paper" ==>
              (f.soak.Json? && f.soak.payload.gitSha == currentGit &&
               f.soak.payload.releaseId == f.convergence.payload.releaseId &&
               f.soak.payload.dataReleaseId == DataReleaseId(f.local.payload))
  {
    CertificateNeedsEvidence(p, profile, runtime, currentGit, existing, f);
    CertifiedIff(p, profile, runtime, currentGit, existing, f);
    var v := Seen(p, profile, runtime, f);
    assert v.convergence == f.convergence.payload && v.local == f.local.payload;
    assert v.restore == f.restore.payload && v.fault == f.fault.payload;
    assert profile == "paper" ==> v.soak == f.soak.payload;
    assert forall n :: n in p.requiredFaults ==> ScenarioOk(v.fault, currentGit, v.convergence.releaseId, n);
  }
}
